/** Template text seen as a list of pieces: literal text and `{{name}}`
    placeholders. This is the view in which the string rewriting of the
    template engine (`str.replace` of placeholders, `re.findall` of
    `\{\{(\w+)\}\}`) has a simple meaning. */
module TemplateText {
  import opened PyStrings
  import opened WordPatterns
  import opened Wrappers

  datatype Piece = Lit(text: string) | Hole(name: string)

  /** `f"{{{{{name}}}}}"`, i.e. `{{name}}`. */
  function Placeholder(name: string): (r: string)
    ensures |r| == |name| + 4 && r[..2] == "{{" && r[|r| - 2..] == "}}"
  {
    "{{" + name + "}}"
  }

  function Render(p: Piece): string {
    match p
    case Lit(t) => t
    case Hole(n) => Placeholder(n)
  }

  /** The template text the pieces spell out. */
  function Text(ps: seq<Piece>): string
    decreases |ps|
  {
    if ps == [] then "" else Render(ps[0]) + Text(ps[1..])
  }

  /** The placeholder names, in order. */
  function Holes(ps: seq<Piece>): (r: seq<string>)
    ensures |r| <= |ps|
    decreases |ps|
  {
    if ps == [] then []
    else if ps[0].Hole? then [ps[0].name] + Holes(ps[1..])
    else Holes(ps[1..])
  }

  /** Literals hold no `{` and every placeholder name is a `\w+` word. */
  predicate WellFormed(ps: seq<Piece>) {
    forall i | 0 <= i < |ps| ::
      match ps[i]
      case Lit(t) => '{' !in t
      case Hole(n) => IsWord(n)
  }

  /** Every placeholder `name` becomes the piece `with`. */
  function Subst(ps: seq<Piece>, name: string, with: Piece): (r: seq<Piece>)
    ensures |r| == |ps|
    ensures forall i | 0 <= i < |ps| :: r[i] == if ps[i] == Hole(name) then with else ps[i]
  {
    seq(|ps|, i requires 0 <= i < |ps| => if ps[i] == Hole(name) then with else ps[i])
  }

  lemma TextCons(ps: seq<Piece>)
    requires ps != []
    ensures Text(ps) == Render(ps[0]) + Text(ps[1..])
  {
  }

  /** Two different words give placeholders neither of which is a prefix of
      the other's text followed by anything. */
  lemma HoleMismatch(m: string, n: string, rest: string)
    requires IsWord(m) && IsWord(n) && m != n
    requires |Placeholder(n)| <= |Placeholder(m) + rest|
    ensures (Placeholder(m) + rest)[..|Placeholder(n)|] != Placeholder(n)
  {
    var s := Placeholder(m) + rest;
    var p := Placeholder(n);
    // an index below |p| where the two disagree
    var k: nat;
    if |m| < |n| {
      k := 2 + |m|;
      assert s[k] == '}' && p[k] == n[|m|];
    } else if |n| < |m| {
      k := 2 + |n|;
      assert p[k] == '}' && s[k] == m[|n|];
    } else {
      assert exists i | 0 <= i < |m| :: m[i] != n[i];
      var i :| 0 <= i < |m| && m[i] != n[i];
      k := 2 + i;
      assert s[k] == m[i] && p[k] == n[i];
    }
    assert s[..|p|][k] != p[k];
  }

  /** Replacing placeholder `pat` leaves a different placeholder untouched. */
  lemma ReplaceSkipsHole(m: string, n: string, rest: string, rep: string)
    requires IsWord(m) && IsWord(n) && m != n
    ensures ReplaceAll(Placeholder(m) + rest, Placeholder(n), rep)
         == Placeholder(m) + ReplaceAll(rest, Placeholder(n), rep)
  {
    var pat := Placeholder(n);
    var s2 := (m + "}}") + rest;
    var s1 := ['{'] + s2;
    var s := Placeholder(m) + rest;
    PlaceholderCons(m, rest);
    assert !StartsWith(s, pat) by {
      if |pat| <= |s| {
        HoleMismatch(m, n, rest);
      }
    }
    assert !StartsWith(s1, pat) by {
      if |pat| <= |s1| {
        assert s1[..|pat|][1] == m[0] && pat[1] == '{';
      }
    }
    ReplaceNoMatch('{', s1, pat, rep);
    ReplaceNoMatch('{', s2, pat, rep);
    assert '{' !in m + "}}";
    ReplaceSkipsPrefix(m + "}}", rest, pat, rep);
    PlaceholderCons(m, ReplaceAll(rest, pat, rep));
  }

  /** A placeholder followed by more text, one brace at a time. */
  lemma PlaceholderCons(m: string, rest: string)
    ensures Placeholder(m) + rest == ['{'] + (['{'] + ((m + "}}") + rest))
  {
  }

  /** The central fact: replacing every `{{name}}` in a well-formed text is
      substituting the piece whose rendering is the replacement. Because
      `str.replace` does not rescan what it inserted, the replacement may be
      any piece. */
  lemma {:induction false} ReplaceHole(ps: seq<Piece>, name: string, with: Piece)
    requires WellFormed(ps) && IsWord(name)
    ensures ReplaceAll(Text(ps), Placeholder(name), Render(with)) == Text(Subst(ps, name, with))
    decreases |ps|
  {
    var pat, rep := Placeholder(name), Render(with);
    if ps != [] {
      var rest := Text(ps[1..]);
      assert WellFormed(ps[1..]) by {
        forall i | 0 <= i < |ps[1..]| ensures ps[1..][i] == ps[i + 1] { }
      }
      ReplaceHole(ps[1..], name, with);
      assert Subst(ps, name, with)[1..] == Subst(ps[1..], name, with);
      TextCons(Subst(ps, name, with));
      match ps[0]
      case Lit(t) =>
        assert '{' !in t;
        ReplaceSkipsPrefix(t, rest, pat, rep);
      case Hole(m) =>
        if m == name {
          assert (Placeholder(m) + rest)[..|pat|] == pat;
          assert (Placeholder(m) + rest)[|pat|..] == rest;
        } else {
          ReplaceSkipsHole(m, name, rest, rep);
        }
    }
  }

  /** `re.findall(r'\{\{(\w+)\}\}', ...)` on a well-formed text finds exactly
      its placeholder names, in order. */
  lemma {:induction false} FindHoles(ps: seq<Piece>)
    requires WellFormed(ps)
    ensures FindAll(Text(ps), "{{", "}}") == Holes(ps)
    decreases |ps|
  {
    if ps != [] {
      var rest := Text(ps[1..]);
      assert WellFormed(ps[1..]) by {
        forall i | 0 <= i < |ps[1..]| ensures ps[1..][i] == ps[i + 1] { }
      }
      FindHoles(ps[1..]);
      match ps[0]
      case Lit(t) =>
        FindAllSkip(t, rest, "{{", "}}");
      case Hole(m) =>
        FindOneHole(m, rest);
    }
  }

  lemma FindOneHole(m: string, rest: string)
    requires IsWord(m)
    ensures FindAll(Placeholder(m) + rest, "{{", "}}") == [m] + FindAll(rest, "{{", "}}")
  {
    var s := Placeholder(m) + rest;
    var t := s[2..];
    assert t == m + ("}}" + rest);
    assert StartsWith(s, "{{");
    assert WordRun(t) == |m| by {
      WordRunPrefix(m, "}}" + rest);
    }
    assert t[|m|..] == "}}" + rest;
    assert StartsWith(t[|m|..], "}}");
    assert MatchAt(s, "{{", "}}") == Some(|m|);
    assert s[2..2 + |m|] == m;
    assert s[2 + |m| + 2..] == rest;
  }

  lemma {:induction false} WordRunPrefix(w: string, rest: string)
    requires AllWordChars(w) && (rest == [] || !IsWordChar(rest[0]))
    ensures WordRun(w + rest) == |w|
    decreases |w|
  {
    if w != [] {
      assert (w + rest)[1..] == w[1..] + rest;
      WordRunPrefix(w[1..], rest);
    } else {
      assert w + rest == rest;
    }
  }

  /** Substituting a well-formed piece keeps the pieces well-formed. */
  lemma SubstWellFormed(ps: seq<Piece>, name: string, with: Piece)
    requires WellFormed(ps) && WellFormed([with])
    ensures WellFormed(Subst(ps, name, with))
  {
    var r := Subst(ps, name, with);
    forall i | 0 <= i < |r|
      ensures match r[i] case Lit(t) => '{' !in t case Hole(n) => IsWord(n)
    {
      if ps[i] == Hole(name) { assert r[i] == [with][0]; }
    }
  }

  /** The placeholder names after a substitution by another placeholder. */
  lemma {:induction false} HolesSubst(ps: seq<Piece>, name: string, target: string)
    ensures Holes(Subst(ps, name, Hole(target)))
         == seq(|Holes(ps)|, i requires 0 <= i < |Holes(ps)| => if Holes(ps)[i] == name then target else Holes(ps)[i])
    decreases |ps|
  {
    if ps != [] {
      HolesSubst(ps[1..], name, target);
      assert Subst(ps, name, Hole(target))[1..] == Subst(ps[1..], name, Hole(target));
    }
  }
}
