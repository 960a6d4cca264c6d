/** `re.findall` for the one family of patterns the modelled code uses:
    a literal opener, one captured `\w+` group and a literal closer, e.g.
    `\{\{(\w+)\}\}`, `\$(\w+)` (empty closer) or `__(\w+)__`. */
module WordPatterns {
  import opened Wrappers
  import opened PyStrings

  /** Length of the run of word characters at the start of `s`. */
  function WordRun(s: string): (n: nat)
    ensures n <= |s|
    ensures forall i | 0 <= i < n :: IsWordChar(s[i])
    ensures n < |s| ==> !IsWordChar(s[n])
    decreases |s|
  {
    if s == [] || !IsWordChar(s[0]) then 0 else 1 + WordRun(s[1..])
  }

  /** The longest capture of at most `w` characters that the closer follows:
      the greedy `\w+` gives characters back until the closer matches. */
  function LongestFit(t: string, w: nat, close: string): (r: Option<nat>)
    requires w <= |t|
    ensures r.Some? ==> 1 <= r.value <= w && StartsWith(t[r.value..], close)
    ensures r.Some? ==> forall k | r.value < k <= w :: !StartsWith(t[k..], close)
    ensures r.None? ==> forall k | 1 <= k <= w :: !StartsWith(t[k..], close)
    decreases w
  {
    if w == 0 then None
    else if StartsWith(t[w..], close) then Some(w)
    else LongestFit(t, w - 1, close)
  }

  /** The match of `open(\w+)close` anchored at the start of `s`, as the
      length of its capture. */
  function MatchAt(s: string, open: string, close: string): (r: Option<nat>)
    ensures r.Some? ==> StartsWith(s, open) && r.value >= 1
    ensures r.Some? ==> |open| + r.value + |close| <= |s|
    ensures r.Some? ==> IsWord(s[|open|..|open| + r.value])
    ensures r.Some? ==> s[|open| + r.value..|open| + r.value + |close|] == close
  {
    if !StartsWith(s, open) then None
    else
      var t := s[|open|..];
      var k := LongestFit(t, WordRun(t), close);
      if k.Some? then
        assert t[..k.value] == s[|open|..|open| + k.value];
        assert t[k.value..][..|close|] == s[|open| + k.value..|open| + k.value + |close|];
        k
      else None
  }

  /** `re.findall(open + r'(\w+)' + close, s)`: scan left to right, and after
      a match continue where it ended. */
  function FindAll(s: string, open: string, close: string): (r: seq<string>)
    ensures forall i | 0 <= i < |r| :: IsWord(r[i])
    decreases |s|
  {
    if s == [] then []
    else
      var m := MatchAt(s, open, close);
      if m.Some? then
        var e := |open| + m.value + |close|;
        [s[|open|..|open| + m.value]] + FindAll(s[e..], open, close)
      else FindAll(s[1..], open, close)
  }

  /** A prefix holding no character that starts the opener contributes no match. */
  lemma {:induction false} FindAllSkip(x: string, rest: string, open: string, close: string)
    requires open != [] && open[0] !in x
    ensures FindAll(x + rest, open, close) == FindAll(rest, open, close)
    decreases |x|
  {
    if x != [] {
      var s := x + rest;
      assert s[0] == x[0];
      assert |open| <= |s| ==> s[..|open|][0] != open[0];
      assert s[1..] == x[1..] + rest;
      assert open[0] !in x[1..];
      FindAllSkip(x[1..], rest, open, close);
    } else {
      assert x + rest == rest;
    }
  }

  /** A text without the opener's first character has no matches. */
  lemma FindAllAbsent(s: string, open: string, close: string)
    requires open != [] && open[0] !in s
    ensures FindAll(s, open, close) == []
  {
    FindAllSkip(s, [], open, close);
    assert s + [] == s;
  }
}
