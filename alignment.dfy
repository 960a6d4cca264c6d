/** Structural alignment (packages/template_engine/alignment.py): splitting
    prompts into tokens, the longest common subsequence of token lists, and
    the alignment of a family's prompts into a common structure with
    variable regions. `difflib.SequenceMatcher` is an oracle: its opcode
    lists are inputs. */
module Alignment {
  import opened Wrappers
  import opened PyStrings
  import opened PyLists
  import opened TemplateText

  // ---------------------------------------------------------------------
  // Tokens

  /** The length of the leading run of characters that are whitespace
      exactly when `space` is. */
  function RunEnd(s: string, space: bool): (n: nat)
    ensures n <= |s|
    ensures forall i | 0 <= i < n :: IsSpace(s[i]) == space
    ensures n < |s| ==> IsSpace(s[n]) != space
    decreases |s|
  {
    if s == [] || IsSpace(s[0]) != space then 0 else 1 + RunEnd(s[1..], space)
  }

  /** A non-empty run of only whitespace or only non-whitespace. */
  predicate IsRun(t: string) {
    t != [] && forall i | 0 <= i < |t| :: IsSpace(t[i]) == IsSpace(t[0])
  }

  /** `re.findall(r'\S+|\s+', text)`. */
  function Tokenize(text: string): (tokens: seq<string>)
    ensures tokens == [] <==> text == []
    ensures forall k | 0 <= k < |tokens| :: tokens[k] != []
    ensures text != [] ==> tokens[0] != [] && tokens[0][0] == text[0]
    decreases |text|
  {
    if text == [] then []
    else
      var n := RunEnd(text, IsSpace(text[0]));
      [text[..n]] + Tokenize(text[n..])
  }

  /** The tokens spell out the text. */
  lemma {:induction false} TokenizeConcat(text: string)
    ensures Concat(Tokenize(text)) == text
    decreases |text|
  {
    if text != [] {
      var n := RunEnd(text, IsSpace(text[0]));
      TokenizeConcat(text[n..]);
      ConcatCons(text[..n], Tokenize(text[n..]));
      assert text[..n] + text[n..] == text;
    }
  }

  /** Each token is a run. */
  lemma {:induction false} TokenizeRuns(text: string)
    ensures forall k | 0 <= k < |Tokenize(text)| :: IsRun(Tokenize(text)[k])
    decreases |text|
  {
    if text != [] {
      var n := RunEnd(text, IsSpace(text[0]));
      var rest := text[n..];
      TokenizeRuns(rest);
      var ts := Tokenize(text);
      forall k | 0 <= k < |ts| ensures IsRun(ts[k]) {
        if k > 0 {
          assert ts[k] == Tokenize(rest)[k - 1];
        }
      }
    }
  }

  /** The runs are maximal: neighbouring tokens are of opposite kinds. */
  lemma {:induction false} TokenizeAlternates(text: string)
    ensures var ts := Tokenize(text);
            forall k | 0 <= k < |ts| - 1 :: IsSpace(ts[k][0]) != IsSpace(ts[k + 1][0])
    decreases |text|
  {
    if text != [] {
      var n := RunEnd(text, IsSpace(text[0]));
      var rest := text[n..];
      TokenizeAlternates(rest);
      var ts := Tokenize(text);
      assert ts[1..] == Tokenize(rest);
      forall k | 0 <= k < |ts| - 1 ensures IsSpace(ts[k][0]) != IsSpace(ts[k + 1][0]) {
        if k == 0 {
          assert ts[1] == Tokenize(rest)[0];
          assert ts[1][0] == rest[0] == text[n];
        } else {
          assert ts[k] == Tokenize(rest)[k - 1] && ts[k + 1] == Tokenize(rest)[k];
        }
      }
    }
  }

  // ---------------------------------------------------------------------
  // Longest common subsequence of two token lists

  function Max(x: nat, y: nat): nat { if x >= y then x else y }

  /** `dp[i][j]`: the recurrence the table is filled with. */
  function LcsLength(a: seq<string>, b: seq<string>, i: nat, j: nat): nat
    requires i <= |a| && j <= |b|
    decreases i + j
  {
    if i == 0 || j == 0 then 0
    else if a[i - 1] == b[j - 1] then LcsLength(a, b, i - 1, j - 1) + 1
    else Max(LcsLength(a, b, i - 1, j), LcsLength(a, b, i, j - 1))
  }

  /** The backtracking walk from `(i, j)`, in the order the result is
      returned (after the final reversal). */
  function Backtrack(a: seq<string>, b: seq<string>, i: nat, j: nat): seq<string>
    requires i <= |a| && j <= |b|
    decreases i + j
  {
    if i == 0 || j == 0 then []
    else if a[i - 1] == b[j - 1] then Backtrack(a, b, i - 1, j - 1) + [a[i - 1]]
    else if LcsLength(a, b, i - 1, j) > LcsLength(a, b, i, j - 1) then Backtrack(a, b, i - 1, j)
    else Backtrack(a, b, i, j - 1)
  }

  /** What `_lcs_tokens` returns. */
  function Lcs(a: seq<string>, b: seq<string>): seq<string> {
    Backtrack(a, b, |a|, |b|)
  }

  /** `idx` lists increasing positions of `y` that spell out `x`. */
  ghost predicate Embeds<T>(x: seq<T>, y: seq<T>, idx: seq<nat>) {
    && |idx| == |x|
    && (forall k | 0 <= k < |idx| :: idx[k] < |y| && y[idx[k]] == x[k])
    && (forall k, l | 0 <= k < l < |idx| :: idx[k] < idx[l])
  }

  ghost predicate IsSubsequence<T>(x: seq<T>, y: seq<T>) {
    exists idx :: Embeds(x, y, idx)
  }

  /** An embedding into a prefix is an embedding into the whole. */
  lemma EmbedsPrefix<T>(x: seq<T>, y: seq<T>, n: nat, idx: seq<nat>)
    requires n <= |y| && Embeds(x, y[..n], idx)
    ensures Embeds(x, y, idx)
  {
    forall k | 0 <= k < |idx| ensures idx[k] < |y| && y[idx[k]] == x[k] {
      assert y[..n][idx[k]] == y[idx[k]];
    }
  }

  /** The walk collects as many tokens as the table entry it starts from. */
  lemma {:induction false} BacktrackLength(a: seq<string>, b: seq<string>, i: nat, j: nat)
    requires i <= |a| && j <= |b|
    ensures |Backtrack(a, b, i, j)| == LcsLength(a, b, i, j)
    decreases i + j
  {
    if i == 0 || j == 0 {
    } else if a[i - 1] == b[j - 1] {
      BacktrackLength(a, b, i - 1, j - 1);
      assert Backtrack(a, b, i, j) == Backtrack(a, b, i - 1, j - 1) + [a[i - 1]];
    } else if LcsLength(a, b, i - 1, j) > LcsLength(a, b, i, j - 1) {
      BacktrackLength(a, b, i - 1, j);
      assert Backtrack(a, b, i, j) == Backtrack(a, b, i - 1, j);
      assert LcsLength(a, b, i, j) == LcsLength(a, b, i - 1, j);
    } else {
      BacktrackLength(a, b, i, j - 1);
      assert Backtrack(a, b, i, j) == Backtrack(a, b, i, j - 1);
      assert LcsLength(a, b, i, j) == LcsLength(a, b, i, j - 1);
    }
  }

  /** The walk spells out a common subsequence of the two prefixes, as long
      as the table entry it starts from. */
  lemma {:induction false} BacktrackSpec(a: seq<string>, b: seq<string>, i: nat, j: nat)
    returns (ia: seq<nat>, ib: seq<nat>)
    requires i <= |a| && j <= |b|
    ensures |Backtrack(a, b, i, j)| == LcsLength(a, b, i, j)
    ensures Embeds(Backtrack(a, b, i, j), a[..i], ia) && Embeds(Backtrack(a, b, i, j), b[..j], ib)
    decreases i + j
  {
    BacktrackLength(a, b, i, j);
    if i == 0 || j == 0 {
      ia, ib := [], [];
    } else if a[i - 1] == b[j - 1] {
      var pa, pb := BacktrackSpec(a, b, i - 1, j - 1);
      var x := Backtrack(a, b, i - 1, j - 1);
      assert Backtrack(a, b, i, j) == x + [a[i - 1]];
      EmbedsSnoc(x, a, i, pa);
      EmbedsSnoc(x, b, j, pb);
      ia, ib := pa + [i - 1], pb + [j - 1];
    } else if LcsLength(a, b, i - 1, j) > LcsLength(a, b, i, j - 1) {
      ia, ib := BacktrackSpec(a, b, i - 1, j);
      assert Backtrack(a, b, i, j) == Backtrack(a, b, i - 1, j);
      EmbedsExtend(Backtrack(a, b, i - 1, j), a, i, ia);
    } else {
      ia, ib := BacktrackSpec(a, b, i, j - 1);
      assert Backtrack(a, b, i, j) == Backtrack(a, b, i, j - 1);
      EmbedsExtend(Backtrack(a, b, i, j - 1), b, j, ib);
    }
  }

  /** An embedding into `y[..n - 1]` is one into `y[..n]`. */
  lemma EmbedsExtend<T>(x: seq<T>, y: seq<T>, n: nat, idx: seq<nat>)
    requires 0 < n <= |y| && Embeds(x, y[..n - 1], idx)
    ensures Embeds(x, y[..n], idx)
  {
    assert y[..n][..n - 1] == y[..n - 1];
    EmbedsPrefix(x, y[..n], n - 1, idx);
  }

  /** Matching the last token of `y[..n]` extends an embedding into
      `y[..n - 1]` by one position. */
  lemma EmbedsSnoc<T>(x: seq<T>, y: seq<T>, n: nat, idx: seq<nat>)
    requires 0 < n <= |y| && Embeds(x, y[..n - 1], idx)
    ensures Embeds(x + [y[n - 1]], y[..n], idx + [n - 1])
  {
    EmbedsExtend(x, y, n, idx);
  }

  /** Row `i` of the table, filled left to right from row `i - 1`. */
  method FillRow(dp: array2<nat>, a: seq<string>, b: seq<string>, i: nat)
    requires dp.Length0 == |a| + 1 && dp.Length1 == |b| + 1 && 1 <= i <= |a|
    requires dp[i, 0] == 0
    requires forall x, y | 0 <= x < i && 0 <= y <= |b| :: dp[x, y] == LcsLength(a, b, x, y)
    modifies dp
    ensures forall y | 0 <= y <= |b| :: dp[i, y] == LcsLength(a, b, i, y)
    ensures forall x, y | 0 <= x < dp.Length0 && 0 <= y < dp.Length1 && x != i :: dp[x, y] == old(dp[x, y])
  {
    for j := 1 to |b| + 1
      invariant forall y | 0 <= y < j :: dp[i, y] == LcsLength(a, b, i, y)
      invariant forall x, y | 0 <= x < dp.Length0 && 0 <= y < dp.Length1 && x != i :: dp[x, y] == old(dp[x, y])
    {
      if a[i - 1] == b[j - 1] {
        dp[i, j] := dp[i - 1, j - 1] + 1;
      } else {
        dp[i, j] := Max(dp[i - 1, j], dp[i, j - 1]);
      }
    }
  }

  /** The table `dp`, every entry the recurrence's value. */
  method FillTable(a: seq<string>, b: seq<string>) returns (dp: array2<nat>)
    ensures fresh(dp) && dp.Length0 == |a| + 1 && dp.Length1 == |b| + 1
    ensures forall x, y | 0 <= x <= |a| && 0 <= y <= |b| :: dp[x, y] == LcsLength(a, b, x, y)
  {
    dp := new nat[|a| + 1, |b| + 1]((_, _) => 0);
    for i := 1 to |a| + 1
      invariant forall x, y | 0 <= x < i && 0 <= y <= |b| :: dp[x, y] == LcsLength(a, b, x, y)
      invariant forall x | i <= x <= |a| :: dp[x, 0] == 0
    {
      FillRow(dp, a, b, i);
    }
  }

  lemma BacktrackMatch(a: seq<string>, b: seq<string>, i: nat, j: nat, rest: seq<string>)
    requires 0 < i <= |a| && 0 < j <= |b| && a[i - 1] == b[j - 1]
    ensures Backtrack(a, b, i, j) + rest == Backtrack(a, b, i - 1, j - 1) + ([a[i - 1]] + rest)
  {
  }

  lemma BacktrackSkip(a: seq<string>, b: seq<string>, i: nat, j: nat)
    requires 0 < i <= |a| && 0 < j <= |b| && a[i - 1] != b[j - 1]
    ensures Backtrack(a, b, i, j)
         == if LcsLength(a, b, i - 1, j) > LcsLength(a, b, i, j - 1) then Backtrack(a, b, i - 1, j)
            else Backtrack(a, b, i, j - 1)
  {
  }

  /** The backtracking loop over a filled table: the matched tokens, last
      first. */
  method Walk(a: seq<string>, b: seq<string>, dp: array2<nat>) returns (lcs: seq<string>)
    requires dp.Length0 == |a| + 1 && dp.Length1 == |b| + 1
    requires forall x, y | 0 <= x <= |a| && 0 <= y <= |b| :: dp[x, y] == LcsLength(a, b, x, y)
    ensures Reversed(lcs) == Lcs(a, b)
  {
    lcs := [];
    var i, j := |a|, |b|;
    while i > 0 && j > 0
      invariant 0 <= i <= |a| && 0 <= j <= |b|
      invariant Lcs(a, b) == Backtrack(a, b, i, j) + Reversed(lcs)
      decreases i + j
    {
      if a[i - 1] == b[j - 1] {
        var token := a[i - 1];
        BacktrackMatch(a, b, i, j, Reversed(lcs));
        ReversedSnoc(lcs, token);
        lcs := lcs + [token];
        i, j := i - 1, j - 1;
      } else {
        BacktrackSkip(a, b, i, j);
        if dp[i - 1, j] > dp[i, j - 1] {
          i := i - 1;
        } else {
          j := j - 1;
        }
      }
    }
  }

  /** `_lcs_tokens`: fill the table, then walk back from the corner,
      collecting matched tokens, and reverse them. */
  method LcsTokens(a: seq<string>, b: seq<string>) returns (common: seq<string>)
    ensures common == Lcs(a, b)
  {
    var dp := FillTable(a, b);
    var lcs := Walk(a, b, dp);
    common := Reversed(lcs);
  }

  /** Dropping the last element of an embedding into `y[..n]` leaves one
      into `y[..n - 1]`: the last position is the largest. */
  lemma EmbedsDropLast<T>(x: seq<T>, y: seq<T>, n: nat, idx: seq<nat>)
    requires 0 < n <= |y| && x != [] && Embeds(x, y[..n], idx)
    ensures Embeds(x[..|x| - 1], y[..n - 1], idx[..|idx| - 1])
  {
    var last := |x| - 1;
    forall k | 0 <= k < last ensures idx[k] < n - 1 {
      assert idx[k] < idx[last];
    }
  }

  /** An embedding into `y[..n]` that does not use position `n - 1` is one
      into `y[..n - 1]`. */
  lemma EmbedsBelowLast<T>(x: seq<T>, y: seq<T>, n: nat, idx: seq<nat>)
    requires 0 < n <= |y| && x != [] && Embeds(x, y[..n], idx) && idx[|x| - 1] < n - 1
    ensures Embeds(x, y[..n - 1], idx)
  {
    var last := |x| - 1;
    forall k | 0 <= k < |idx| ensures idx[k] < n - 1 {
      if k < last {
        assert idx[k] < idx[last];
      }
    }
  }

  /** No common subsequence of the prefixes is longer than the table entry. */
  lemma {:induction false} LcsLengthOptimal(a: seq<string>, b: seq<string>, i: nat, j: nat,
                                            x: seq<string>, ia: seq<nat>, ib: seq<nat>)
    requires i <= |a| && j <= |b|
    requires Embeds(x, a[..i], ia) && Embeds(x, b[..j], ib)
    ensures |x| <= LcsLength(a, b, i, j)
    decreases i + j
  {
    if x != [] && i != 0 && j != 0 {
      var last := |x| - 1;
      if a[i - 1] == b[j - 1] {
        EmbedsDropLast(x, a, i, ia);
        EmbedsDropLast(x, b, j, ib);
        LcsLengthOptimal(a, b, i - 1, j - 1, x[..last], ia[..last], ib[..last]);
      } else if ia[last] < i - 1 {
        EmbedsBelowLast(x, a, i, ia);
        LcsLengthOptimal(a, b, i - 1, j, x, ia, ib);
      } else {
        assert ib[last] < j - 1 by {
          assert a[..i][ia[last]] == x[last] == b[..j][ib[last]];
        }
        EmbedsBelowLast(x, b, j, ib);
        LcsLengthOptimal(a, b, i, j - 1, x, ia, ib);
      }
    }
  }

  /** What `_lcs_tokens` promises: a common subsequence of both lists, as
      long as the table's corner entry, and no common subsequence is longer. */
  lemma LcsSpec(a: seq<string>, b: seq<string>)
    ensures IsSubsequence(Lcs(a, b), a) && IsSubsequence(Lcs(a, b), b)
    ensures |Lcs(a, b)| == LcsLength(a, b, |a|, |b|)
    ensures forall x | IsSubsequence(x, a) && IsSubsequence(x, b) :: |x| <= |Lcs(a, b)|
  {
    var ia, ib := BacktrackSpec(a, b, |a|, |b|);
    assert a[..|a|] == a && b[..|b|] == b;
    forall x | IsSubsequence(x, a) && IsSubsequence(x, b) ensures |x| <= |Lcs(a, b)| {
      var xa :| Embeds(x, a, xa);
      var xb :| Embeds(x, b, xb);
      LcsLengthOptimal(a, b, |a|, |b|, x, xa, xb);
    }
  }

  lemma SubsequenceTrans<T>(x: seq<T>, y: seq<T>, z: seq<T>)
    requires IsSubsequence(x, y) && IsSubsequence(y, z)
    ensures IsSubsequence(x, z)
  {
    var i1 :| Embeds(x, y, i1);
    var i2 :| Embeds(y, z, i2);
    var idx := seq(|i1|, k requires 0 <= k < |i1| => i2[i1[k]]);
    assert Embeds(x, z, idx);
  }

  lemma LcsOfEmpty(b: seq<string>)
    ensures Lcs([], b) == []
  {
  }

  // ---------------------------------------------------------------------
  // Common subsequence of many texts

  function TokenizeAll(texts: seq<string>): (ts: seq<seq<string>>)
    ensures |ts| == |texts| && forall i | 0 <= i < |texts| :: ts[i] == Tokenize(texts[i])
  {
    seq(|texts|, i requires 0 <= i < |texts| => Tokenize(texts[i]))
  }

  /** The running common tokens after folding in the first `k` lists. */
  function CommonTokens(tokenized: seq<seq<string>>, k: nat): seq<string>
    requires 1 <= k <= |tokenized|
    decreases k
  {
    if k == 1 then tokenized[0] else Lcs(CommonTokens(tokenized, k - 1), tokenized[k - 1])
  }

  /** Once empty, the running common tokens stay empty. */
  lemma {:induction false} CommonTokensEmpty(tokenized: seq<seq<string>>, k: nat, k': nat)
    requires 1 <= k <= k' <= |tokenized| && CommonTokens(tokenized, k) == []
    ensures CommonTokens(tokenized, k') == []
    decreases k' - k
  {
    if k < k' {
      LcsOfEmpty(tokenized[k]);
      CommonTokensEmpty(tokenized, k + 1, k');
    }
  }

  /** The running common tokens are a subsequence of every list folded in. */
  lemma {:induction false} CommonTokensSpec(tokenized: seq<seq<string>>, k: nat)
    requires 1 <= k <= |tokenized|
    ensures forall i | 0 <= i < k :: IsSubsequence(CommonTokens(tokenized, k), tokenized[i])
    decreases k
  {
    var c := CommonTokens(tokenized, k);
    if k == 1 {
      var idx := seq(|c|, n requires 0 <= n < |c| => n);
      assert Embeds(c, tokenized[0], idx);
    } else {
      var prev := CommonTokens(tokenized, k - 1);
      CommonTokensSpec(tokenized, k - 1);
      LcsSpec(prev, tokenized[k - 1]);
      forall i | 0 <= i < k ensures IsSubsequence(c, tokenized[i]) {
        if i < k - 1 {
          SubsequenceTrans(c, prev, tokenized[i]);
        }
      }
    }
  }

  /** What `find_lcs` returns. */
  function LcsText(texts: seq<string>): string {
    if texts == [] then ""
    else if |texts| == 1 then texts[0]
    else Concat(CommonTokens(TokenizeAll(texts), |texts|))
  }

  /** The loop of `find_lcs`: fold the token lists through `_lcs_tokens`,
      stopping once nothing is left in common. */
  method FoldLcs(tokenized: seq<seq<string>>) returns (common: seq<string>)
    requires tokenized != []
    ensures common == CommonTokens(tokenized, |tokenized|)
  {
    var n := |tokenized|;
    common := tokenized[0];
    var i := 1;
    while i < n
      invariant 1 <= i <= n
      invariant common == CommonTokens(tokenized, i)
    {
      common := LcsTokens(common, tokenized[i]);
      i := i + 1;
      if common == [] {
        break;
      }
    }
    if i < n {
      CommonTokensEmpty(tokenized, i, n);
    }
  }

  /** `find_lcs`. */
  method FindLcs(texts: seq<string>) returns (r: string)
    ensures r == LcsText(texts)
  {
    if texts == [] {
      return "";
    }
    if |texts| == 1 {
      return texts[0];
    }
    var commonTokens := FoldLcs(TokenizeAll(texts));
    r := Concat(commonTokens);
  }

  /** No texts give "", one text gives itself, and otherwise the result is
      made of tokens that occur, in order, in every text. */
  lemma LcsTextSpec(texts: seq<string>)
    ensures texts == [] ==> LcsText(texts) == ""
    ensures |texts| == 1 ==> LcsText(texts) == texts[0]
    ensures |texts| >= 2 ==>
              var common := CommonTokens(TokenizeAll(texts), |texts|);
              LcsText(texts) == Concat(common)
              && forall i | 0 <= i < |texts| :: IsSubsequence(common, Tokenize(texts[i]))
  {
    if |texts| >= 2 {
      CommonTokensSpec(TokenizeAll(texts), |texts|);
    }
  }

  // ---------------------------------------------------------------------
  // Aligning a family of prompts

  datatype Tag = Equal | Replace | Insert | Delete

  /** One `get_opcodes()` entry: `tag, i1, i2, j1, j2`. */
  datatype Opcode = Opcode(tag: Tag, i1: int, i2: int, j1: int, j2: int)

  /** What `SequenceMatcher` guarantees of its opcodes against `other`. */
  predicate ValidOpcode(op: Opcode, other: seq<string>) {
    0 <= op.i1 <= op.i2 && 0 <= op.j1 <= op.j2 <= |other|
  }

  datatype Region = Region(start: nat, end: nat, examples: seq<string>)

  datatype AlignmentResult = AlignmentResult(
    commonStructure: string,
    variableRegions: seq<Region>,
    prompts: seq<string>,
    tokens: seq<seq<string>>)

  /** Position `x` of a reference of `n` tokens lies in the
      `range(i1, min(i2, n))` of a non-equal opcode. */
  predicate Hits(op: Opcode, x: nat, n: nat) {
    op.tag != Equal && op.i1 <= x && x < op.i2 && x < n
  }

  /** What one opcode adds to `variable_examples[x]`. */
  function OpExamples(op: Opcode, other: seq<string>, x: nat, n: nat): seq<string>
    requires ValidOpcode(op, other)
  {
    if Hits(op, x, n) && op.j1 < op.j2 then [Concat(other[op.j1..op.j2])] else []
  }

  /** Some opcode in `ops` hits position `x`. */
  predicate Covered(ops: seq<Opcode>, x: nat, n: nat)
    decreases |ops|
  {
    ops != [] && (Covered(ops[..|ops| - 1], x, n) || Hits(ops[|ops| - 1], x, n))
  }

  function ExamplesOps(ops: seq<Opcode>, other: seq<string>, x: nat, n: nat): seq<string>
    requires forall k | 0 <= k < |ops| :: ValidOpcode(ops[k], other)
    decreases |ops|
  {
    if ops == [] then []
    else ExamplesOps(ops[..|ops| - 1], other, x, n) + OpExamples(ops[|ops| - 1], other, x, n)
  }

  /** The opcodes for each other prompt are valid against it. */
  predicate ValidOpcodes(others: seq<seq<string>>, opcodes: seq<seq<Opcode>>) {
    |opcodes| == |others|
    && forall p, k | 0 <= p < |others| && 0 <= k < |opcodes[p]| :: ValidOpcode(opcodes[p][k], others[p])
  }

  /** `common_mask[x]` after comparing with the first `p` other prompts. */
  predicate Common(opcodes: seq<seq<Opcode>>, p: nat, x: nat, n: nat)
    requires p <= |opcodes|
    decreases p
  {
    p == 0 || (Common(opcodes, p - 1, x, n) && !Covered(opcodes[p - 1], x, n))
  }

  /** `variable_examples[x]` after comparing with the first `p` other prompts. */
  function Examples(others: seq<seq<string>>, opcodes: seq<seq<Opcode>>, p: nat, x: nat, n: nat): seq<string>
    requires ValidOpcodes(others, opcodes) && p <= |opcodes|
    decreases p
  {
    if p == 0 then []
    else Examples(others, opcodes, p - 1, x, n) + ExamplesOps(opcodes[p - 1], others[p - 1], x, n)
  }

  /** The inner loop for one opcode. */
  method MarkOp(mask: array<bool>, variableExamples: array<seq<string>>, op: Opcode, other: seq<string>)
    requires mask.Length == variableExamples.Length && ValidOpcode(op, other)
    modifies mask, variableExamples
    ensures forall x | 0 <= x < mask.Length :: mask[x] == (old(mask[x]) && !Hits(op, x, mask.Length))
    ensures forall x | 0 <= x < mask.Length ::
              variableExamples[x] == old(variableExamples[x]) + OpExamples(op, other, x, mask.Length)
  {
    if op.tag == Equal {
      return;
    }
    var n := mask.Length;
    var stop := if op.i2 < n then op.i2 else n;
    var i := op.i1;
    while i < stop
      invariant op.i1 <= i && (op.i1 <= stop ==> i <= stop)
      invariant forall x | 0 <= x < n :: mask[x] == (old(mask[x]) && !(op.i1 <= x < i))
      invariant forall x | 0 <= x < n ::
                  variableExamples[x] == old(variableExamples[x])
                                         + (if op.i1 <= x < i && op.j1 < op.j2 then [Concat(other[op.j1..op.j2])] else [])
    {
      mask[i] := false;
      if op.j1 < op.j2 {
        variableExamples[i] := variableExamples[i] + [Concat(other[op.j1..op.j2])];
      }
      i := i + 1;
    }
  }

  /** The loop over one other prompt's opcodes. */
  method MarkOther(mask: array<bool>, variableExamples: array<seq<string>>, ops: seq<Opcode>, other: seq<string>)
    requires mask.Length == variableExamples.Length
    requires forall k | 0 <= k < |ops| :: ValidOpcode(ops[k], other)
    modifies mask, variableExamples
    ensures forall x | 0 <= x < mask.Length :: mask[x] == (old(mask[x]) && !Covered(ops, x, mask.Length))
    ensures forall x | 0 <= x < mask.Length ::
              variableExamples[x] == old(variableExamples[x]) + ExamplesOps(ops, other, x, mask.Length)
  {
    var n := mask.Length;
    for q := 0 to |ops|
      invariant forall x | 0 <= x < n :: mask[x] == (old(mask[x]) && !Covered(ops[..q], x, n))
      invariant forall x | 0 <= x < n ::
                  variableExamples[x] == old(variableExamples[x]) + ExamplesOps(ops[..q], other, x, n)
    {
      assert ops[..q + 1][..q] == ops[..q];
      MarkOp(mask, variableExamples, ops[q], other);
    }
    assert ops[..|ops|] == ops;
  }

  /** The loop over all other prompts. */
  method MarkAll(mask: array<bool>, variableExamples: array<seq<string>>, others: seq<seq<string>>, opcodes: seq<seq<Opcode>>)
    requires mask.Length == variableExamples.Length && ValidOpcodes(others, opcodes)
    requires forall x | 0 <= x < mask.Length :: mask[x] && variableExamples[x] == []
    modifies mask, variableExamples
    ensures forall x | 0 <= x < mask.Length :: mask[x] == Common(opcodes, |opcodes|, x, mask.Length)
    ensures forall x | 0 <= x < mask.Length :: variableExamples[x] == Examples(others, opcodes, |opcodes|, x, mask.Length)
  {
    var n := mask.Length;
    for p := 0 to |others|
      invariant forall x | 0 <= x < n :: mask[x] == Common(opcodes, p, x, n)
      invariant forall x | 0 <= x < n :: variableExamples[x] == Examples(others, opcodes, p, x, n)
    {
      MarkOther(mask, variableExamples, opcodes[p], others[p]);
    }
  }

  /** The end of the run of non-common positions from `i`. */
  function RunStop(mask: seq<bool>, i: nat): (e: nat)
    requires i <= |mask|
    ensures i <= e <= |mask|
    ensures forall x | i <= x < e :: !mask[x]
    ensures e < |mask| ==> mask[e]
    decreases |mask| - i
  {
    if i == |mask| || mask[i] then i else RunStop(mask, i + 1)
  }

  function Flatten(xss: seq<seq<string>>): seq<string>
    decreases |xss|
  {
    if xss == [] then [] else Flatten(xss[..|xss| - 1]) + xss[|xss| - 1]
  }

  /** `list(examples)` for a region: its first reference token and then what
      the other prompts had there, each once. */
  function RegionExamples(reference: seq<string>, variableExamples: seq<seq<string>>, start: nat, end: nat): seq<string>
    requires start < end <= |reference| == |variableExamples|
  {
    Dedupe([reference[start]] + Flatten(variableExamples[start..end]))
  }

  /** `slot_k`. */
  function SlotName(k: nat): string {
    "slot_" + NatToString(k)
  }

  /** The common structure as pieces, and the variable regions, from position
      `i` on when `k` regions have been seen. */
  function Build(reference: seq<string>, mask: seq<bool>, variableExamples: seq<seq<string>>, i: nat, k: nat)
    : (seq<Piece>, seq<Region>)
    requires |mask| == |reference| == |variableExamples| && i <= |reference|
    decreases |reference| - i
  {
    if i == |reference| then ([], [])
    else if mask[i] then
      var rest := Build(reference, mask, variableExamples, i + 1, k);
      ([Lit(reference[i])] + rest.0, rest.1)
    else
      var e := RunStop(mask, i + 1);
      var rest := Build(reference, mask, variableExamples, e, k + 1);
      ([Hole(SlotName(k))] + rest.0, [Region(i, e, RegionExamples(reference, variableExamples, i, e))] + rest.1)
  }

  function Renders(ps: seq<Piece>): (parts: seq<string>)
    ensures |parts| == |ps| && forall i | 0 <= i < |ps| :: parts[i] == Render(ps[i])
  {
    seq(|ps|, i requires 0 <= i < |ps| => Render(ps[i]))
  }

  lemma {:induction false} ConcatRenders(ps: seq<Piece>)
    ensures Concat(Renders(ps)) == Text(ps)
    decreases |ps|
  {
    if ps != [] {
      ConcatRenders(ps[1..]);
      assert Renders(ps)[1..] == Renders(ps[1..]);
    }
  }

  lemma DedupeSnoc(xs: seq<string>, x: string)
    ensures Dedupe(xs + [x]) == if x in Dedupe(xs) then Dedupe(xs) else Dedupe(xs) + [x]
  {
    assert (xs + [x])[..|xs|] == xs;
  }

  /** One more element of `extra`, added to the deduplicated list. */
  lemma DedupeExtend(base: seq<string>, extra: seq<string>, t: nat)
    requires t < |extra|
    ensures var d := Dedupe(base + extra[..t]);
            Dedupe(base + extra[..t + 1]) == if extra[t] in d then d else d + [extra[t]]
  {
    DedupeSnoc(base + extra[..t], extra[t]);
    assert base + extra[..t + 1] == (base + extra[..t]) + [extra[t]];
  }

  lemma FlattenStep(xss: seq<seq<string>>, start: nat, i: nat)
    requires start <= i < |xss|
    ensures Flatten(xss[start..i + 1]) == Flatten(xss[start..i]) + xss[i]
  {
    assert xss[start..i + 1][..i - start] == xss[start..i];
  }

  /** `for ex in variable_examples[i]: examples.add(ex)`, on the list of
      examples in insertion order. */
  method AddExamples(examples: seq<string>, extra: seq<string>, ghost base: seq<string>) returns (r: seq<string>)
    requires examples == Dedupe(base)
    ensures r == Dedupe(base + extra)
  {
    r := examples;
    assert base + extra[..0] == base;
    for t := 0 to |extra|
      invariant r == Dedupe(base + extra[..t])
    {
      var ex := extra[t];
      DedupeExtend(base, extra, t);
      if ex !in r {
        r := r + [ex];
      }
    }
    assert extra[..|extra|] == extra;
  }

  /** The inner `while` loop: from the start of a variable region to its end,
      collecting the region's examples. */
  method CollectRegion(reference: seq<string>, mask: array<bool>, variableExamples: array<seq<string>>, start: nat)
    returns (end: nat, examples: seq<string>)
    requires mask.Length == |reference| == variableExamples.Length && start < |reference| && !mask[start]
    ensures end == RunStop(mask[..], start + 1)
    ensures start < end && examples == RegionExamples(reference, variableExamples[..], start, end)
  {
    var n := |reference|;
    ghost var exs := variableExamples[..];
    examples := [reference[start]];
    assert exs[start..start] == [];
    assert Dedupe([reference[start]]) == [reference[start]] by {
      DedupeSnoc([], reference[start]);
    }
    var i := start;
    while i < n && !mask[i]
      invariant start <= i <= n
      invariant forall x | start <= x < i :: !mask[x]
      invariant examples == Dedupe([reference[start]] + Flatten(exs[start..i]))
    {
      ghost var base := [reference[start]] + Flatten(exs[start..i]);
      examples := AddExamples(examples, variableExamples[i], base);
      FlattenStep(exs, start, i);
      assert base + exs[i] == [reference[start]] + Flatten(exs[start..i + 1]);
      i := i + 1;
    }
    end := i;
    assert mask[start] == mask[..][start];
  }

  lemma RendersSnoc(ps: seq<Piece>, p: Piece)
    ensures Renders(ps + [p]) == Renders(ps) + [Render(p)]
  {
  }

  /** A common token moves one literal from the rest of the structure to
      the pieces already built. */
  lemma BuildLitStep(reference: seq<string>, mask: seq<bool>, exs: seq<seq<string>>, i: nat, k: nat, pieces: seq<Piece>)
    requires |mask| == |reference| == |exs| && i < |reference| && mask[i]
    ensures pieces + Build(reference, mask, exs, i, k).0 == (pieces + [Lit(reference[i])]) + Build(reference, mask, exs, i + 1, k).0
    ensures Build(reference, mask, exs, i, k).1 == Build(reference, mask, exs, i + 1, k).1
  {
    var rest := Build(reference, mask, exs, i + 1, k).0;
    assert pieces + ([Lit(reference[i])] + rest) == (pieces + [Lit(reference[i])]) + rest;
  }

  /** A variable run moves one hole and one region from the rest of the
      structure to those already built. */
  lemma BuildHoleStep(reference: seq<string>, mask: seq<bool>, exs: seq<seq<string>>, i: nat, k: nat,
                      pieces: seq<Piece>, regions: seq<Region>)
    requires |mask| == |reference| == |exs| && i < |reference| && !mask[i]
    ensures var e := RunStop(mask, i + 1);
            var rest := Build(reference, mask, exs, e, k + 1);
            && pieces + Build(reference, mask, exs, i, k).0 == (pieces + [Hole(SlotName(k))]) + rest.0
            && regions + Build(reference, mask, exs, i, k).1
               == (regions + [Region(i, e, RegionExamples(reference, exs, i, e))]) + rest.1
  {
    var e := RunStop(mask, i + 1);
    var rest := Build(reference, mask, exs, e, k + 1);
    var reg := Region(i, e, RegionExamples(reference, exs, i, e));
    assert pieces + ([Hole(SlotName(k))] + rest.0) == (pieces + [Hole(SlotName(k))]) + rest.0;
    assert regions + ([reg] + rest.1) == (regions + [reg]) + rest.1;
  }

  /** The outer `while` loop: the common parts (tokens and placeholders) and
      the variable regions. */
  method BuildStructure(reference: seq<string>, mask: array<bool>, variableExamples: array<seq<string>>)
    returns (parts: seq<string>, regions: seq<Region>)
    requires mask.Length == |reference| == variableExamples.Length
    ensures var b := Build(reference, mask[..], variableExamples[..], 0, 0);
            parts == Renders(b.0) && regions == b.1
  {
    ghost var m, exs := mask[..], variableExamples[..];
    ghost var whole := Build(reference, m, exs, 0, 0);
    ghost var pieces: seq<Piece> := [];
    parts, regions := [], [];
    var i := 0;
    while i < |reference|
      invariant 0 <= i <= |reference|
      invariant whole.0 == pieces + Build(reference, m, exs, i, |regions|).0
      invariant whole.1 == regions + Build(reference, m, exs, i, |regions|).1
      invariant parts == Renders(pieces)
    {
      if mask[i] {
        BuildLitStep(reference, m, exs, i, |regions|, pieces);
        RendersSnoc(pieces, Lit(reference[i]));
        parts := parts + [reference[i]];
        pieces := pieces + [Lit(reference[i])];
        i := i + 1;
      } else {
        var start := i;
        var examples;
        i, examples := CollectRegion(reference, mask, variableExamples, start);
        BuildHoleStep(reference, m, exs, start, |regions|, pieces, regions);
        RendersSnoc(pieces, Hole(SlotName(|regions|)));
        var placeholder := Placeholder(SlotName(|regions|));
        parts := parts + [placeholder];
        pieces := pieces + [Hole(SlotName(|regions|))];
        regions := regions + [Region(start, i, examples)];
      }
    }
  }

  /** `common_mask` once every other prompt has been compared. */
  function Mask(opcodes: seq<seq<Opcode>>, n: nat): (mask: seq<bool>)
    ensures |mask| == n && forall x | 0 <= x < n :: mask[x] == Common(opcodes, |opcodes|, x, n)
  {
    seq(n, x requires 0 <= x < n => Common(opcodes, |opcodes|, x, n))
  }

  /** What `align_prompts` returns, given the opcodes of the reference
      prompt against each other prompt. */
  function Aligned(prompts: seq<string>, opcodes: seq<seq<Opcode>>): AlignmentResult
    requires |prompts| >= 2 ==> ValidOpcodes(TokenizeAll(prompts)[1..], opcodes)
  {
    if prompts == [] then AlignmentResult("", [], [], [])
    else if |prompts| == 1 then AlignmentResult(prompts[0], [], prompts, [Tokenize(prompts[0])])
    else
      var allTokens := TokenizeAll(prompts);
      var reference := allTokens[0];
      var n := |reference|;
      var exs := seq(n, x requires 0 <= x < n => Examples(allTokens[1..], opcodes, |opcodes|, x, n));
      var b := Build(reference, Mask(opcodes, n), exs, 0, 0);
      AlignmentResult(Text(b.0), b.1, prompts, allTokens)
  }

  /** `align_prompts`. */
  method AlignPrompts(prompts: seq<string>, opcodes: seq<seq<Opcode>>) returns (r: AlignmentResult)
    requires |prompts| >= 2 ==> ValidOpcodes(TokenizeAll(prompts)[1..], opcodes)
    ensures r == Aligned(prompts, opcodes)
  {
    if prompts == [] {
      return AlignmentResult("", [], [], []);
    }
    if |prompts| == 1 {
      return AlignmentResult(prompts[0], [], prompts, [Tokenize(prompts[0])]);
    }
    var allTokens := TokenizeAll(prompts);
    var reference := allTokens[0];
    var n := |reference|;
    var commonMask := new bool[n](_ => true);
    var variableExamples := new seq<string>[n](_ => []);
    MarkAll(commonMask, variableExamples, allTokens[1..], opcodes);
    assert commonMask[..] == Mask(opcodes, n);
    assert variableExamples[..] == seq(n, x requires 0 <= x < n => Examples(allTokens[1..], opcodes, |opcodes|, x, n));
    var commonParts, variableRegions := BuildStructure(reference, commonMask, variableExamples);
    ConcatRenders(Build(reference, commonMask[..], variableExamples[..], 0, 0).0);
    r := AlignmentResult(Concat(commonParts), variableRegions, prompts, allTokens);
  }

  /** A position is common exactly when no non-equal opcode against any of
      the compared prompts hits it. */
  lemma {:induction false} CoveredSpec(ops: seq<Opcode>, x: nat, n: nat)
    ensures Covered(ops, x, n) <==> exists k | 0 <= k < |ops| :: Hits(ops[k], x, n)
    decreases |ops|
  {
    if ops != [] {
      var p := ops[..|ops| - 1];
      CoveredSpec(p, x, n);
      if Covered(p, x, n) {
        var k :| 0 <= k < |p| && Hits(p[k], x, n);
        assert ops[k] == p[k];
      }
      if exists k | 0 <= k < |ops| :: Hits(ops[k], x, n) {
        var k :| 0 <= k < |ops| && Hits(ops[k], x, n);
        if k < |p| { assert p[k] == ops[k]; }
      }
    }
  }

  lemma {:induction false} CommonSpec(opcodes: seq<seq<Opcode>>, p: nat, x: nat, n: nat)
    requires p <= |opcodes|
    ensures Common(opcodes, p, x, n) <==>
              forall q, k | 0 <= q < p && 0 <= k < |opcodes[q]| :: !Hits(opcodes[q][k], x, n)
    decreases p
  {
    if p > 0 {
      CommonSpec(opcodes, p - 1, x, n);
      CoveredSpec(opcodes[p - 1], x, n);
    }
  }

  /** The literal texts among the pieces. */
  function Lits(ps: seq<Piece>): seq<string>
    decreases |ps|
  {
    if ps == [] then []
    else if ps[0].Lit? then [ps[0].text] + Lits(ps[1..])
    else Lits(ps[1..])
  }

  /** The common reference tokens from position `i` on. */
  function Kept(reference: seq<string>, mask: seq<bool>, i: nat): seq<string>
    requires |mask| == |reference| && i <= |reference|
    decreases |reference| - i
  {
    if i == |reference| then []
    else (if mask[i] then [reference[i]] else []) + Kept(reference, mask, i + 1)
  }

  lemma {:induction false} KeptSkip(reference: seq<string>, mask: seq<bool>, i: nat, e: nat)
    requires |mask| == |reference| && i <= e <= |reference|
    requires forall x | i <= x < e :: !mask[x]
    ensures Kept(reference, mask, i) == Kept(reference, mask, e)
    decreases e - i
  {
    if i < e {
      assert !mask[i];
      var rest := Kept(reference, mask, i + 1);
      assert Kept(reference, mask, i) == [] + rest;
      assert [] + rest == rest;
      KeptSkip(reference, mask, i + 1, e);
    }
  }

  /** The slot names from `slot_k` on, one per region. */
  function SlotNames(k: nat, count: nat): (r: seq<string>)
    ensures |r| == count && forall j | 0 <= j < count :: r[j] == SlotName(k + j)
  {
    seq(count, j requires 0 <= j < count => SlotName(k + j))
  }

  /** A region is a maximal run of non-common positions, and its examples
      start with the reference token and hold no repeats. */
  ghost predicate RegionOf(reference: seq<string>, mask: seq<bool>, r: Region)
    requires |mask| == |reference|
  {
    && r.start < r.end <= |reference|
    && (forall x | r.start <= x < r.end :: !mask[x])
    && (r.end < |reference| ==> mask[r.end])
    && r.examples != [] && r.examples[0] == reference[r.start]
    && NoDuplicates(r.examples)
  }

  /** One step of `Build`, spelled out. */
  lemma BuildStep(reference: seq<string>, mask: seq<bool>, variableExamples: seq<seq<string>>, i: nat, k: nat)
    requires |mask| == |reference| == |variableExamples| && i < |reference|
    ensures mask[i] ==>
              Build(reference, mask, variableExamples, i, k).1 == Build(reference, mask, variableExamples, i + 1, k).1
    ensures !mask[i] ==>
              var e := RunStop(mask, i + 1);
              Build(reference, mask, variableExamples, i, k).1
              == [Region(i, e, RegionExamples(reference, variableExamples, i, e))] + Build(reference, mask, variableExamples, e, k + 1).1
  {
  }

  lemma {:induction false} BuildLits(reference: seq<string>, mask: seq<bool>, variableExamples: seq<seq<string>>, i: nat, k: nat)
    requires |mask| == |reference| == |variableExamples| && i <= |reference|
    ensures Lits(Build(reference, mask, variableExamples, i, k).0) == Kept(reference, mask, i)
    decreases |reference| - i
  {
    if i < |reference| {
      if mask[i] {
        BuildLits(reference, mask, variableExamples, i + 1, k);
      } else {
        var e := RunStop(mask, i + 1);
        BuildLits(reference, mask, variableExamples, e, k + 1);
        KeptSkip(reference, mask, i, e);
      }
    }
  }

  lemma HolesConsHole(name: string, ps: seq<Piece>)
    ensures Holes([Hole(name)] + ps) == [name] + Holes(ps)
  {
    assert ([Hole(name)] + ps)[1..] == ps;
  }

  lemma SlotNamesCons(k: nat, count: nat)
    ensures [SlotName(k)] + SlotNames(k + 1, count) == SlotNames(k, count + 1)
  {
  }

  lemma {:induction false} BuildHoles(reference: seq<string>, mask: seq<bool>, variableExamples: seq<seq<string>>, i: nat, k: nat)
    requires |mask| == |reference| == |variableExamples| && i <= |reference|
    ensures var b := Build(reference, mask, variableExamples, i, k);
            Holes(b.0) == SlotNames(k, |b.1|)
    decreases |reference| - i
  {
    if i < |reference| {
      if mask[i] {
        BuildHoles(reference, mask, variableExamples, i + 1, k);
      } else {
        var e := RunStop(mask, i + 1);
        var rest := Build(reference, mask, variableExamples, e, k + 1);
        BuildStep(reference, mask, variableExamples, i, k);
        BuildHoles(reference, mask, variableExamples, e, k + 1);
        HolesConsHole(SlotName(k), rest.0);
        SlotNamesCons(k, |rest.1|);
      }
    }
  }

  lemma {:induction false} BuildRegions(reference: seq<string>, mask: seq<bool>, variableExamples: seq<seq<string>>, i: nat, k: nat)
    requires |mask| == |reference| == |variableExamples| && i <= |reference|
    ensures var rs := Build(reference, mask, variableExamples, i, k).1;
            forall j | 0 <= j < |rs| :: i <= rs[j].start && RegionOf(reference, mask, rs[j])
    decreases |reference| - i
  {
    if i < |reference| {
      BuildStep(reference, mask, variableExamples, i, k);
      if mask[i] {
        BuildRegions(reference, mask, variableExamples, i + 1, k);
      } else {
        var e := RunStop(mask, i + 1);
        BuildRegions(reference, mask, variableExamples, e, k + 1);
        DedupeSpec([reference[i]] + Flatten(variableExamples[i..e]));
        var r := Region(i, e, RegionExamples(reference, variableExamples, i, e));
        assert RegionOf(reference, mask, r);
      }
    }
  }

  lemma {:induction false} BuildOrdered(reference: seq<string>, mask: seq<bool>, variableExamples: seq<seq<string>>, i: nat, k: nat)
    requires |mask| == |reference| == |variableExamples| && i <= |reference|
    ensures var rs := Build(reference, mask, variableExamples, i, k).1;
            forall j | 0 <= j < |rs| - 1 :: rs[j].end < rs[j + 1].start
    decreases |reference| - i
  {
    if i < |reference| {
      BuildStep(reference, mask, variableExamples, i, k);
      if mask[i] {
        BuildOrdered(reference, mask, variableExamples, i + 1, k);
      } else {
        var e := RunStop(mask, i + 1);
        var rs := Build(reference, mask, variableExamples, i, k).1;
        var rest := Build(reference, mask, variableExamples, e, k + 1).1;
        BuildOrdered(reference, mask, variableExamples, e, k + 1);
        if rest != [] {
          BuildRegions(reference, mask, variableExamples, e, k + 1);
          assert RegionOf(reference, mask, rest[0]);
          assert !mask[rest[0].start];
          assert rs[0].end == e <= rest[0].start;
        }
        assert forall j | 1 <= j < |rs| :: rs[j] == rest[j - 1];
      }
    }
  }

  lemma {:induction false} BuildCovers(reference: seq<string>, mask: seq<bool>, variableExamples: seq<seq<string>>, i: nat, k: nat)
    requires |mask| == |reference| == |variableExamples| && i <= |reference|
    ensures var rs := Build(reference, mask, variableExamples, i, k).1;
            forall x | i <= x < |reference| && !mask[x] :: exists j | 0 <= j < |rs| :: rs[j].start <= x < rs[j].end
    decreases |reference| - i
  {
    if i < |reference| {
      var rs := Build(reference, mask, variableExamples, i, k).1;
      BuildStep(reference, mask, variableExamples, i, k);
      if mask[i] {
        BuildCovers(reference, mask, variableExamples, i + 1, k);
      } else {
        var e := RunStop(mask, i + 1);
        var rest := Build(reference, mask, variableExamples, e, k + 1).1;
        BuildCovers(reference, mask, variableExamples, e, k + 1);
        forall x | i <= x < |reference| && !mask[x]
          ensures exists j | 0 <= j < |rs| :: rs[j].start <= x < rs[j].end
        {
          if x < e {
            assert rs[0].start <= x < rs[0].end;
          } else {
            var j :| 0 <= j < |rest| && rest[j].start <= x < rest[j].end;
            assert rs[j + 1] == rest[j];
          }
        }
      }
    }
  }

  /** The common reference tokens at positions `i` up to `e` (excluded). */
  function KeptBelow(reference: seq<string>, mask: seq<bool>, i: nat, e: nat): seq<string>
    requires |mask| == |reference|
    decreases |reference| - i
  {
    if i >= e || i >= |reference| then []
    else (if mask[i] then [reference[i]] else []) + KeptBelow(reference, mask, i + 1, e)
  }

  lemma {:induction false} KeptBelowSkip(reference: seq<string>, mask: seq<bool>, i: nat, e: nat, s: nat)
    requires |mask| == |reference| && i <= e <= s && e <= |reference|
    requires forall x | i <= x < e :: !mask[x]
    ensures KeptBelow(reference, mask, i, s) == KeptBelow(reference, mask, e, s)
    decreases e - i
  {
    if i < e {
      assert !mask[i];
      var rest := KeptBelow(reference, mask, i + 1, s);
      assert KeptBelow(reference, mask, i, s) == [] + rest;
      assert [] + rest == rest;
      KeptBelowSkip(reference, mask, i + 1, e, s);
    }
  }

  /** Placeholder number `j` (named `slot_{k+j}`) sits at position `pos`,
      after exactly the placeholders before it and the literals `before`. */
  ghost predicate PlacedAt(ps: seq<Piece>, pos: nat, k: nat, j: nat, before: seq<string>)
    requires pos < |ps|
  {
    && ps[pos] == Hole(SlotName(k + j))
    && Holes(ps[..pos]) == SlotNames(k, j)
    && Lits(ps[..pos]) == before
  }

  /** Prefixing one piece shifts every placement by one position. */
  lemma PlacedCons(x: Piece, ps: seq<Piece>, pos: nat, k: nat, j: nat, before: seq<string>)
    requires pos < |ps| && PlacedAt(ps, pos, k, j, before)
    ensures x.Lit? ==> PlacedAt([x] + ps, pos + 1, k, j, [x.text] + before)
    ensures k >= 1 && x.Hole? && x.name == SlotName(k - 1) ==> PlacedAt([x] + ps, pos + 1, k - 1, j + 1, before)
  {
    var qs := [x] + ps;
    assert qs[..pos + 1] == [x] + ps[..pos];
    assert qs[..pos + 1][1..] == ps[..pos];
    if k >= 1 && x.Hole? && x.name == SlotName(k - 1) {
      assert SlotNames(k - 1, j + 1) == [SlotName(k - 1)] + SlotNames(k, j);
    }
  }

  /** Every region `j` of `rs` has its placeholder in `ps` right after the
      `j` placeholders in front of it and the common tokens from `i` up to
      the region's start. */
  ghost predicate PlacesRegions(reference: seq<string>, mask: seq<bool>, i: nat, ps: seq<Piece>, rs: seq<Region>, k: nat)
    requires |mask| == |reference|
  {
    forall j | 0 <= j < |rs| ::
      var before := KeptBelow(reference, mask, i, rs[j].start);
      j + |before| < |ps| && PlacedAt(ps, j + |before|, k, j, before)
  }

  /** A common token in front shifts every placeholder by one literal. */
  lemma PlacesLit(reference: seq<string>, mask: seq<bool>, i: nat, ps: seq<Piece>, rs: seq<Region>, k: nat)
    requires |mask| == |reference| && i < |reference| && mask[i]
    requires forall j | 0 <= j < |rs| :: i + 1 <= rs[j].start
    requires PlacesRegions(reference, mask, i + 1, ps, rs, k)
    ensures PlacesRegions(reference, mask, i, [Lit(reference[i])] + ps, rs, k)
  {
    forall j | 0 <= j < |rs|
      ensures var before := KeptBelow(reference, mask, i, rs[j].start);
              j + |before| < |[Lit(reference[i])] + ps| && PlacedAt([Lit(reference[i])] + ps, j + |before|, k, j, before)
    {
      var restBefore := KeptBelow(reference, mask, i + 1, rs[j].start);
      assert KeptBelow(reference, mask, i, rs[j].start) == [reference[i]] + restBefore;
      PlacedCons(Lit(reference[i]), ps, j + |restBefore|, k, j, restBefore);
    }
  }

  /** A region over `i` up to `e` in front becomes placeholder 0, with no
      literal before it, and shifts every later placeholder by one. */
  lemma PlacesHole(reference: seq<string>, mask: seq<bool>, i: nat, e: nat, ps: seq<Piece>, r: Region, rs: seq<Region>, k: nat)
    requires |mask| == |reference| && i < e <= |reference| && r.start == i
    requires forall x | i <= x < e :: !mask[x]
    requires forall j | 0 <= j < |rs| :: e <= rs[j].start
    requires PlacesRegions(reference, mask, e, ps, rs, k + 1)
    ensures PlacesRegions(reference, mask, i, [Hole(SlotName(k))] + ps, [r] + rs, k)
  {
    var qs, regions := [Hole(SlotName(k))] + ps, [r] + rs;
    forall j | 0 <= j < |regions|
      ensures var before := KeptBelow(reference, mask, i, regions[j].start);
              j + |before| < |qs| && PlacedAt(qs, j + |before|, k, j, before)
    {
      if j == 0 {
        assert qs[..0] == [];
        assert KeptBelow(reference, mask, i, i) == [];
      } else {
        var start := rs[j - 1].start;
        var restBefore := KeptBelow(reference, mask, e, start);
        KeptBelowSkip(reference, mask, i, e, start);
        PlacedCons(Hole(SlotName(k)), ps, (j - 1) + |restBefore|, k + 1, j - 1, restBefore);
      }
    }
  }

  /** Where each placeholder of the structure built from position `i` goes:
      placeholder `j` comes after the `j` placeholders of the earlier regions
      and after exactly the common tokens in front of region `j`. */
  lemma {:induction false} BuildPlaces(reference: seq<string>, mask: seq<bool>, variableExamples: seq<seq<string>>, i: nat, k: nat)
    requires |mask| == |reference| == |variableExamples| && i <= |reference|
    ensures var b := Build(reference, mask, variableExamples, i, k);
            PlacesRegions(reference, mask, i, b.0, b.1, k)
    decreases |reference| - i
  {
    if i < |reference| {
      if mask[i] {
        var rest := Build(reference, mask, variableExamples, i + 1, k);
        BuildPlaces(reference, mask, variableExamples, i + 1, k);
        BuildRegions(reference, mask, variableExamples, i + 1, k);
        PlacesLit(reference, mask, i, rest.0, rest.1, k);
      } else {
        var e := RunStop(mask, i + 1);
        var rest := Build(reference, mask, variableExamples, e, k + 1);
        BuildPlaces(reference, mask, variableExamples, e, k + 1);
        BuildRegions(reference, mask, variableExamples, e, k + 1);
        var r := Region(i, e, RegionExamples(reference, variableExamples, i, e));
        PlacesHole(reference, mask, i, e, rest.0, r, rest.1, k);
      }
    }
  }

  /** What the structure built from position `i` is: the literals are the
      common tokens in order, the placeholders are `slot_k`, `slot_k+1`, ...
      one per region, the regions are maximal runs of non-common positions in
      increasing order separated by common ones, and every non-common position
      lies in one of them; the placeholder of each region comes right after
      the common tokens in front of that region. */
  lemma BuildSpec(reference: seq<string>, mask: seq<bool>, variableExamples: seq<seq<string>>, i: nat, k: nat)
    requires |mask| == |reference| == |variableExamples| && i <= |reference|
    ensures var b := Build(reference, mask, variableExamples, i, k);
            && Lits(b.0) == Kept(reference, mask, i)
            && Holes(b.0) == SlotNames(k, |b.1|)
            && (forall j | 0 <= j < |b.1| :: i <= b.1[j].start && RegionOf(reference, mask, b.1[j]))
            && (forall j | 0 <= j < |b.1| - 1 :: b.1[j].end < b.1[j + 1].start)
            && (forall x | i <= x < |reference| && !mask[x] :: exists j | 0 <= j < |b.1| :: b.1[j].start <= x < b.1[j].end)
            && PlacesRegions(reference, mask, i, b.0, b.1, k)
  {
    BuildLits(reference, mask, variableExamples, i, k);
    BuildHoles(reference, mask, variableExamples, i, k);
    BuildRegions(reference, mask, variableExamples, i, k);
    BuildOrdered(reference, mask, variableExamples, i, k);
    BuildCovers(reference, mask, variableExamples, i, k);
    BuildPlaces(reference, mask, variableExamples, i, k);
  }

  lemma {:induction false} FlattenIn(xss: seq<seq<string>>, s: string)
    ensures s in Flatten(xss) <==> exists x | 0 <= x < |xss| :: s in xss[x]
    decreases |xss|
  {
    if xss != [] {
      var p := xss[..|xss| - 1];
      FlattenIn(p, s);
      if s in Flatten(p) {
        var x :| 0 <= x < |p| && s in p[x];
        assert xss[x] == p[x];
      }
      if exists x | 0 <= x < |xss| :: s in xss[x] {
        var x :| 0 <= x < |xss| && s in xss[x];
        if x < |p| { assert p[x] == xss[x]; }
      }
    }
  }

  /** A region's examples are the reference token and every text another
      prompt had in its place. */
  lemma RegionExamplesSpec(reference: seq<string>, variableExamples: seq<seq<string>>, start: nat, end: nat, s: string)
    requires start < end <= |reference| == |variableExamples|
    ensures s in RegionExamples(reference, variableExamples, start, end) <==>
              s == reference[start] || exists x | start <= x < end :: s in variableExamples[x]
  {
    var xs := [reference[start]] + Flatten(variableExamples[start..end]);
    DedupeSpec(xs);
    FlattenIn(variableExamples[start..end], s);
    if exists x | 0 <= x < end - start :: s in variableExamples[start..end][x] {
      var x :| 0 <= x < end - start && s in variableExamples[start..end][x];
      assert variableExamples[start + x] == variableExamples[start..end][x];
    }
    if exists x | start <= x < end :: s in variableExamples[x] {
      var x :| start <= x < end && s in variableExamples[x];
      assert variableExamples[start..end][x - start] == variableExamples[x];
    }
  }

  /** `align_prompts`: no prompts give an empty result, one prompt is its own
      structure, and for a family the regions are the maximal runs of
      positions of the reference some opcode hits, in order, and the common
      structure is the text of pieces whose literals are the common reference
      tokens and whose placeholders are `slot_0`, `slot_1`, ... one per
      region, each one right after the common tokens in front of its region. */
  lemma AlignedSpec(prompts: seq<string>, opcodes: seq<seq<Opcode>>)
    requires |prompts| >= 2 ==> ValidOpcodes(TokenizeAll(prompts)[1..], opcodes)
    ensures prompts == [] ==> Aligned(prompts, opcodes) == AlignmentResult("", [], [], [])
    ensures |prompts| == 1 ==>
              Aligned(prompts, opcodes).commonStructure == prompts[0] && Aligned(prompts, opcodes).variableRegions == []
    ensures |prompts| >= 2 ==>
              var r := Aligned(prompts, opcodes);
              var reference := Tokenize(prompts[0]);
              var mask := Mask(opcodes, |reference|);
              && r.prompts == prompts && r.tokens == TokenizeAll(prompts)
              && (forall j | 0 <= j < |r.variableRegions| :: RegionOf(reference, mask, r.variableRegions[j]))
              && (forall j | 0 <= j < |r.variableRegions| - 1 ::
                    r.variableRegions[j].end < r.variableRegions[j + 1].start)
              && (forall x | 0 <= x < |reference| && !mask[x] ::
                    exists j | 0 <= j < |r.variableRegions| ::
                      r.variableRegions[j].start <= x < r.variableRegions[j].end)
              && exists ps: seq<Piece> ::
                   && r.commonStructure == Text(ps)
                   && Holes(ps) == SlotNames(0, |r.variableRegions|)
                   && Lits(ps) == Kept(reference, mask, 0)
                   && PlacesRegions(reference, mask, 0, ps, r.variableRegions, 0)
  {
    if |prompts| >= 2 {
      var allTokens := TokenizeAll(prompts);
      var reference := allTokens[0];
      var n := |reference|;
      var exs := seq(n, x requires 0 <= x < n => Examples(allTokens[1..], opcodes, |opcodes|, x, n));
      BuildSpec(reference, Mask(opcodes, n), exs, 0, 0);
    }
  }
}
