/** SimHash fingerprints of whitespace-separated tokens, their Hamming
    distance, and a table of fingerprints used to find near-duplicate
    prompts. The MD5 digest of a token, read as an integer, is the
    parameter `tokenHash`. */
module Dedup {
  import opened Wrappers
  import opened PyStrings
  import opened PyDict
  import opened StableSort

  // ---------------------------------------------------------------------
  // Bits of natural numbers

  function Pow2(n: nat): (p: nat)
    ensures p >= 1
  {
    if n == 0 then 1 else 2 * Pow2(n - 1)
  }

  /** `(x >> i) & 1`. */
  function Bit(x: nat, i: nat): (b: nat)
    ensures b < 2
  {
    if i == 0 then x % 2 else Bit(x / 2, i - 1)
  }

  /** `x | (1 << i)`. */
  function SetBit(x: nat, i: nat): nat {
    if Bit(x, i) == 1 then x else x + Pow2(i)
  }

  /** A number below `2^i` has no bit at or above `i`. */
  lemma {:induction false} BitHigh(x: nat, i: nat, j: nat)
    requires x < Pow2(i) && i <= j
    ensures Bit(x, j) == 0
    decreases j
  {
    if j > 0 {
      if i > 0 {
        BitHigh(x / 2, i - 1, j - 1);
      } else {
        BitHigh(x / 2, 0, j - 1);
      }
    }
  }

  /** Adding `2^i` to a number below `2^i` sets bit `i` and keeps the
      lower bits. */
  lemma {:induction false} BitAddPow(x: nat, i: nat, j: nat)
    requires x < Pow2(i)
    ensures Bit(x + Pow2(i), j) == if j == i then 1 else Bit(x, j)
    decreases i
  {
    if i == 0 {
      assert x == 0;
      if j > 0 {
        BitHigh(0, 0, j - 1);
      }
    } else {
      assert (x + Pow2(i)) / 2 == x / 2 + Pow2(i - 1);
      assert (x + Pow2(i)) % 2 == x % 2;
      if j > 0 {
        BitAddPow(x / 2, i - 1, j - 1);
      }
    }
  }

  /** Two numbers below `2^n` with the same `n` low bits are equal. */
  lemma {:induction false} BitsEqual(x: nat, y: nat, n: nat)
    requires x < Pow2(n) && y < Pow2(n)
    requires forall i | 0 <= i < n :: Bit(x, i) == Bit(y, i)
    ensures x == y
    decreases n
  {
    if n > 0 {
      forall i | 0 <= i < n - 1 ensures Bit(x / 2, i) == Bit(y / 2, i) {
        assert Bit(x, i + 1) == Bit(y, i + 1);
      }
      BitsEqual(x / 2, y / 2, n - 1);
      assert Bit(x, 0) == Bit(y, 0);
    }
  }

  // ---------------------------------------------------------------------
  // simhash

  /** The token hash masked to `numBits` bits. */
  function Masked(token: string, numBits: nat, tokenHash: string -> nat): (h: nat)
    ensures h < Pow2(numBits)
  {
    tokenHash(token) % Pow2(numBits)
  }

  /** +1 for a set bit, -1 for a clear one. */
  function Vote(h: nat, i: nat): int {
    if Bit(h, i) == 1 then 1 else -1
  }

  /** `vector[i]` after the given tokens. */
  function Votes(tokens: seq<string>, numBits: nat, tokenHash: string -> nat, i: nat): int
    decreases |tokens|
  {
    if tokens == [] then 0
    else Votes(tokens[..|tokens| - 1], numBits, tokenHash, i) + Vote(Masked(tokens[|tokens| - 1], numBits, tokenHash), i)
  }

  /** The number of tokens whose masked hash has bit `i` set. */
  function Ones(tokens: seq<string>, numBits: nat, tokenHash: string -> nat, i: nat): (c: nat)
    ensures c <= |tokens|
    decreases |tokens|
  {
    if tokens == [] then 0
    else Ones(tokens[..|tokens| - 1], numBits, tokenHash, i) + Bit(Masked(tokens[|tokens| - 1], numBits, tokenHash), i)
  }

  /** The fingerprint after the first `n` positions of the final loop. */
  function Fingerprint(tokens: seq<string>, numBits: nat, tokenHash: string -> nat, n: nat): nat
    decreases n
  {
    if n == 0 then 0
    else
      var fp := Fingerprint(tokens, numBits, tokenHash, n - 1);
      if Votes(tokens, numBits, tokenHash, n - 1) > 0 then SetBit(fp, n - 1) else fp
  }

  /** `simhash(text, num_bits)`. */
  function SimHashOf(text: string, numBits: nat, tokenHash: string -> nat): nat {
    var tokens := SplitWs(text);
    if tokens == [] then 0 else Fingerprint(tokens, numBits, tokenHash, numBits)
  }

  /** Each vote counts the set bits against the clear ones. */
  lemma {:induction false} VotesOnes(tokens: seq<string>, numBits: nat, tokenHash: string -> nat, i: nat)
    ensures Votes(tokens, numBits, tokenHash, i) == 2 * Ones(tokens, numBits, tokenHash, i) - |tokens|
    decreases |tokens|
  {
    if tokens != [] {
      VotesOnes(tokens[..|tokens| - 1], numBits, tokenHash, i);
    }
  }

  /** The first `n` positions give a number below `2^n` whose bit `i` is
      set exactly when position `i` has a positive vote. */
  lemma {:induction false} FingerprintBits(tokens: seq<string>, numBits: nat, tokenHash: string -> nat, n: nat)
    ensures Fingerprint(tokens, numBits, tokenHash, n) < Pow2(n)
    ensures forall i | 0 <= i < n :: Bit(Fingerprint(tokens, numBits, tokenHash, n), i) == 1 <==> Votes(tokens, numBits, tokenHash, i) > 0
    ensures forall i | n <= i :: Bit(Fingerprint(tokens, numBits, tokenHash, n), i) == 0
    decreases n
  {
    if n > 0 {
      var fp := Fingerprint(tokens, numBits, tokenHash, n - 1);
      FingerprintBits(tokens, numBits, tokenHash, n - 1);
      if Votes(tokens, numBits, tokenHash, n - 1) > 0 {
        forall i ensures Bit(fp + Pow2(n - 1), i) == if i == n - 1 then 1 else Bit(fp, i) {
          BitAddPow(fp, n - 1, i);
        }
      }
    }
    forall i | n <= i ensures Bit(Fingerprint(tokens, numBits, tokenHash, n), i) == 0 {
      BitHigh(Fingerprint(tokens, numBits, tokenHash, n), n, i);
    }
  }

  /** The fingerprint is below `2^num_bits`; bit `i` is set exactly when
      more tokens have bit `i` of their hash set than clear; a text with no
      tokens has fingerprint 0. */
  lemma SimHashSpec(text: string, numBits: nat, tokenHash: string -> nat)
    ensures SimHashOf(text, numBits, tokenHash) < Pow2(numBits)
    ensures forall i | 0 <= i < numBits ::
              var tokens := SplitWs(text);
              var ones := Ones(tokens, numBits, tokenHash, i);
              Bit(SimHashOf(text, numBits, tokenHash), i) == 1 <==> ones > |tokens| - ones
    ensures (forall i | 0 <= i < |text| :: IsSpace(text[i])) ==> SimHashOf(text, numBits, tokenHash) == 0
  {
    var tokens := SplitWs(text);
    SplitWsEmptyIff(text);
    if tokens != [] {
      FingerprintBits(tokens, numBits, tokenHash, numBits);
      forall i | 0 <= i < numBits {
        VotesOnes(tokens, numBits, tokenHash, i);
      }
    } else {
      forall i | 0 <= i < numBits ensures Bit(0, i) == 0 {
        BitHigh(0, 0, i);
      }
    }
  }

  /** With one token, every vote is that token's bit. */
  lemma OneTokenVotes(tokens: seq<string>, numBits: nat, tokenHash: string -> nat, i: nat)
    requires |tokens| == 1
    ensures Votes(tokens, numBits, tokenHash, i) > 0 <==> Bit(Masked(tokens[0], numBits, tokenHash), i) == 1
  {
    assert tokens[..0] == [];
  }

  /** A text of one token has that token's masked hash as fingerprint. */
  lemma SimHashOneToken(text: string, numBits: nat, tokenHash: string -> nat)
    requires |SplitWs(text)| == 1
    ensures SimHashOf(text, numBits, tokenHash) == Masked(SplitWs(text)[0], numBits, tokenHash)
  {
    var tokens := SplitWs(text);
    var h := Masked(tokens[0], numBits, tokenHash);
    var fp := Fingerprint(tokens, numBits, tokenHash, numBits);
    FingerprintBits(tokens, numBits, tokenHash, numBits);
    forall i | 0 <= i < numBits ensures Bit(fp, i) == Bit(h, i) {
      OneTokenVotes(tokens, numBits, tokenHash, i);
    }
    BitsEqual(fp, h, numBits);
  }

  /** The inner loop of `simhash`: one token's votes. */
  method AddVotes(vector: array<int>, h: nat)
    modifies vector
    ensures forall i | 0 <= i < vector.Length :: vector[i] == old(vector[i]) + Vote(h, i)
  {
    for i := 0 to vector.Length
      invariant forall j | 0 <= j < i :: vector[j] == old(vector[j]) + Vote(h, j)
      invariant forall j | i <= j < vector.Length :: vector[j] == old(vector[j])
    {
      vector[i] := vector[i] + (if Bit(h, i) == 1 then 1 else -1);
    }
  }

  /** One more token adds its vote at every position. */
  lemma VotesSnoc(tokens: seq<string>, t: nat, numBits: nat, tokenHash: string -> nat)
    requires t < |tokens|
    ensures forall i :: Votes(tokens[..t + 1], numBits, tokenHash, i)
                        == Votes(tokens[..t], numBits, tokenHash, i) + Vote(tokenHash(tokens[t]) % Pow2(numBits), i)
  {
    assert tokens[..t + 1][..t] == tokens[..t];
  }

  /** The first loop of `simhash`: the vote vector of all tokens. */
  method Tally(tokens: seq<string>, numBits: nat, tokenHash: string -> nat) returns (vector: array<int>)
    ensures fresh(vector) && vector.Length == numBits
    ensures forall i | 0 <= i < numBits :: vector[i] == Votes(tokens, numBits, tokenHash, i)
  {
    vector := new int[numBits](_ => 0);
    for t := 0 to |tokens|
      invariant forall i | 0 <= i < numBits :: vector[i] == Votes(tokens[..t], numBits, tokenHash, i)
    {
      VotesSnoc(tokens, t, numBits, tokenHash);
      AddVotes(vector, tokenHash(tokens[t]) % Pow2(numBits));
    }
    assert tokens[..|tokens|] == tokens;
  }

  /** `simhash`. */
  method SimHash(text: string, numBits: nat, tokenHash: string -> nat) returns (fingerprint: nat)
    ensures fingerprint == SimHashOf(text, numBits, tokenHash)
  {
    var tokens := SplitWs(text);
    if tokens == [] {
      return 0;
    }
    var vector := Tally(tokens, numBits, tokenHash);
    fingerprint := 0;
    for i := 0 to numBits
      invariant fingerprint == Fingerprint(tokens, numBits, tokenHash, i)
    {
      if vector[i] > 0 {
        fingerprint := SetBit(fingerprint, i);
      }
    }
  }

  // ---------------------------------------------------------------------
  // hamming_distance

  /** `a ^ b`. */
  function Xor(a: nat, b: nat): nat
    decreases a + b
  {
    if a == 0 && b == 0 then 0 else 2 * Xor(a / 2, b / 2) + (if a % 2 != b % 2 then 1 else 0)
  }

  /** `bin(x).count("1")`. */
  function PopCount(x: nat): nat {
    if x == 0 then 0 else x % 2 + PopCount(x / 2)
  }

  /** `hamming_distance`. */
  function HammingDistance(a: nat, b: nat): nat {
    PopCount(Xor(a, b))
  }

  /** Bit `i` of `a ^ b` is set exactly where the bits of `a` and `b`
      differ. */
  lemma {:induction false} XorBit(a: nat, b: nat, i: nat)
    ensures Bit(Xor(a, b), i) == 1 <==> Bit(a, i) != Bit(b, i)
    decreases i
  {
    if a == 0 && b == 0 {
      BitHigh(0, 0, i);
    } else if i > 0 {
      XorBit(a / 2, b / 2, i - 1);
    }
  }

  lemma {:induction false} XorSymmetric(a: nat, b: nat)
    ensures Xor(a, b) == Xor(b, a)
    decreases a + b
  {
    if a != 0 || b != 0 {
      XorSymmetric(a / 2, b / 2);
    }
  }

  lemma {:induction false} XorZero(a: nat, b: nat)
    ensures Xor(a, b) == 0 <==> a == b
    decreases a + b
  {
    if a != 0 || b != 0 {
      XorZero(a / 2, b / 2);
    }
  }

  lemma {:induction false} XorBound(a: nat, b: nat, n: nat)
    requires a < Pow2(n) && b < Pow2(n)
    ensures Xor(a, b) < Pow2(n)
    decreases n
  {
    if n > 0 && (a != 0 || b != 0) {
      XorBound(a / 2, b / 2, n - 1);
    }
  }

  lemma {:induction false} PopCountZero(x: nat)
    ensures PopCount(x) == 0 <==> x == 0
    decreases x
  {
    if x != 0 && x % 2 == 0 {
      PopCountZero(x / 2);
    }
  }

  lemma {:induction false} PopCountBound(x: nat, n: nat)
    requires x < Pow2(n)
    ensures PopCount(x) <= n
    decreases n
  {
    if n > 0 && x != 0 {
      PopCountBound(x / 2, n - 1);
    }
  }

  /** The distance is symmetric, zero exactly for equal fingerprints, and at
      most `n` for fingerprints of `n` bits (64 for `simhash`'s default). */
  lemma HammingSpec(a: nat, b: nat, n: nat)
    requires a < Pow2(n) && b < Pow2(n)
    ensures HammingDistance(a, b) == HammingDistance(b, a)
    ensures HammingDistance(a, b) == 0 <==> a == b
    ensures HammingDistance(a, b) <= n
  {
    XorSymmetric(a, b);
    XorZero(a, b);
    PopCountZero(Xor(a, b));
    XorBound(a, b, n);
    PopCountBound(Xor(a, b), n);
  }

  // ---------------------------------------------------------------------
  // SimHashDeduplicator

  const DefaultBits: nat := 64

  /** The first entry, in insertion order, within `threshold` of `fp`, with
      its distance. */
  function FirstWithin(entries: seq<(string, nat)>, fp: nat, threshold: int): (r: Option<(string, nat)>)
    decreases |entries|
  {
    if entries == [] then None
    else if HammingDistance(fp, entries[0].1) <= threshold then Some((entries[0].0, HammingDistance(fp, entries[0].1)))
    else FirstWithin(entries[1..], fp, threshold)
  }

  /** A match is the earliest entry within the threshold; no match means no
      entry is within it. */
  lemma {:induction false} FirstWithinSpec(entries: seq<(string, nat)>, fp: nat, threshold: int)
    ensures var r := FirstWithin(entries, fp, threshold);
            && (r.None? <==> forall i | 0 <= i < |entries| :: HammingDistance(fp, entries[i].1) > threshold)
            && (r.Some? ==> exists i | 0 <= i < |entries| ::
                  && r.value == (entries[i].0, HammingDistance(fp, entries[i].1))
                  && r.value.1 <= threshold
                  && forall j | 0 <= j < i :: HammingDistance(fp, entries[j].1) > threshold)
    decreases |entries|
  {
    if entries != [] && HammingDistance(fp, entries[0].1) > threshold {
      var r := FirstWithin(entries[1..], fp, threshold);
      FirstWithinSpec(entries[1..], fp, threshold);
      if r.Some? {
        var i :| 0 <= i < |entries[1..]| && r.value == (entries[1..][i].0, HammingDistance(fp, entries[1..][i].1))
                 && forall j | 0 <= j < i :: HammingDistance(fp, entries[1..][j].1) > threshold;
        assert forall j | 0 <= j < i + 1 :: HammingDistance(fp, entries[j].1) > threshold by {
          forall j | 1 <= j < i + 1 ensures HammingDistance(fp, entries[j].1) > threshold {
            assert entries[j] == entries[1..][j - 1];
          }
        }
        assert r.value == (entries[i + 1].0, HammingDistance(fp, entries[i + 1].1));
      } else {
        forall i | 1 <= i < |entries| ensures HammingDistance(fp, entries[i].1) > threshold {
          assert entries[i] == entries[1..][i - 1];
        }
      }
    }
  }

  /** The loop of `is_near_duplicate`. */
  method FindWithin(entries: seq<(string, nat)>, fp: nat, threshold: int) returns (r: Option<(string, nat)>)
    ensures r == FirstWithin(entries, fp, threshold)
  {
    var k := 0;
    while k < |entries|
      invariant k <= |entries|
      invariant FirstWithin(entries, fp, threshold) == FirstWithin(entries[k..], fp, threshold)
    {
      var d := HammingDistance(fp, entries[k].1);
      if d <= threshold {
        return Some((entries[k].0, d));
      }
      assert entries[k..][1..] == entries[k + 1..];
      k := k + 1;
    }
    return None;
  }

  /** The entries within `maxDistance` of `fp`, with their distances, in
      insertion order. */
  function Within(entries: seq<(string, nat)>, fp: nat, maxDistance: int): (r: seq<(string, nat)>)
    ensures |r| <= |entries|
    decreases |entries|
  {
    if entries == [] then []
    else
      var last := entries[|entries| - 1];
      var d := HammingDistance(fp, last.1);
      Within(entries[..|entries| - 1], fp, maxDistance) + if d <= maxDistance then [(last.0, d)] else []
  }

  /** An id with its distance is listed exactly when it is within the
      bound. */
  lemma {:induction false} WithinMember(entries: seq<(string, nat)>, fp: nat, maxDistance: int, x: (string, nat))
    ensures x in Within(entries, fp, maxDistance) <==>
              exists i | 0 <= i < |entries| :: x == (entries[i].0, HammingDistance(fp, entries[i].1)) && x.1 <= maxDistance
    decreases |entries|
  {
    if entries != [] {
      var p := entries[..|entries| - 1];
      WithinMember(p, fp, maxDistance, x);
      if exists i | 0 <= i < |entries| :: x == (entries[i].0, HammingDistance(fp, entries[i].1)) && x.1 <= maxDistance {
        var i :| 0 <= i < |entries| && x == (entries[i].0, HammingDistance(fp, entries[i].1)) && x.1 <= maxDistance;
        if i < |p| {
          assert p[i] == entries[i];
        }
      }
      if x in Within(p, fp, maxDistance) {
        var i :| 0 <= i < |p| && x == (p[i].0, HammingDistance(fp, p[i].1)) && x.1 <= maxDistance;
        assert entries[i] == p[i];
      }
    }
  }

  /** The sort key of `get_similar`: ascending distance is descending
      negated distance. */
  function NegDistance(x: (string, nat)): real {
    -(x.1 as real)
  }

  /** `get_similar`'s result. */
  function Similar(entries: seq<(string, nat)>, fp: nat, maxDistance: int): seq<(string, nat)> {
    SortDesc(Within(entries, fp, maxDistance), NegDistance)
  }

  /** `get_similar` lists ids by ascending distance, ids at the same
      distance in insertion order. */
  lemma SimilarOrder(entries: seq<(string, nat)>, fp: nat, maxDistance: int)
    ensures var r := Similar(entries, fp, maxDistance);
            && (forall i, j | 0 <= i < j < |r| :: r[i].1 <= r[j].1)
            && forall c :: WithKey(r, NegDistance, c) == WithKey(Within(entries, fp, maxDistance), NegDistance, c)
  {
    var r := Similar(entries, fp, maxDistance);
    SortDescSpec(Within(entries, fp, maxDistance), NegDistance);
    forall i, j | 0 <= i < j < |r| ensures r[i].1 <= r[j].1 {
      assert NegDistance(r[i]) >= NegDistance(r[j]);
    }
  }

  /** `get_similar` lists every id within the bound with its distance, once
      per entry, and nothing else. */
  lemma SimilarMembers(entries: seq<(string, nat)>, fp: nat, maxDistance: int, x: (string, nat))
    ensures multiset(Similar(entries, fp, maxDistance)) == multiset(Within(entries, fp, maxDistance))
    ensures x in Similar(entries, fp, maxDistance) <==>
              exists i | 0 <= i < |entries| :: x == (entries[i].0, HammingDistance(fp, entries[i].1)) && x.1 <= maxDistance
  {
    var w := Within(entries, fp, maxDistance);
    var r := Similar(entries, fp, maxDistance);
    SortDescMultiset(w, NegDistance);
    assert x in r <==> x in multiset(r);
    assert x in w <==> x in multiset(w);
    WithinMember(entries, fp, maxDistance, x);
  }

  /** `SimHashDeduplicator`: fingerprints of the indexed prompts, by id in
      insertion order. */
  class SimHashDeduplicator {
    const threshold: int
    const tokenHash: string -> nat
    var fingerprints: seq<(string, nat)>

    ghost predicate Valid()
      reads this
    {
      DistinctKeys(fingerprints)
    }

    constructor(threshold: int, tokenHash: string -> nat)
      ensures Valid()
      ensures this.threshold == threshold && this.tokenHash == tokenHash && fingerprints == []
    {
      this.threshold := threshold;
      this.tokenHash := tokenHash;
      fingerprints := [];
    }

    /** `compute_fingerprint`. */
    method ComputeFingerprint(text: string) returns (fp: nat)
      ensures fp == SimHashOf(text, DefaultBits, tokenHash)
    {
      fp := SimHash(text, DefaultBits, tokenHash);
    }

    /** `is_near_duplicate`: the first indexed id within `threshold`. */
    method IsNearDuplicate(text: string) returns (isDuplicate: bool, matchId: Option<string>, distance: Option<nat>)
      ensures var r := FirstWithin(fingerprints, SimHashOf(text, DefaultBits, tokenHash), threshold);
              && (isDuplicate <==> r.Some?)
              && (r.Some? ==> matchId == Some(r.value.0) && distance == Some(r.value.1))
              && (r.None? ==> matchId.None? && distance.None?)
    {
      var fp := SimHash(text, DefaultBits, tokenHash);
      var found := FindWithin(fingerprints, fp, threshold);
      if found.Some? {
        return true, Some(found.value.0), Some(found.value.1);
      }
      return false, None, None;
    }

    /** `add`: stores or overwrites the id's fingerprint and returns it. */
    method Add(promptId: string, text: string) returns (fp: nat)
      requires Valid()
      modifies this
      ensures Valid()
      ensures fp == SimHashOf(text, DefaultBits, tokenHash)
      ensures fingerprints == Put(old(fingerprints), promptId, fp)
    {
      fp := SimHash(text, DefaultBits, tokenHash);
      PutDistinct(fingerprints, promptId, fp);
      fingerprints := Put(fingerprints, promptId, fp);
    }

    /** `get_similar`; no `max_distance` means `threshold`. */
    method GetSimilar(text: string, maxDistance: Option<int>) returns (similar: seq<(string, nat)>)
      ensures similar == Similar(fingerprints, SimHashOf(text, DefaultBits, tokenHash), maxDistance.GetOr(threshold))
    {
      var bound := if maxDistance.None? then threshold else maxDistance.value;
      var fp := SimHash(text, DefaultBits, tokenHash);
      var found: seq<(string, nat)> := [];
      for k := 0 to |fingerprints|
        invariant found == Within(fingerprints[..k], fp, bound)
      {
        assert fingerprints[..k + 1][..k] == fingerprints[..k];
        var (id, existing) := fingerprints[k];
        var d := HammingDistance(fp, existing);
        if d <= bound {
          found := found + [(id, d)];
        }
      }
      assert fingerprints[..|fingerprints|] == fingerprints;
      similar := SortDesc(found, NegDistance);
    }

    /** `size`: the number of indexed ids. */
    method Size() returns (n: nat)
      requires Valid()
      ensures n == |fingerprints|
      ensures n == |set i | 0 <= i < |fingerprints| :: fingerprints[i].0|
    {
      n := |fingerprints|;
      DistinctCount(fingerprints);
    }
  }

  /** With distinct keys there are as many ids as entries. */
  lemma {:induction false} DistinctCount(d: seq<(string, nat)>)
    requires DistinctKeys(d)
    ensures |set i | 0 <= i < |d| :: d[i].0| == |d|
    decreases |d|
  {
    if d != [] {
      var p := d[..|d| - 1];
      assert DistinctKeys(p);
      DistinctCount(p);
      var s := set i | 0 <= i < |d| :: d[i].0;
      var sp := set i | 0 <= i < |p| :: p[i].0;
      assert s == sp + {d[|d| - 1].0};
      assert d[|d| - 1].0 !in sp;
    }
  }

  /** `are_similar`: the distance of the two fingerprints, and whether it is
      within `threshold`. */
  function AreSimilar(textA: string, textB: string, threshold: int, tokenHash: string -> nat): (r: (bool, nat))
    ensures r.0 <==> r.1 <= threshold
    ensures r.1 <= DefaultBits
  {
    var fpA, fpB := SimHashOf(textA, DefaultBits, tokenHash), SimHashOf(textB, DefaultBits, tokenHash);
    SimHashSpec(textA, DefaultBits, tokenHash);
    SimHashSpec(textB, DefaultBits, tokenHash);
    HammingSpec(fpA, fpB, DefaultBits);
    var distance := HammingDistance(fpA, fpB);
    (distance <= threshold, distance)
  }

  /** Similarity is symmetric, and texts with the same tokens (however they
      are spaced) are at distance 0. */
  lemma AreSimilarSpec(textA: string, textB: string, threshold: int, tokenHash: string -> nat)
    ensures AreSimilar(textA, textB, threshold, tokenHash) == AreSimilar(textB, textA, threshold, tokenHash)
    ensures SplitWs(textA) == SplitWs(textB) ==> AreSimilar(textA, textB, threshold, tokenHash) == (0 <= threshold, 0)
  {
    var fpA, fpB := SimHashOf(textA, DefaultBits, tokenHash), SimHashOf(textB, DefaultBits, tokenHash);
    SimHashSpec(textA, DefaultBits, tokenHash);
    SimHashSpec(textB, DefaultBits, tokenHash);
    HammingSpec(fpA, fpB, DefaultBits);
  }
}
