/** List idioms of the modelled code. */
module PyLists {

  ghost predicate NoDuplicates<T>(s: seq<T>) {
    forall i, j | 0 <= i < j < |s| :: s[i] != s[j]
  }

  /** `list(dict.fromkeys(xs))`: each value once, at its first occurrence.
      The model also uses it for `list(set(xs))` (see README). */
  function Dedupe<T(==)>(xs: seq<T>): (r: seq<T>)
    decreases |xs|
  {
    if xs == [] then []
    else
      var r := Dedupe(xs[..|xs| - 1]);
      if xs[|xs| - 1] in r then r else r + [xs[|xs| - 1]]
  }

  /** The position of the first occurrence of `x` in `xs`. */
  function FirstIndex<T(==)>(xs: seq<T>, x: T): (i: nat)
    requires x in xs
    ensures i < |xs| && xs[i] == x && x !in xs[..i]
    decreases |xs|
  {
    var n := |xs| - 1;
    if x in xs[..n] then
      var i := FirstIndex(xs[..n], x);
      assert xs[..n][..i] == xs[..i];
      i
    else
      assert xs == xs[..n] + [xs[n]];
      n
  }

  /** Appending a value leaves the first occurrence of earlier values alone. */
  lemma FirstIndexSnoc<T>(xs: seq<T>, y: T, x: T)
    requires x in xs
    ensures FirstIndex(xs + [y], x) == FirstIndex(xs, x)
  {
    assert (xs + [y])[..|xs|] == xs;
  }

  /** The deduplicated list has no repeats, holds exactly the values of the
      input, starts with the input's first value, and lists the values in the
      order of their first occurrence. */
  lemma {:induction false} DedupeSpec<T>(xs: seq<T>)
    ensures NoDuplicates(Dedupe(xs))
    ensures forall x :: x in Dedupe(xs) <==> x in xs
    ensures xs != [] ==> Dedupe(xs)[0] == xs[0]
    ensures |Dedupe(xs)| <= |xs|
    ensures forall i, j | 0 <= i < j < |Dedupe(xs)| ::
              FirstIndex(xs, Dedupe(xs)[i]) < FirstIndex(xs, Dedupe(xs)[j])
    decreases |xs|, 1
  {
    if xs != [] {
      var p, last := xs[..|xs| - 1], xs[|xs| - 1];
      DedupeSpec(p);
      assert xs == p + [last];
      if p == [] {
        assert Dedupe(xs) == [xs[0]];
      } else {
        assert p[0] == xs[0];
      }
    }
    DedupeOrder(xs);
  }

  /** The order part of `DedupeSpec`. */
  lemma {:induction false} DedupeOrder<T>(xs: seq<T>)
    ensures forall x | x in Dedupe(xs) :: x in xs
    ensures forall i, j | 0 <= i < j < |Dedupe(xs)| ::
              FirstIndex(xs, Dedupe(xs)[i]) < FirstIndex(xs, Dedupe(xs)[j])
    decreases |xs|, 0
  {
    if xs != [] {
      var p, last := xs[..|xs| - 1], xs[|xs| - 1];
      DedupeSpec(p);
      assert xs == p + [last];
      var d := Dedupe(xs);
      forall i, j | 0 <= i < j < |d| ensures FirstIndex(xs, d[i]) < FirstIndex(xs, d[j]) {
        assert d[i] in p;
        FirstIndexSnoc(p, last, d[i]);
        if j < |Dedupe(p)| {
          assert d[j] in p;
          FirstIndexSnoc(p, last, d[j]);
        } else {
          assert d[j] == last && last !in p;
        }
      }
    }
  }

  /** A list without repeats is its own deduplication. */
  lemma {:induction false} DedupeDistinct<T>(xs: seq<T>)
    requires NoDuplicates(xs)
    ensures Dedupe(xs) == xs
    decreases |xs|
  {
    if xs != [] {
      var p := xs[..|xs| - 1];
      DedupeDistinct(p);
      DedupeSpec(p);
      assert xs[|xs| - 1] !in p;
      assert p + [xs[|xs| - 1]] == xs;
    }
  }

  /** `list(reversed(xs))`. */
  function Reversed<T>(xs: seq<T>): (r: seq<T>)
    ensures |r| == |xs|
    decreases |xs|
  {
    if xs == [] then [] else Reversed(xs[1..]) + [xs[0]]
  }

  lemma {:induction false} ReversedSnoc<T>(xs: seq<T>, x: T)
    ensures Reversed(xs + [x]) == [x] + Reversed(xs)
    decreases |xs|
  {
    if xs == [] {
      assert [x][1..] == [];
    } else {
      assert (xs + [x])[1..] == xs[1..] + [x];
      ReversedSnoc(xs[1..], x);
    }
  }
}
