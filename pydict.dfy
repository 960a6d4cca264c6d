/** Python's `dict`: keys keep their first-insertion order, assigning to an
    existing key overwrites the value in place, and a new key goes last.
    A dictionary is a sequence of (key, value) pairs with distinct keys. */
module PyDict {
  import opened Wrappers

  function Keys<K, V>(d: seq<(K, V)>): (ks: seq<K>)
    ensures |ks| == |d|
    ensures forall i | 0 <= i < |d| :: ks[i] == d[i].0
  {
    seq(|d|, i requires 0 <= i < |d| => d[i].0)
  }

  lemma KeysSnoc<K, V>(d: seq<(K, V)>)
    requires d != []
    ensures Keys(d) == Keys(d[..|d| - 1]) + [d[|d| - 1].0]
  {
  }

  function Values<K, V>(d: seq<(K, V)>): (vs: seq<V>)
    ensures |vs| == |d|
    ensures forall i | 0 <= i < |d| :: vs[i] == d[i].1
  {
    seq(|d|, i requires 0 <= i < |d| => d[i].1)
  }

  /** The dictionary `dict(zip(ks, vs))` built in order (keys assumed new). */
  function Zip<K, V>(ks: seq<K>, vs: seq<V>): (d: seq<(K, V)>)
    requires |ks| == |vs|
    ensures |d| == |ks| && Keys(d) == ks
    ensures forall i | 0 <= i < |ks| :: d[i] == (ks[i], vs[i])
  {
    seq(|ks|, i requires 0 <= i < |ks| => (ks[i], vs[i]))
  }

  lemma ZipSnoc<K, V>(ks: seq<K>, vs: seq<V>, n: nat)
    requires |ks| == |vs| && n < |ks|
    ensures Zip(ks[..n + 1], vs[..n + 1]) == Zip(ks[..n], vs[..n]) + [(ks[n], vs[n])]
  {
  }

  ghost predicate DistinctKeys<K, V>(d: seq<(K, V)>) {
    forall i, j | 0 <= i < j < |d| :: d[i].0 != d[j].0
  }

  /** The position of the first entry with key `k`. */
  function IndexOf<K(==), V>(d: seq<(K, V)>, k: K): (i: nat)
    requires k in Keys(d)
    ensures i < |d| && d[i].0 == k
    ensures forall j | 0 <= j < i :: d[j].0 != k
    decreases |d|
  {
    if d[0].0 == k then 0
    else
      assert Keys(d) == [d[0].0] + Keys(d[1..]);
      1 + IndexOf(d[1..], k)
  }

  /** `d.get(k)`. */
  function Get<K(==), V>(d: seq<(K, V)>, k: K): (r: Option<V>)
    ensures r.None? <==> k !in Keys(d)
  {
    if k in Keys(d) then Some(d[IndexOf(d, k)].1) else None
  }

  /** With distinct keys, the entry at position i is what `Get` finds. */
  lemma GetAt<K, V>(d: seq<(K, V)>, i: nat)
    requires DistinctKeys(d) && i < |d|
    ensures Get(d, d[i].0) == Some(d[i].1)
  {
    assert Keys(d)[i] == d[i].0;
    assert IndexOf(d, d[i].0) == i;
  }

  /** `d[k] = v`. */
  function Put<K(==), V>(d: seq<(K, V)>, k: K, v: V): (r: seq<(K, V)>)
    ensures k in Keys(d) ==> Keys(r) == Keys(d)
    ensures k !in Keys(d) ==> Keys(r) == Keys(d) + [k]
    ensures forall i | 0 <= i < |d| && d[i].0 != k :: r[i] == d[i]
  {
    if k in Keys(d) then d[IndexOf(d, k) := (k, v)] else d + [(k, v)]
  }

  /** The keys after an assignment are the old keys and the assigned one. */
  lemma PutKey<K, V>(d: seq<(K, V)>, k: K, v: V, x: K)
    ensures x in Keys(Put(d, k, v)) <==> x == k || x in Keys(d)
  {
  }

  /** Assignment keeps the keys distinct. */
  lemma PutDistinct<K, V>(d: seq<(K, V)>, k: K, v: V)
    requires DistinctKeys(d)
    ensures DistinctKeys(Put(d, k, v))
  {
    var r := Put(d, k, v);
    var kr, kd := Keys(r), Keys(d);
    forall i, j | 0 <= i < j < |r| ensures r[i].0 != r[j].0 {
      if j < |d| {
        assert kr[i] == kd[i] && kr[j] == kd[j];
      } else {
        assert kr[i] == kd[i] && kr[j] == k;
      }
    }
  }

  /** Assignment stores the value under its key and leaves every other key's
      value alone. */
  lemma PutGet<K, V>(d: seq<(K, V)>, k: K, v: V)
    ensures Get(Put(d, k, v), k) == Some(v)
    ensures forall k' | k' != k :: Get(Put(d, k, v), k') == Get(d, k')
  {
    var r := Put(d, k, v);
    if k in Keys(d) {
      var i := IndexOf(d, k);
      assert Keys(r)[i] == k;
      assert IndexOf(r, k) == i;
    } else {
      assert Keys(r)[|d|] == k;
      assert IndexOf(r, k) == |d|;
    }
    forall k' | k' != k ensures Get(r, k') == Get(d, k') {
      if k' in Keys(d) {
        var j := IndexOf(d, k');
        assert Keys(r)[j] == k';
        assert IndexOf(r, k') == j;
      }
    }
  }

  /** Assignment leaves the value of another key alone. */
  lemma PutGetOther<K, V>(d: seq<(K, V)>, k: K, v: V, other: K)
    requires other != k
    ensures Get(Put(d, k, v), other) == Get(d, other)
  {
    PutGet(d, k, v);
  }

  /** The dictionary built by assigning `val(x)` to `key(x)` for each of the
      first `n` items, in order. */
  function PutEach<X, K(==), V>(xs: seq<X>, n: nat, key: X -> K, val: X -> V): seq<(K, V)>
    requires n <= |xs|
    decreases n
  {
    if n == 0 then [] else Put(PutEach(xs, n - 1, key, val), key(xs[n - 1]), val(xs[n - 1]))
  }

  /** Exactly the items' keys are keys of the result. */
  lemma {:induction false} PutEachKey<X, K, V>(xs: seq<X>, n: nat, key: X -> K, val: X -> V, k: K)
    requires n <= |xs|
    ensures k in Keys(PutEach(xs, n, key, val)) <==> exists i | 0 <= i < n :: key(xs[i]) == k
    decreases n
  {
    if n > 0 {
      PutEachKey(xs, n - 1, key, val, k);
      PutKey(PutEach(xs, n - 1, key, val), key(xs[n - 1]), val(xs[n - 1]), k);
      if exists i | 0 <= i < n :: key(xs[i]) == k {
        var i :| 0 <= i < n && key(xs[i]) == k;
        assert i < n - 1 || key(xs[n - 1]) == k;
      }
    }
  }

  /** The value under an item's key is the last assignment to it. */
  lemma {:induction false} PutEachLast<X, K, V>(xs: seq<X>, n: nat, key: X -> K, val: X -> V, j: nat)
    requires j < n <= |xs|
    requires forall i | j < i < n :: key(xs[i]) != key(xs[j])
    ensures Get(PutEach(xs, n, key, val), key(xs[j])) == Some(val(xs[j]))
    decreases n
  {
    var prev := PutEach(xs, n - 1, key, val);
    if j < n - 1 {
      PutEachLast(xs, n - 1, key, val, j);
      PutGetOther(prev, key(xs[n - 1]), val(xs[n - 1]), key(xs[j]));
    } else {
      PutGet(prev, key(xs[n - 1]), val(xs[n - 1]));
    }
  }

  /** Inserting a key that is new just appends. */
  lemma PutNew<K, V>(d: seq<(K, V)>, k: K, v: V)
    requires k !in Keys(d)
    ensures Put(d, k, v) == d + [(k, v)]
  {
  }

  /** A second assignment to the same key overwrites the first. */
  lemma PutPut<K, V>(d: seq<(K, V)>, k: K, v: V, w: V)
    ensures Put(Put(d, k, v), k, w) == Put(d, k, w)
  {
    var r := Put(d, k, v);
    if k in Keys(d) {
      var i := IndexOf(d, k);
      assert Keys(r)[i] == k;
      assert IndexOf(r, k) == i;
    } else {
      assert Keys(r)[|d|] == k;
      assert IndexOf(r, k) == |d|;
    }
  }

  /** Distinct keys, seen as a list of keys. */
  lemma KeysDistinct<K, V>(d: seq<(K, V)>)
    requires DistinctKeys(d)
    ensures forall i, j | 0 <= i < j < |d| :: Keys(d)[i] != Keys(d)[j]
  {
  }

  /** Looking up a dictionary that ends with entry `last`. */
  lemma GetSnoc<K, V>(d: seq<(K, V)>)
    requires d != []
    ensures forall k | k != d[|d| - 1].0 :: Get(d, k) == Get(d[..|d| - 1], k)
    ensures d[|d| - 1].0 !in Keys(d[..|d| - 1]) ==> Get(d, d[|d| - 1].0) == Some(d[|d| - 1].1)
    ensures d[|d| - 1].0 in Keys(d[..|d| - 1]) ==> Get(d, d[|d| - 1].0) == Get(d[..|d| - 1], d[|d| - 1].0)
  {
    var p, last := d[..|d| - 1], d[|d| - 1];
    KeysSnoc(d);
    forall k | k != last.0 ensures Get(d, k) == Get(p, k) {
      if k in Keys(p) {
        var i := IndexOf(p, k);
        assert Keys(p)[i] == k;
        assert IndexOf(d, k) == i;
      }
    }
    if last.0 !in Keys(p) {
      assert Keys(d)[|d| - 1] == last.0;
      assert IndexOf(d, last.0) == |d| - 1;
    } else {
      var i := IndexOf(p, last.0);
      assert Keys(p)[i] == last.0;
      assert IndexOf(d, last.0) == i;
    }
  }
}
