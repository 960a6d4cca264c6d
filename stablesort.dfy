/** Python's `list.sort(key=..., reverse=True)` and `sorted(...)`: a stable
    sort. Descending order is specified here; ascending order by a key is
    descending order by the negated key, ties kept in input order either way. */
module StableSort {

  ghost predicate SortedDesc<T>(s: seq<T>, key: T -> real) {
    forall i, j | 0 <= i < j < |s| :: key(s[i]) >= key(s[j])
  }

  /** The elements whose key is `c`, in order. */
  function WithKey<T>(s: seq<T>, key: T -> real, c: real): (r: seq<T>)
    decreases |s|
  {
    if s == [] then []
    else (if key(s[0]) == c then [s[0]] else []) + WithKey(s[1..], key, c)
  }

  /** Insert `x` after every element whose key is at least its own. */
  function Insert<T>(x: T, s: seq<T>, key: T -> real): seq<T>
    decreases |s|
  {
    if s == [] then [x]
    else if key(s[0]) >= key(x) then [s[0]] + Insert(x, s[1..], key)
    else [x] + s
  }

  /** The sort, as insertion of each element in turn. */
  function SortDesc<T>(s: seq<T>, key: T -> real): seq<T>
    decreases |s|
  {
    if s == [] then []
    else Insert(s[|s| - 1], SortDesc(s[..|s| - 1], key), key)
  }

  /** Insertion adds `x` and loses nothing. */
  lemma {:induction false} InsertMultiset<T>(x: T, s: seq<T>, key: T -> real)
    ensures multiset(Insert(x, s, key)) == multiset(s) + multiset{x}
    decreases |s|
  {
    if s != [] && key(s[0]) >= key(x) {
      InsertMultiset(x, s[1..], key);
      assert s == [s[0]] + s[1..];
    }
  }

  /** The sort is a permutation. */
  lemma {:induction false} SortDescMultiset<T>(s: seq<T>, key: T -> real)
    ensures multiset(SortDesc(s, key)) == multiset(s)
    decreases |s|
  {
    if s != [] {
      var p := s[..|s| - 1];
      SortDescMultiset(p, key);
      InsertMultiset(s[|s| - 1], SortDesc(p, key), key);
      assert s == p + [s[|s| - 1]];
    }
  }

  /** Going past a first element whose key is at least `x`'s. */
  lemma InsertCons<T>(x: T, s: seq<T>, key: T -> real)
    requires s != [] && key(s[0]) >= key(x)
    ensures Insert(x, s, key) == [s[0]] + Insert(x, s[1..], key)
  {
  }

  /** The inserted sequence starts with `x` or with the first element. */
  lemma InsertHead<T>(x: T, s: seq<T>, key: T -> real)
    ensures Insert(x, s, key)[0] == x || (s != [] && Insert(x, s, key)[0] == s[0])
  {
  }

  lemma {:induction false} InsertSorted<T>(x: T, s: seq<T>, key: T -> real)
    requires SortedDesc(s, key)
    ensures SortedDesc(Insert(x, s, key), key)
    decreases |s|
  {
    if s != [] && key(s[0]) >= key(x) {
      var tail := s[1..];
      SortedTail(s, key);
      InsertSorted(x, tail, key);
      InsertCons(x, s, key);
      var t := Insert(x, tail, key);
      InsertHead(x, tail, key);
      assert key(s[0]) >= key(t[0]) by {
        if tail != [] && t[0] == tail[0] {
          assert tail[0] == s[1];
        }
      }
      var r := [s[0]] + t;
      forall i, j | 0 <= i < j < |r| ensures key(r[i]) >= key(r[j]) {
        if i == 0 {
          assert r[j] == t[j - 1];
          if j > 1 {
            assert key(t[0]) >= key(t[j - 1]);
          }
        } else {
          assert r[i] == t[i - 1] && r[j] == t[j - 1];
        }
      }
    }
  }

  /** The elements with key `c` of a sequence with a first element. */
  lemma WithKeyCons<T>(y: T, s: seq<T>, key: T -> real, c: real)
    ensures WithKey([y] + s, key, c) == (if key(y) == c then [y] else []) + WithKey(s, key, c)
  {
    assert ([y] + s)[1..] == s;
  }

  lemma {:induction false} WithKeyAppend<T>(a: seq<T>, b: seq<T>, key: T -> real, c: real)
    ensures WithKey(a + b, key, c) == WithKey(a, key, c) + WithKey(b, key, c)
    decreases |a|
  {
    if a != [] {
      assert (a + b)[1..] == a[1..] + b;
      WithKeyAppend(a[1..], b, key, c);
    } else {
      assert a + b == b;
    }
  }

  /** Inserting `x` puts it after every earlier element with its key. */
  lemma {:induction false} InsertStable<T>(x: T, s: seq<T>, key: T -> real, c: real)
    requires SortedDesc(s, key)
    ensures WithKey(Insert(x, s, key), key, c)
         == WithKey(s, key, c) + (if key(x) == c then [x] else [])
    decreases |s|
  {
    if s == [] {
      WithKeyCons(x, [], key, c);
    } else if key(s[0]) >= key(x) {
      SortedTail(s, key);
      InsertStable(x, s[1..], key, c);
      InsertPastHead(x, s, key, c);
    } else {
      // every element of s has a key below key(x), so none has key c when key(x) == c
      WithKeyCons(x, s, key, c);
      if key(x) == c {
        WithKeyNone(s, key, c);
      }
    }
  }

  lemma SortedTail<T>(s: seq<T>, key: T -> real)
    requires s != [] && SortedDesc(s, key)
    ensures SortedDesc(s[1..], key)
  {
    var tail := s[1..];
    forall i, j | 0 <= i < j < |tail| ensures key(tail[i]) >= key(tail[j]) {
      assert tail[i] == s[i + 1] && tail[j] == s[j + 1];
    }
  }

  /** The step of `InsertStable` where `x` goes past the first element. */
  lemma InsertPastHead<T>(x: T, s: seq<T>, key: T -> real, c: real)
    requires s != [] && key(s[0]) >= key(x)
    requires WithKey(Insert(x, s[1..], key), key, c) == WithKey(s[1..], key, c) + (if key(x) == c then [x] else [])
    ensures WithKey(Insert(x, s, key), key, c) == WithKey(s, key, c) + (if key(x) == c then [x] else [])
  {
    var tail := s[1..];
    InsertCons(x, s, key);
    WithKeyCons(s[0], Insert(x, tail, key), key, c);
    WithKeyCons(s[0], tail, key, c);
    assert [s[0]] + tail == s;
    var h, w, tx := (if key(s[0]) == c then [s[0]] else []), WithKey(tail, key, c), (if key(x) == c then [x] else []);
    assert h + (w + tx) == (h + w) + tx;
  }

  lemma {:induction false} WithKeyNone<T>(s: seq<T>, key: T -> real, c: real)
    requires SortedDesc(s, key) && s != [] && key(s[0]) < c
    ensures WithKey(s, key, c) == []
    decreases |s|
  {
    if |s| > 1 {
      assert key(s[1]) <= key(s[0]);
      WithKeyNone(s[1..], key, c);
    }
  }

  lemma {:induction false} SortDescSorted<T>(s: seq<T>, key: T -> real)
    ensures SortedDesc(SortDesc(s, key), key)
    decreases |s|
  {
    if s != [] {
      SortDescSorted(s[..|s| - 1], key);
      InsertSorted(s[|s| - 1], SortDesc(s[..|s| - 1], key), key);
    }
  }

  lemma {:induction false} SortDescStable<T>(s: seq<T>, key: T -> real, c: real)
    ensures WithKey(SortDesc(s, key), key, c) == WithKey(s, key, c)
    decreases |s|
  {
    if s != [] {
      var p, x := s[..|s| - 1], s[|s| - 1];
      assert p + [x] == s;
      var tail := if key(x) == c then [x] else [];
      SortDescStable(p, key, c);
      SortDescSorted(p, key);
      InsertStable(x, SortDesc(p, key), key, c);
      assert SortDesc(s, key) == Insert(x, SortDesc(p, key), key);
      assert WithKey(SortDesc(s, key), key, c) == WithKey(p, key, c) + tail;
      WithKeyAppend(p, [x], key, c);
      assert WithKey([x], key, c) == tail;
    }
  }

  /** The result is in non-increasing key order, is a permutation of the
      input, and keeps the input order among elements with equal keys. */
  lemma SortDescSpec<T>(s: seq<T>, key: T -> real)
    ensures SortedDesc(SortDesc(s, key), key)
    ensures multiset(SortDesc(s, key)) == multiset(s)
    ensures forall c :: WithKey(SortDesc(s, key), key, c) == WithKey(s, key, c)
  {
    SortDescSorted(s, key);
    SortDescMultiset(s, key);
    forall c ensures WithKey(SortDesc(s, key), key, c) == WithKey(s, key, c) {
      SortDescStable(s, key, c);
    }
  }

  /** `|SortDesc(s)| == |s|`. */
  lemma SortDescLength<T>(s: seq<T>, key: T -> real)
    ensures |SortDesc(s, key)| == |s|
  {
    SortDescMultiset(s, key);
    assert |multiset(SortDesc(s, key))| == |multiset(s)|;
  }
}
