/** Grouping values into a dictionary of lists, the way the modelled loops
    do it: `if label not in groups: groups[label] = []` followed by
    `groups[label].append(value)`. */
module Grouping {
  import opened Wrappers
  import opened PyDict
  import opened PyLists

  /** One step of the loop: a new label gets the list `[v]` (the empty
      list it is first given is at once appended to). */
  function AddTo<L(==), V>(g: seq<(L, seq<V>)>, l: L, v: V): seq<(L, seq<V>)> {
    match Get(g, l)
    case None => Put(g, l, [v])
    case Some(vs) => Put(g, l, vs + [v])
  }

  /** The loop body as written, `groups[l] = []` for a new label and then
      `groups[l].append(v)`, is one `AddTo` step. */
  lemma AddToSteps<L, V>(g: seq<(L, seq<V>)>, l: L, v: V)
    ensures l !in Keys(g) ==> Get(Put(g, l, []), l) == Some([]) && Put(Put(g, l, []), l, [] + [v]) == AddTo(g, l, v)
    ensures l in Keys(g) ==> Put(g, l, Get(g, l).value + [v]) == AddTo(g, l, v)
  {
    if l !in Keys(g) {
      PutGet(g, l, []);
      PutPut(g, l, [], [v]);
      assert [] + [v] == [v];
    }
  }

  /** The loop body: `if l not in groups: groups[l] = []`, then
      `groups[l].append(v)`. */
  method Append<L(==), V>(groups: seq<(L, seq<V>)>, l: L, v: V) returns (r: seq<(L, seq<V>)>)
    ensures r == AddTo(groups, l, v)
  {
    AddToSteps(groups, l, v);
    r := groups;
    if l !in Keys(r) {
      r := Put(r, l, []);
    }
    r := Put(r, l, Get(r, l).value + [v]);
  }

  /** The whole loop over (label, value) pairs. */
  function GroupBy<L(==), V>(pairs: seq<(L, V)>): seq<(L, seq<V>)>
    decreases |pairs|
  {
    if pairs == [] then []
    else
      var last := pairs[|pairs| - 1];
      AddTo(GroupBy(pairs[..|pairs| - 1]), last.0, last.1)
  }

  lemma GroupBySnoc<L, V>(pairs: seq<(L, V)>, x: (L, V))
    ensures GroupBy(pairs + [x]) == AddTo(GroupBy(pairs), x.0, x.1)
  {
    assert (pairs + [x])[..|pairs|] == pairs;
  }

  /** The values paired with label `l`, in order. */
  function Select<L(==), V>(pairs: seq<(L, V)>, l: L): seq<V>
    decreases |pairs|
  {
    if pairs == [] then []
    else
      var last := pairs[|pairs| - 1];
      Select(pairs[..|pairs| - 1], l) + if last.0 == l then [last.1] else []
  }

  lemma {:induction false} SelectAbsent<L, V>(pairs: seq<(L, V)>, l: L)
    requires l !in Keys(pairs)
    ensures Select(pairs, l) == []
    decreases |pairs|
  {
    if pairs != [] {
      var p := pairs[..|pairs| - 1];
      assert Keys(p) == Keys(pairs)[..|pairs| - 1];
      SelectAbsent(p, l);
    }
  }

  lemma AddToSpec<L, V>(g: seq<(L, seq<V>)>, l: L, v: V)
    requires DistinctKeys(g)
    ensures DistinctKeys(AddTo(g, l, v))
    ensures l in Keys(g) ==> Keys(AddTo(g, l, v)) == Keys(g)
    ensures l !in Keys(g) ==> Keys(AddTo(g, l, v)) == Keys(g) + [l]
    ensures Get(AddTo(g, l, v), l) == Some(if l in Keys(g) then Get(g, l).value + [v] else [v])
    ensures forall k | k != l :: Get(AddTo(g, l, v), k) == Get(g, k)
  {
    if l in Keys(g) {
      var vs := Get(g, l).value;
      assert AddTo(g, l, v) == Put(g, l, vs + [v]);
      PutDistinct(g, l, vs + [v]);
      PutGet(g, l, vs + [v]);
    } else {
      PutDistinct(g, l, [v]);
      PutGet(g, l, [v]);
    }
  }

  /** Grouping yields one entry per distinct label, in order of first
      appearance. */
  lemma {:induction false} GroupByKeys<L, V>(pairs: seq<(L, V)>)
    ensures DistinctKeys(GroupBy(pairs))
    ensures Keys(GroupBy(pairs)) == Dedupe(Keys(pairs))
    decreases |pairs|
  {
    if pairs != [] {
      var p, last := pairs[..|pairs| - 1], pairs[|pairs| - 1];
      var g := GroupBy(p);
      assert Keys(pairs)[..|pairs| - 1] == Keys(p);
      GroupByKeys(p);
      AddToSpec(g, last.0, last.1);
    }
  }

  /** Each label's list holds exactly its values, in order; a label that
      never occurs has no entry. */
  lemma {:induction false} GroupByGet<L, V>(pairs: seq<(L, V)>, l: L)
    ensures Get(GroupBy(pairs), l) == if l in Keys(pairs) then Some(Select(pairs, l)) else None
    decreases |pairs|
  {
    if pairs != [] {
      var p, last := pairs[..|pairs| - 1], pairs[|pairs| - 1];
      var g := GroupBy(p);
      GroupByGet(p, l);
      GroupByKeys(p);
      AddToSpec(g, last.0, last.1);
      KeysSnoc(pairs);
      assert GroupBy(pairs) == AddTo(g, last.0, last.1);
      assert Select(pairs, l) == Select(p, l) + if last.0 == l then [last.1] else [];
      if l != last.0 {
        assert l in Keys(pairs) <==> l in Keys(p);
        assert Select(pairs, l) == Select(p, l);
        assert Get(GroupBy(pairs), l) == Get(g, l);
      } else if l in Keys(p) {
        assert l in Keys(pairs);
        assert Get(GroupBy(pairs), l) == Some(Select(p, l) + [last.1]);
      } else {
        assert l in Keys(pairs);
        SelectAbsent(p, l);
        assert Select(pairs, l) == [last.1];
        assert Get(GroupBy(pairs), l) == Some([last.1]);
      }
    }
  }
}
