/** Embedding vectors over the reals, and the means that `np.mean` computes
    (exactly: floating-point rounding is not modelled). */
module Vectors {

  type Vec = seq<real>

  function Sum(xs: seq<real>): real
    decreases |xs|
  {
    if xs == [] then 0.0 else Sum(xs[..|xs| - 1]) + xs[|xs| - 1]
  }

  /** `np.mean` of a non-empty list of numbers. */
  function Mean(xs: seq<real>): real
    requires xs != []
  {
    Sum(xs) / (|xs| as real)
  }

  lemma {:induction false} SumBounds(xs: seq<real>, lo: real, hi: real)
    requires forall i | 0 <= i < |xs| :: lo <= xs[i] <= hi
    ensures (|xs| as real) * lo <= Sum(xs) <= (|xs| as real) * hi
    decreases |xs|
  {
    if xs != [] {
      SumBounds(xs[..|xs| - 1], lo, hi);
    }
  }

  /** A mean lies between any lower and upper bound of its terms. */
  lemma MeanBounds(xs: seq<real>, lo: real, hi: real)
    requires xs != []
    requires forall i | 0 <= i < |xs| :: lo <= xs[i] <= hi
    ensures lo <= Mean(xs) <= hi
  {
    SumBounds(xs, lo, hi);
    var n := |xs| as real;
    var m := Mean(xs);
    assert m * n == Sum(xs);
    assert (m - lo) * n >= 0.0 && (hi - m) * n >= 0.0;
    DivSign(m - lo, n);
    DivSign(hi - m, n);
  }

  lemma DivSign(x: real, n: real)
    requires n > 0.0 && x * n >= 0.0
    ensures x >= 0.0
  {
    assert x == (x * n) / n;
  }

  /** All vectors have the dimension of the first: what `np.array` needs to
      build a matrix. */
  ghost predicate Uniform(vs: seq<Vec>) {
    forall i | 0 <= i < |vs| :: |vs[i]| == |vs[0]|
  }

  /** Component `j` of every vector. */
  function Column(vs: seq<Vec>, j: nat): (c: seq<real>)
    requires forall i | 0 <= i < |vs| :: j < |vs[i]|
    ensures |c| == |vs| && forall i | 0 <= i < |vs| :: c[i] == vs[i][j]
  {
    seq(|vs|, i requires 0 <= i < |vs| => vs[i][j])
  }

  /** `np.mean(vs, axis=0)`: the component-wise mean. */
  function MeanVec(vs: seq<Vec>): (m: Vec)
    requires vs != [] && Uniform(vs)
    ensures |m| == |vs[0]|
  {
    seq(|vs[0]|, j requires 0 <= j < |vs[0]| => Mean(Column(vs, j)))
  }

  /** Each component of the mean lies between the smallest and the largest
      value of that component among the vectors. */
  lemma MeanVecBounds(vs: seq<Vec>, j: nat, lo: real, hi: real)
    requires vs != [] && Uniform(vs) && j < |vs[0]|
    requires forall i | 0 <= i < |vs| :: lo <= vs[i][j] <= hi
    ensures lo <= MeanVec(vs)[j] <= hi
  {
    MeanBounds(Column(vs, j), lo, hi);
  }

  lemma {:induction false} SumConst(xs: seq<real>, c: real)
    requires forall i | 0 <= i < |xs| :: xs[i] == c
    ensures Sum(xs) == (|xs| as real) * c
    decreases |xs|
  {
    if xs != [] {
      SumConst(xs[..|xs| - 1], c);
    }
  }

  /** The mean of copies of one vector is that vector. */
  lemma MeanVecOfCopies(vs: seq<Vec>, v: Vec)
    requires vs != [] && forall i | 0 <= i < |vs| :: vs[i] == v
    ensures Uniform(vs) && MeanVec(vs) == v
  {
    forall j | 0 <= j < |v| ensures MeanVec(vs)[j] == v[j] {
      SumConst(Column(vs, j), v[j]);
    }
  }

  /** `np.dot`. */
  function Dot(a: Vec, b: Vec): real
    requires |a| == |b|
    decreases |a|
  {
    if a == [] then 0.0 else Dot(a[..|a| - 1], b[..|b| - 1]) + a[|a| - 1] * b[|b| - 1]
  }

  lemma {:induction false} DotSymmetric(a: Vec, b: Vec)
    requires |a| == |b|
    ensures Dot(a, b) == Dot(b, a)
    decreases |a|
  {
    if a != [] {
      DotSymmetric(a[..|a| - 1], b[..|b| - 1]);
    }
  }
}
