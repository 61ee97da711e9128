/** The small tensor helpers of the memory module: the product reduction used
    for tensor sizes, affine uniform sampling, row indexing, and the vector
    arithmetic the memory applies to its keys. */
module Tensor {

  /** A row of a float tensor, modelled with exact reals. */
  type Vector = seq<real>

  /** functools.reduce(lambda x, y: x * y, xs, 1): a left fold of `*` from 1. */
  function Multiply(xs: seq<int>): int
  {
    if xs == [] then 1 else Multiply(xs[..|xs| - 1]) * xs[|xs| - 1]
  }

  /** The product of a concatenation is the product of the parts. */
  lemma {:induction false} MultiplyAppend(xs: seq<int>, ys: seq<int>)
    ensures Multiply(xs + ys) == Multiply(xs) * Multiply(ys)
  {
    if ys == [] {
      assert xs + ys == xs;
    } else {
      var init := ys[..|ys| - 1];
      assert (xs + ys)[..|xs + ys| - 1] == xs + init;
      MultiplyAppend(xs, init);
    }
  }

  /** A size is zero exactly when one of its dimensions is zero. */
  lemma {:induction false} MultiplyZero(xs: seq<int>)
    ensures Multiply(xs) == 0 <==> 0 in xs
  {
    if xs != [] {
      var init := xs[..|xs| - 1];
      assert xs == init + [xs[|xs| - 1]];
      MultiplyZero(init);
    }
  }

  /** Appending a dimension of size 1 keeps the number of elements, as for
      the (rows x 1) column tensors the age noise is drawn in. */
  lemma ColumnSize(shape: seq<int>)
    ensures Multiply(shape + [1]) == Multiply(shape)
  {
    assert (shape + [1])[..|shape|] == shape;
  }

  /** random_uniform(shape, low, high): `unit` stands for the Multiply(shape)
      samples in [0, 1) that torch.rand draws; each is mapped affinely by
      (high - low) * u + low. */
  function RandomUniform(shape: seq<nat>, unit: seq<real>, low: real, high: real): (r: seq<real>)
    requires |unit| == Multiply(shape)
    requires forall i :: 0 <= i < |unit| ==> 0.0 <= unit[i] < 1.0
    ensures |r| == |unit|
    ensures low <= high ==> forall i :: 0 <= i < |r| ==> low <= r[i] <= high
    ensures low < high ==> forall i :: 0 <= i < |r| ==> r[i] < high
    ensures low != high ==> forall i :: 0 <= i < |r| ==> (r[i] - low) / (high - low) == unit[i]
  {
    var r := seq(|unit|, i requires 0 <= i < |unit| => (high - low) * unit[i] + low);
    AffineSamples(unit, r, low, high);
    r
  }

  /** The affine map u |-> (high - low) * u + low sends [0, 1) into [low, high)
      and can be undone when low != high. */
  lemma AffineSamples(unit: seq<real>, r: seq<real>, low: real, high: real)
    requires |r| == |unit|
    requires forall i :: 0 <= i < |unit| ==> 0.0 <= unit[i] < 1.0
    requires forall i :: 0 <= i < |r| ==> r[i] == (high - low) * unit[i] + low
    ensures low <= high ==> forall i :: 0 <= i < |r| ==> low <= r[i] <= high
    ensures low < high ==> forall i :: 0 <= i < |r| ==> r[i] < high
    ensures low != high ==> forall i :: 0 <= i < |r| ==> (r[i] - low) / (high - low) == unit[i]
  {
    forall i | 0 <= i < |r|
      ensures low <= high ==> low <= r[i] <= high
      ensures low < high ==> r[i] < high
      ensures low != high ==> (r[i] - low) / (high - low) == unit[i]
    {
      if low <= high {
        AffineSampleWithin(unit[i], low, high);
      }
      if low < high {
        AffineSampleBelow(unit[i], low, high);
      }
      if low != high {
        AffineSampleInverse(unit[i], low, high);
      }
    }
  }

  /** A product of non-negative reals is non-negative. */
  lemma ProductNonNegative(a: real, b: real)
    requires a >= 0.0 && b >= 0.0
    ensures a * b >= 0.0
  {
  }

  /** A product of positive reals is positive. */
  lemma ProductPositive(a: real, b: real)
    requires a > 0.0 && b > 0.0
    ensures a * b > 0.0
  {
  }

  /** Division undoes multiplication by a non-zero real. */
  lemma ProductQuotient(a: real, b: real)
    requires a != 0.0
    ensures (a * b) / a == b
  {
  }

  /** Multiplication distributes over subtraction. */
  lemma ProductDistributes(a: real, b: real, c: real)
    ensures a * (b - c) == a * b - a * c
  {
  }

  /** For low <= high, one sample in [0, 1) lands in [low, high]. */
  lemma AffineSampleWithin(u: real, low: real, high: real)
    requires 0.0 <= u < 1.0 && low <= high
    ensures low <= (high - low) * u + low <= high
  {
    var d := high - low;
    ProductNonNegative(d, u);
    ProductNonNegative(d, 1.0 - u);
    ProductDistributes(d, 1.0, u);
    assert d * 1.0 == d;
  }

  /** For low < high, one sample in [0, 1) lands below high. */
  lemma AffineSampleBelow(u: real, low: real, high: real)
    requires 0.0 <= u < 1.0 && low < high
    ensures (high - low) * u + low < high
  {
    var d := high - low;
    var e := 1.0 - u;
    ProductPositive(d, e);
    ProductDistributes(d, 1.0, u);
    assert d * 1.0 == d;
    assert d * e == d - d * u;
    assert d * u < d;
    assert d * u + low < high;
  }

  /** For low != high, the sample is recovered from its image. */
  lemma AffineSampleInverse(u: real, low: real, high: real)
    requires low != high
    ensures (((high - low) * u + low) - low) / (high - low) == u
  {
    var d := high - low;
    assert (d * u + low) - low == d * u;
    ProductQuotient(d, u);
  }

  /** Samples keep their order: the affine map is monotone when low <= high. */
  lemma RandomUniformMonotone(shape: seq<nat>, unit: seq<real>, low: real, high: real, i: nat, j: nat)
    requires |unit| == Multiply(shape)
    requires forall k :: 0 <= k < |unit| ==> 0.0 <= unit[k] < 1.0
    requires low < high && i < |unit| && j < |unit|
    ensures var r := RandomUniform(shape, unit, low, high);
      unit[i] <= unit[j] <==> r[i] <= r[j]
  {
    var r := RandomUniform(shape, unit, low, high);
    assert r[i] == (high - low) * unit[i] + low && r[j] == (high - low) * unit[j] + low;
    AffineOrder(unit[i], unit[j], low, high);
  }

  /** The affine map with low < high is strictly increasing. */
  lemma AffineOrder(u: real, v: real, low: real, high: real)
    requires low < high
    ensures u <= v <==> (high - low) * u + low <= (high - low) * v + low
  {
    var d := high - low;
    assert d * v - d * u == d * (v - u);
    if u <= v {
      assert d * (v - u) >= 0.0;
    } else {
      assert d * (u - v) > 0.0;
    }
  }

  /** index(batch_size, x): prepends to row i of x the column value i. */
  function Index(batchSize: nat, x: seq<seq<int>>): (r: seq<seq<int>>)
    requires |x| == batchSize
    ensures |r| == batchSize
    ensures forall i :: 0 <= i < batchSize ==> |r[i]| == |x[i]| + 1 && r[i][0] == i && r[i][1..] == x[i]
  {
    seq(batchSize, i requires 0 <= i < batchSize => [i] + x[i])
  }

  /** Element-wise sum of two rows of equal width. */
  function Add(u: Vector, v: Vector): (w: Vector)
    requires |u| == |v|
    ensures |w| == |u|
  {
    seq(|u|, i requires 0 <= i < |u| => u[i] + v[i])
  }

  /** Dot product of two rows of equal width: one entry of torch.matmul. */
  function Dot(u: Vector, v: Vector): real
    requires |u| == |v|
  {
    if u == [] then 0.0 else Dot(u[..|u| - 1], v[..|v| - 1]) + u[|u| - 1] * v[|v| - 1]
  }

  /** Sum of a sequence of reals, folded from the left. */
  function Sum(s: seq<real>): real
  {
    if s == [] then 0.0 else Sum(s[..|s| - 1]) + s[|s| - 1]
  }

  /** A sum of non-negative terms is non-negative, and zero exactly when every term is. */
  lemma {:induction false} SumNonNegative(s: seq<real>)
    requires forall i :: 0 <= i < |s| ==> s[i] >= 0.0
    ensures Sum(s) >= 0.0
    ensures Sum(s) == 0.0 <==> forall i :: 0 <= i < |s| ==> s[i] == 0.0
  {
    if s != [] {
      var init := s[..|s| - 1];
      SumNonNegative(init);
      assert forall i :: 0 <= i < |init| ==> init[i] == s[i];
    }
  }
}
