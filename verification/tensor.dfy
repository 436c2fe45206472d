/** The last stage of `transform_image` (main.py:39-40): grey levels are
    divided by 255 and the 28 by 28 frame is wrapped as a batch of one
    single-channel image, shape 1 x 28 x 28 x 1. Values are exact rationals
    (`real`), not IEEE doubles. */
module Tensor {
  import opened Raster

  type Matrix = seq<seq<real>>

  /** A four-dimensional array: batch, row, column, channel. */
  type Tensor4 = seq<seq<seq<seq<real>>>>

  /** The model's input contract: one batch element of 28 rows of 28
      columns of one channel. */
  predicate IsCanonical(t: Tensor4) {
    && |t| == 1
    && IsRect(t[0], Side, Side)
    && forall i, j :: 0 <= i < Side && 0 <= j < Side ==> |t[0][i][j]| == 1
  }

  /** `np.array(img) / 255.0`: every grey level v becomes v / 255, which
      lies in [0, 1]; black stays 0 and white becomes 1. */
  function Normalise(g: Grid): (m: Matrix)
    ensures |m| == |g|
    ensures forall i :: 0 <= i < |g| ==> |m[i]| == |g[i]|
    ensures forall i, j :: 0 <= i < |g| && 0 <= j < |g[i]| ==>
      0.0 <= m[i][j] <= 1.0 && m[i][j] * MaxLevel as real == g[i][j] as real
    ensures forall i, j :: 0 <= i < |g| && 0 <= j < |g[i]| ==> (m[i][j] == 0.0 <==> g[i][j] == 0)
  {
    seq(|g|, i requires 0 <= i < |g| =>
      seq(|g[i]|, j requires 0 <= j < |g[i]| => g[i][j] as real / MaxLevel as real))
  }

  /** Whether every entry of a matrix lies in [0, 1]. */
  predicate InUnitRange(m: Matrix) {
    forall i, j :: 0 <= i < |m| && 0 <= j < |m[i]| ==> 0.0 <= m[i][j] <= 1.0
  }

  /** The inverse of `Normalise`: scale back to 0..255, rounding down. */
  function Denormalise(m: Matrix): (g: Grid)
    requires InUnitRange(m)
    ensures |g| == |m|
    ensures forall i :: 0 <= i < |m| ==> |g[i]| == |m[i]|
  {
    seq(|m|, i requires 0 <= i < |m| =>
      seq(|m[i]|, j requires 0 <= j < |m[i]| => ToLevel(m[i][j])))
  }

  function ToLevel(v: real): Pixel
    requires 0.0 <= v <= 1.0
  {
    (v * MaxLevel as real).Floor
  }

  /** Normalisation loses nothing: scaling back recovers every grey level. */
  lemma DenormaliseNormalise(g: Grid)
    ensures InUnitRange(Normalise(g))
    ensures Denormalise(Normalise(g)) == g
  {
    var m := Normalise(g);
    var d := Denormalise(m);
    forall i | 0 <= i < |g|
      ensures d[i] == g[i]
    {
      forall j | 0 <= j < |g[i]|
        ensures d[i][j] == g[i][j]
      {
        assert m[i][j] * MaxLevel as real == g[i][j] as real;
      }
    }
  }

  /** Two images normalise to the same matrix only if they are equal. */
  lemma NormaliseInjective(g: Grid, h: Grid)
    requires Normalise(g) == Normalise(h)
    ensures g == h
  {
    DenormaliseNormalise(g);
    DenormaliseNormalise(h);
  }

  /** `reshape(1, 28, 28, 1)` of a 28 by 28 matrix. */
  function Reshape(m: Matrix): (t: Tensor4)
    requires IsRect(m, Side, Side)
    ensures IsCanonical(t)
    ensures forall i, j :: 0 <= i < Side && 0 <= j < Side ==> t[0][i][j][0] == m[i][j]
  {
    [seq(Side, i requires 0 <= i < Side =>
       seq(Side, j requires 0 <= j < Side => [m[i][j]]))]
  }

  /** Dropping the batch and channel axes again. */
  function Unshape(t: Tensor4): (m: Matrix)
    requires IsCanonical(t)
    ensures IsRect(m, Side, Side)
  {
    seq(Side, i requires 0 <= i < Side =>
      seq(Side, j requires 0 <= j < Side => t[0][i][j][0]))
  }

  /** Reshaping is a bijection between 28 by 28 matrices and canonical
      tensors: each direction undoes the other. */
  lemma ReshapeRoundTrip(m: Matrix, t: Tensor4)
    ensures IsRect(m, Side, Side) ==> Unshape(Reshape(m)) == m
    ensures IsCanonical(t) ==> Reshape(Unshape(t)) == t
  {
    if IsRect(m, Side, Side) {
      var u := Unshape(Reshape(m));
      assert forall i :: 0 <= i < Side ==> u[i] == m[i];
    }
    if IsCanonical(t) {
      var r := Reshape(Unshape(t));
      forall i | 0 <= i < Side
        ensures r[0][i] == t[0][i]
      {
        assert forall j :: 0 <= j < Side ==> r[0][i][j] == t[0][i][j];
      }
      assert r[0] == t[0];
    }
  }
}
