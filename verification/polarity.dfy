/** Polarity normalisation (main.py:31-32): the classifier expects light
    strokes on a dark ground, so an image whose mean grey level is above the
    mid-level 127 is inverted. */
module Polarity {
  import opened Raster

  /** The mean grey level above which an image is inverted. */
  const Threshold: int := 127

  /** The mean grey level, as numpy computes it for a non-empty image. */
  function Mean(g: Grid): real
    requires Count(g) > 0
  {
    Sum(g) as real / Count(g) as real
  }

  /** `np.mean(img) > 127`, decided without division. For an image without
      pixels numpy's mean is NaN, and NaN > 127 is false; the integer test
      agrees, since the sum of no pixels is 0. */
  predicate ShouldInvert(g: Grid) {
    Sum(g) > Threshold * Count(g)
  }

  /** The integer test is the mean test: for a non-empty image it holds
      exactly when the mean exceeds 127, and an empty image is never
      inverted. */
  lemma ShouldInvertIffMeanAbove(g: Grid)
    ensures Count(g) > 0 ==> (ShouldInvert(g) <==> Mean(g) > Threshold as real)
    ensures Count(g) == 0 ==> !ShouldInvert(g)
  {
    SumBounds(g);
    if Count(g) > 0 {
      QuotientAbove(Sum(g) as real, Count(g) as real, Threshold as real);
    }
  }

  /** For a positive divisor, a quotient exceeds t exactly when the dividend
      exceeds t times the divisor. */
  lemma QuotientAbove(s: real, n: real, t: real)
    requires n > 0.0
    ensures s / n > t <==> s > t * n
  {
    var q := s / n;
    assert q * n == s;
    assert (q - t) * n == s - t * n;
    if q > t {
      assert (q - t) * n > 0.0;
    } else {
      assert (q - t) * n <= 0.0;
    }
  }

  function InvertRow(s: seq<Pixel>): (r: seq<Pixel>)
    ensures |r| == |s|
    ensures forall c :: 0 <= c < |s| ==> r[c] as int + s[c] as int == MaxLevel
  {
    seq(|s|, c requires 0 <= c < |s| => MaxLevel - s[c])
  }

  /** `ImageOps.invert` on an "L" image: every grey level v becomes 255 - v.
      The result stays in 0..255 because it is a `Grid` of `Pixel`s. */
  function Invert(g: Grid): (r: Grid)
    ensures |r| == |g|
    ensures forall i :: 0 <= i < |g| ==> |r[i]| == |g[i]|
    ensures forall i, j :: 0 <= i < |g| && 0 <= j < |g[i]| ==> r[i][j] as int + g[i][j] as int == MaxLevel
  {
    seq(|g|, i requires 0 <= i < |g| => InvertRow(g[i]))
  }

  /** Inverting twice gives back the original image. */
  lemma InvertInvolution(g: Grid)
    ensures Invert(Invert(g)) == g
  {
    var h := Invert(Invert(g));
    assert |h| == |g|;
    forall i | 0 <= i < |g|
      ensures h[i] == g[i]
    {
      assert |h[i]| == |g[i]|;
    }
  }

  /** Inversion keeps the width and height of an image. */
  lemma InvertKeepsShape(g: Grid, hgt: int, wid: int)
    requires IsRect(g, hgt, wid)
    ensures IsRect(Invert(g), hgt, wid)
  {
  }

  lemma {:induction false} InvertRowSum(s: seq<Pixel>)
    ensures RowSum(InvertRow(s)) == MaxLevel * |s| - RowSum(s)
  {
    if |s| > 0 {
      var n := |s|;
      assert InvertRow(s)[..n - 1] == InvertRow(s[..n - 1]);
      InvertRowSum(s[..n - 1]);
    }
  }

  /** Inversion reflects the grey-level sum about 255 times the pixel count. */
  lemma {:induction false} InvertSum(g: Grid)
    ensures Sum(Invert(g)) == MaxLevel * Count(g) - Sum(g)
  {
    if |g| > 0 {
      var n := |g|;
      assert Invert(g)[..n - 1] == Invert(g[..n - 1]);
      assert Count(Invert(g)) == Count(Invert(g[..n - 1])) + |g[n - 1]|;
      InvertSum(g[..n - 1]);
      InvertRowSum(g[n - 1]);
    }
  }

  /** The polarity step of `transform_image`: invert when the mean exceeds
      127, otherwise leave the image as it is. */
  function FixPolarity(g: Grid): (r: Grid)
    ensures |r| == |g|
    ensures forall i :: 0 <= i < |g| ==> |r[i]| == |g[i]|
    ensures ShouldInvert(g) ==>
      forall i, j :: 0 <= i < |g| && 0 <= j < |g[i]| ==> r[i][j] == MaxLevel - g[i][j]
    ensures !ShouldInvert(g) ==> r == g
    ensures Sum(g) == Threshold * Count(g) ==> r == g
  {
    if ShouldInvert(g) then Invert(g) else g
  }

  /** Polarity fixing keeps an image an image of the same size. */
  lemma FixPolarityKeepsShape(g: Grid)
    requires IsImage(g)
    ensures IsImage(FixPolarity(g))
    ensures Height(FixPolarity(g)) == Height(g) && Width(FixPolarity(g)) == Width(g)
  {
  }

  /** After the polarity step the mean grey level is below 128. It need not
      be at most 127: see `InversionCanLeaveMeanAbove`. */
  lemma FixPolarityBound(g: Grid)
    requires Count(g) > 0
    ensures Sum(FixPolarity(g)) < (Threshold + 1) * Count(g)
  {
    if ShouldInvert(g) {
      InvertSum(g);
    }
  }

  /** A mean strictly between 127 and 128 stays above 127 after inversion:
      the one-row image [127, 128] is inverted to [128, 127], which the same
      test would invert again. The step is therefore not idempotent on
      every input. */
  lemma InversionCanLeaveMeanAbove()
    ensures var g: Grid := [[127, 128]];
      ShouldInvert(g) && FixPolarity(g) == [[128, 127]] && ShouldInvert(FixPolarity(g))
  {
    var g: Grid := [[127, 128]];
    assert g[..0] == [];
    assert g[0][..1] == [127];
    assert [127, 128][..1] == [127];
    assert RowSum([127]) == 127 by { assert [127][..0] == []; }
    assert RowSum([127, 128]) == 255;
    assert Sum(g) == 255;
    assert Count(g) == 2;
    assert Invert(g)[0] == [128, 127];
    assert Invert(g) == [[128, 127]];
    var f: Grid := [[128, 127]];
    assert f[..0] == [];
    assert f[0][..1] == [128];
    assert RowSum([128]) == 128 by { assert [128][..0] == []; }
    assert RowSum([128, 127]) == 255 by { assert [128, 127][..1] == [128]; }
    assert Sum(f) == 255;
    assert Count(f) == 2;
  }
}
