/** `transform_image` (main.py:29-41): the decoded luminance image is
    polarity-fixed, shrunk to fit 28 by 28, centred on a black frame,
    scaled to [0, 1] and wrapped as a 1 x 28 x 28 x 1 tensor. */
module Normalizer {
  import opened Raster
  import opened Polarity
  import opened Canvas
  import opened Tensor

  /** What `img.thumbnail((28, 28), LANCZOS)` is assumed to do; the
      resampling itself is not modelled, so the resized grey levels are left
      open. An image that already fits the 28 by 28 box is returned as it
      is; any other comes back with both sides between 1 and 28 and neither
      side larger than before. */
  predicate IsThumbnail(src: Grid, small: Grid) {
    && IsImage(small)
    && Height(small) <= Side && Width(small) <= Side
    && Height(small) <= Height(src) && Width(small) <= Width(src)
    && (Height(src) <= Side && Width(src) <= Side ==> small == src)
  }

  /** The image after the polarity step and the thumbnail step. */
  function Resized(src: Grid, thumbnail: Grid -> Grid): Grid {
    thumbnail(FixPolarity(src))
  }

  /** The 28 by 28 frame the pipeline builds before scaling. */
  function Framed(src: Grid, thumbnail: Grid -> Grid): (f: Grid)
    requires IsThumbnail(FixPolarity(src), Resized(src, thumbnail))
    ensures IsRect(f, Side, Side)
  {
    Center(Resized(src, thumbnail))
  }

  /** `transform_image` on a decoded image. The output always has the
      model's shape 1 x 28 x 28 x 1 whatever the source size; every value
      lies in [0, 1]; values outside the centred block are 0, and each value
      inside is the resized pixel at the same place in the block, over 255. */
  function TransformImage(src: Grid, thumbnail: Grid -> Grid): (t: Tensor4)
    requires IsImage(src)
    requires IsThumbnail(FixPolarity(src), Resized(src, thumbnail))
    ensures IsCanonical(t)
    ensures forall i, j :: 0 <= i < Side && 0 <= j < Side ==> 0.0 <= t[0][i][j][0] <= 1.0
    ensures var small := Resized(src, thumbnail);
      forall i, j :: 0 <= i < Side && 0 <= j < Side && !InBlock(small, i, j) ==> t[0][i][j][0] == 0.0
    ensures var small := Resized(src, thumbnail);
      forall i, j :: 0 <= i < Side && 0 <= j < Side && InBlock(small, i, j) ==>
        t[0][i][j][0] * MaxLevel as real
        == small[i - Offset(Height(small))][j - Offset(Width(small))] as real
  {
    var frame := Framed(src, thumbnail);
    var t := Reshape(Normalise(frame));
    assert forall i, j :: 0 <= i < Side && 0 <= j < Side ==> t[0][i][j][0] == Normalise(frame)[i][j];
    t
  }

  /** The frame can be read back from the tensor: the tensor, scaled back to
      grey levels, is exactly the centred 28 by 28 frame. */
  lemma TransformRecoversFrame(src: Grid, thumbnail: Grid -> Grid)
    requires IsImage(src)
    requires IsThumbnail(FixPolarity(src), Resized(src, thumbnail))
    ensures InUnitRange(Unshape(TransformImage(src, thumbnail)))
    ensures Denormalise(Unshape(TransformImage(src, thumbnail))) == Framed(src, thumbnail)
  {
    var frame := Framed(src, thumbnail);
    ReshapeRoundTrip(Normalise(frame), []);
    DenormaliseNormalise(frame);
  }

  /** The frame holds as much intensity as the polarity-fixed, resized
      image: centring adds only black. */
  lemma FramedKeepsSum(src: Grid, thumbnail: Grid -> Grid)
    requires IsImage(src)
    requires IsThumbnail(FixPolarity(src), Resized(src, thumbnail))
    ensures Sum(Framed(src, thumbnail)) == Sum(Resized(src, thumbnail))
  {
    CenterKeepsSum(Resized(src, thumbnail));
  }

  /** A 28 by 28 image that the mean test leaves alone passes through the
      pipeline untouched except for scaling: it is not inverted, the
      thumbnail step leaves it as it is, and it is pasted at the corner. */
  lemma TransformCanonicalFrame(g: Grid, thumbnail: Grid -> Grid)
    requires IsRect(g, Side, Side)
    requires Sum(g) <= Threshold * Count(g)
    requires IsThumbnail(g, thumbnail(g))
    ensures IsImage(g) && IsThumbnail(FixPolarity(g), Resized(g, thumbnail))
    ensures TransformImage(g, thumbnail) == Reshape(Normalise(g))
  {
    assert FixPolarity(g) == g;
    CenterFullFrame(g);
  }

  /** Re-normalising a tensor the pipeline produced gives the same tensor,
      provided the frame read back from it has mean at most 127. Above that
      mean the frame is inverted again (`FrameAboveThresholdFlips`). */
  lemma RenormaliseIsIdentity(src: Grid, thumbnail: Grid -> Grid, thumbnail2: Grid -> Grid)
    requires IsImage(src)
    requires IsThumbnail(FixPolarity(src), Resized(src, thumbnail))
    requires var g := Framed(src, thumbnail);
      Sum(g) <= Threshold * Count(g) && IsThumbnail(g, thumbnail2(g))
    ensures var t := TransformImage(src, thumbnail);
      InUnitRange(Unshape(t))
      && var g := Denormalise(Unshape(t));
      IsImage(g) && IsThumbnail(FixPolarity(g), Resized(g, thumbnail2))
      && TransformImage(g, thumbnail2) == t
  {
    TransformRecoversFrame(src, thumbnail);
    var g := Framed(src, thumbnail);
    TransformCanonicalFrame(g, thumbnail2);
  }

  /** The converse of `TransformCanonicalFrame`: a 28 by 28 image whose mean
      exceeds 127 is inverted, and so does not come out as its own
      normalised, reshaped self. With `RenormaliseIsIdentity` this makes the
      mean condition necessary as well as sufficient. */
  lemma FrameAboveThresholdFlips(g: Grid, thumbnail: Grid -> Grid)
    requires IsRect(g, Side, Side)
    requires Sum(g) > Threshold * Count(g)
    requires IsThumbnail(FixPolarity(g), Resized(g, thumbnail))
    ensures IsImage(g)
    ensures TransformImage(g, thumbnail) != Reshape(Normalise(g))
  {
    var inv := Invert(g);
    assert FixPolarity(g) == inv;
    InvertKeepsShape(g, Side, Side);
    assert Resized(g, thumbnail) == inv;
    CenterFullFrame(inv);
    assert Framed(g, thumbnail) == inv;
    InvertedFrameDiffers(g);
  }

  /** No 28 by 28 image normalises to the same tensor as its inverse: at any
      pixel the two grey levels add up to the odd number 255. */
  lemma InvertedFrameDiffers(g: Grid)
    requires IsRect(g, Side, Side)
    ensures Reshape(Normalise(Invert(g))) != Reshape(Normalise(g))
  {
    var inv := Invert(g);
    assert inv[0][0] as int + g[0][0] as int == MaxLevel;
    assert inv[0][0] != g[0][0];
    DenormaliseNormalise(inv);
    DenormaliseNormalise(g);
    assert Normalise(inv) != Normalise(g);
    ReshapeRoundTrip(Normalise(inv), []);
    ReshapeRoundTrip(Normalise(g), []);
  }
}
