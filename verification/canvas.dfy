/** Centring the resized image on a fixed 28 by 28 black frame
    (main.py:35-38): the frame is allocated whole and the image is pasted at
    the offsets that centre it, rounding the margins down. */
module Canvas {
  import opened Raster

  /** The paste offset along one axis for a block of `extent` pixels:
      `(28 - extent) // 2`. The numerator is never negative, so Python's
      floor division and Dafny's division agree. The block fits, and the
      near margin is never larger than the far one, which exceeds it by at
      most one pixel. */
  function Offset(extent: int): (off: int)
    requires 1 <= extent <= Side
    ensures 0 <= off && off + extent <= Side
    ensures off <= Side - (off + extent) <= off + 1
  {
    (Side - extent) / 2
  }

  /** The margin property pins the offset down: no other offset splits the
      free space that way. */
  lemma OffsetIsUnique(extent: int, off: int)
    requires 1 <= extent <= Side
    requires 0 <= off && off <= Side - (off + extent) <= off + 1
    ensures off == Offset(extent)
  {
  }

  /** One row of a paste: `block` replaces the entries from column `x` on,
      and nothing else in the row changes. */
  function PasteRow(row: seq<Pixel>, block: seq<Pixel>, x: int): (r: seq<Pixel>)
    requires 0 <= x && x + |block| <= |row|
    ensures |r| == |row|
    ensures forall c :: 0 <= c < x ==> r[c] == row[c]
    ensures forall c :: x <= c < x + |block| ==> r[c] == block[c - x]
    ensures forall c :: x + |block| <= c < |row| ==> r[c] == row[c]
  {
    row[..x] + block + row[x + |block|..]
  }

  /** `canvas.paste(img, (x, y))` for a block that lies inside the canvas:
      the rows `y` to `y + height - 1` get the block's rows spliced in at
      column `x`; every other row is left as it is. */
  function Paste(canvas: Grid, img: Grid, x: int, y: int): (r: Grid)
    requires IsRectangular(canvas) && IsRectangular(img)
    requires 0 <= x && x + Width(img) <= Width(canvas)
    requires 0 <= y && y + Height(img) <= Height(canvas)
    ensures IsRect(r, Height(canvas), Width(canvas))
    ensures forall i, j :: 0 <= i < Height(canvas) && 0 <= j < Width(canvas) ==>
      r[i][j] == if y <= i < y + Height(img) && x <= j < x + Width(img)
                 then img[i - y][j - x] else canvas[i][j]
  {
    seq(|canvas|, i requires 0 <= i < |canvas| =>
      if y <= i < y + |img| then PasteRow(canvas[i], img[i - y], x) else canvas[i])
  }

  /** Whether frame position (i, j) lies in the block where an image of
      `img`'s size is pasted when centred. */
  predicate InBlock(img: Grid, i: int, j: int)
    requires 1 <= Height(img) <= Side && 1 <= Width(img) <= Side
  {
    var top, left := Offset(Height(img)), Offset(Width(img));
    top <= i < top + Height(img) && left <= j < left + Width(img)
  }

  /** The image pasted, centred, on a black 28 by 28 frame. Every pixel in
      the block is the image pixel at the same place relative to the block's
      corner; every pixel outside it is black. */
  function Center(img: Grid): (r: Grid)
    requires IsRectangular(img)
    requires 1 <= Height(img) <= Side && 1 <= Width(img) <= Side
    ensures IsRect(r, Side, Side)
    ensures forall i, j :: 0 <= i < Side && 0 <= j < Side && !InBlock(img, i, j) ==> r[i][j] == 0
    ensures forall i, j :: 0 <= i < Side && 0 <= j < Side && InBlock(img, i, j) ==>
      r[i][j] == img[i - Offset(Height(img))][j - Offset(Width(img))]
  {
    Paste(Blank(Side, Side), img, Offset(Width(img)), Offset(Height(img)))
  }

  /** An image that already fills the frame is pasted at the corner and
      comes back unchanged. */
  lemma CenterFullFrame(img: Grid)
    requires IsRect(img, Side, Side)
    ensures Center(img) == img
  {
    var c := Center(img);
    assert Offset(Side) == 0;
    forall i | 0 <= i < Side
      ensures c[i] == img[i]
    {
      assert forall j :: 0 <= j < Side ==> InBlock(img, i, j);
    }
  }

  lemma {:induction false} PasteRowSum(row: seq<Pixel>, block: seq<Pixel>, x: int)
    requires 0 <= x && x + |block| <= |row|
    requires forall c :: 0 <= c < |row| ==> row[c] == 0
    ensures RowSum(PasteRow(row, block, x)) == RowSum(block)
  {
    RowSumAppend(row[..x] + block, row[x + |block|..]);
    RowSumAppend(row[..x], block);
    RowSumZero(row[..x]);
    RowSumZero(row[x + |block|..]);
  }

  function Clamp(v: int, lo: int, hi: int): int
    requires lo <= hi
  {
    if v < lo then lo else if v > hi then hi else v
  }

  /** Each row of a centred frame sums to the image row it carries, or to 0
      outside the block. */
  lemma CenterRowSum(img: Grid, i: int)
    requires IsRectangular(img)
    requires 1 <= Height(img) <= Side && 1 <= Width(img) <= Side
    requires 0 <= i < Side
    ensures var top := Offset(Height(img));
      RowSum(Center(img)[i]) == if top <= i < top + Height(img) then RowSum(img[i - top]) else 0
  {
    var top, left := Offset(Height(img)), Offset(Width(img));
    var blank := Blank(Side, Side);
    if top <= i < top + Height(img) {
      assert Center(img)[i] == PasteRow(blank[i], img[i - top], left);
      PasteRowSum(blank[i], img[i - top], left);
    } else {
      RowSumZero(Center(img)[i]);
    }
  }

  /** Row `i` of `frame` sums to row `i - top` of `img` inside the rows
      `img` occupies, and to 0 elsewhere. */
  predicate RowsCarry(frame: Grid, img: Grid, top: int) {
    forall i :: 0 <= i < |frame| ==>
      RowSum(frame[i]) == if top <= i < top + |img| then RowSum(img[i - top]) else 0
  }

  /** Sum of the first `k` rows of a frame whose rows `top` onwards carry
      the rows of `img` and whose other rows are black: the rows of `img`
      that lie above row `k`. */
  lemma {:induction false} FramePrefixSum(frame: Grid, img: Grid, top: int, k: nat)
    requires 0 <= top && top + |img| <= |frame| && k <= |frame|
    requires RowsCarry(frame, img, top)
    ensures Sum(frame[..k]) == Sum(img[..Clamp(k - top, 0, |img|)])
  {
    if k > 0 {
      FramePrefixSum(frame, img, top, k - 1);
      assert frame[..k][..k - 1] == frame[..k - 1];
      var n := Clamp(k - top, 0, |img|);
      if top <= k - 1 < top + |img| {
        assert img[..n][..n - 1] == img[..n - 1];
      }
    }
  }

  /** The row sums of a centred frame, all rows at once. */
  lemma CenterRowSums(img: Grid)
    requires IsRectangular(img)
    requires 1 <= Height(img) <= Side && 1 <= Width(img) <= Side
    ensures RowsCarry(Center(img), img, Offset(Height(img)))
  {
    forall i | 0 <= i < Side
      ensures RowSum(Center(img)[i]) ==
        if Offset(Height(img)) <= i < Offset(Height(img)) + |img| then RowSum(img[i - Offset(Height(img))]) else 0
    {
      CenterRowSum(img, i);
    }
  }

  /** Centring neither loses nor invents intensity: the frame's grey-level
      sum is the image's. */
  lemma CenterKeepsSum(img: Grid)
    requires IsRectangular(img)
    requires 1 <= Height(img) <= Side && 1 <= Width(img) <= Side
    ensures Sum(Center(img)) == Sum(img)
  {
    var c, top := Center(img), Offset(Height(img));
    CenterRowSums(img);
    FramePrefixSum(c, img, top, Side);
    assert c[..Side] == c;
    assert Clamp(Side - top, 0, |img|) == |img|;
    assert img[..|img|] == img;
  }
}
