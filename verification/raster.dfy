/** Single-channel 8-bit raster images ("L" mode), the value every stage of
    the image normaliser passes on. A grid is a sequence of rows, each row a
    sequence of grey levels: `g[row][column]`, row index first. */
module Raster {

  /** The fixed side of the model's input frame (`target_size = (28, 28)`). */
  const Side: nat := 28

  /** The brightest grey level of an 8-bit luminance image. */
  const MaxLevel: nat := 255

  /** One grey level of a luminance image. */
  type Pixel = v: int | 0 <= v <= 255

  type Grid = seq<seq<Pixel>>

  /** `g` has exactly `h` rows, each of exactly `w` entries. */
  predicate IsRect<T>(g: seq<seq<T>>, h: int, w: int) {
    |g| == h && forall r :: 0 <= r < |g| ==> |g[r]| == w
  }

  function Height<T>(g: seq<seq<T>>): nat {
    |g|
  }

  function Width<T>(g: seq<seq<T>>): nat {
    if |g| == 0 then 0 else |g[0]|
  }

  predicate IsRectangular<T>(g: seq<seq<T>>) {
    IsRect(g, Height(g), Width(g))
  }

  /** A decoded image: rectangular, with at least one pixel. */
  predicate IsImage(g: Grid) {
    Height(g) >= 1 && Width(g) >= 1 && IsRectangular(g)
  }

  /** Number of pixels of a grid, row by row. */
  function Count<T>(g: seq<seq<T>>): nat {
    if |g| == 0 then 0 else Count(g[..|g| - 1]) + |g[|g| - 1]|
  }

  function RowSum(s: seq<Pixel>): int {
    if |s| == 0 then 0 else RowSum(s[..|s| - 1]) + s[|s| - 1]
  }

  /** Sum of all grey levels of a grid. */
  function Sum(g: Grid): int {
    if |g| == 0 then 0 else Sum(g[..|g| - 1]) + RowSum(g[|g| - 1])
  }

  /** An `h` by `w` grid of black pixels (`Image.new("L", size, 0)`). */
  function Blank(h: nat, w: nat): (g: Grid)
    ensures IsRect(g, h, w)
    ensures forall r, c :: 0 <= r < h && 0 <= c < w ==> g[r][c] == 0
  {
    seq(h, _ => seq(w, _ => 0))
  }

  /** A rectangular grid has height times width pixels. */
  lemma {:induction false} CountOfRect<T>(g: seq<seq<T>>, h: nat, w: nat)
    requires IsRect(g, h, w)
    ensures Count(g) == h * w
  {
    if h > 0 {
      CountOfRect(g[..h - 1], h - 1, w);
      assert Count(g) == (h - 1) * w + w;
    }
  }

  /** Every row sum lies between 0 and 255 times the row's length. */
  lemma {:induction false} RowSumBounds(s: seq<Pixel>)
    ensures 0 <= RowSum(s) <= MaxLevel * |s|
  {
    if |s| > 0 {
      RowSumBounds(s[..|s| - 1]);
    }
  }

  /** The sum of a concatenated row is the sum of its parts. */
  lemma {:induction false} RowSumAppend(a: seq<Pixel>, b: seq<Pixel>)
    ensures RowSum(a + b) == RowSum(a) + RowSum(b)
    decreases |b|
  {
    if |b| > 0 {
      assert (a + b)[..|a + b| - 1] == a + b[..|b| - 1];
      RowSumAppend(a, b[..|b| - 1]);
    } else {
      assert a + b == a;
    }
  }

  /** An all-black row sums to 0. */
  lemma {:induction false} RowSumZero(s: seq<Pixel>)
    requires forall c :: 0 <= c < |s| ==> s[c] == 0
    ensures RowSum(s) == 0
  {
    if |s| > 0 {
      RowSumZero(s[..|s| - 1]);
    }
  }

  /** The grey-level sum lies between 0 and 255 times the pixel count. */
  lemma {:induction false} SumBounds(g: Grid)
    ensures 0 <= Sum(g) <= MaxLevel * Count(g)
  {
    if |g| > 0 {
      SumBounds(g[..|g| - 1]);
      RowSumBounds(g[|g| - 1]);
    }
  }
}
