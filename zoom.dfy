/** Nearest-neighbour zoom: every source pixel becomes an `f` by `f` block of
    the zoomed image. Images are rasters indexed `[row, column]`, that is
    `[y, x]`; a pixel buffer is row-major, pixel `(x, y)` at `y * width + x`. */
module ImageZoom {
  import opened JavaInts

  /** `(y * f + d) / f == y` for an offset `d` inside the block. */
  lemma BlockDiv(y: int, d: int, f: int)
    requires 0 <= y && 0 <= d < f
    ensures (y * f + d) / f == y
  {
    DivModUnique(y * f + d, f, y, d);
  }

  /** Row `y` of `h` rows of `w` entries lies inside the buffer. */
  lemma RowInside(y: int, x: int, w: int, h: int)
    requires 0 <= y < h && 0 <= x < w
    ensures y * w + x < h * w
  {
    assert (y + 1) * w <= h * w by {
      MulMonotone(y + 1, h, w);
    }
  }

  lemma MulMonotone(a: int, b: int, c: int)
    requires a <= b && 0 <= c
    ensures a * c <= b * c
  {
  }

  /** A coordinate below `n * f` is in one of the first `n` blocks. */
  lemma DivLess(a: int, f: int, n: int)
    requires 0 <= a < n * f && 1 <= f
    ensures 0 <= a / f < n
  {
    if a / f >= n {
      MulMonotone(n, a / f, f);
    }
  }

  /** The source pixel of zoomed pixel `(X, Y)`: pixel `(X / f, Y / f)` of the buffer. */
  function SourcePixel(px: seq<int32>, f: int, w: int, h: int, Y: int, X: int): int32
    requires 1 <= f && 0 <= w && 0 <= h && h * w <= |px|
    requires 0 <= Y < h * f && 0 <= X < w * f
  {
    DivLess(Y, f, h);
    DivLess(X, f, w);
    RowInside(Y / f, X / f, w, h);
    px[(Y / f) * w + X / f]
  }

  /** Offset `d` of block `y` of `n` blocks of size `f` lies inside them. */
  lemma BlockInside(y: int, d: int, f: int, n: int)
    requires 0 <= y < n && 0 <= d < f
    ensures 0 <= y * f + d < n * f
  {
    MulMonotone(0, y, f);
    MulMonotone(y + 1, n, f);
  }

  /** The `(dx, dy)` pixel of block `(x, y)` shows buffer pixel `(x, y)`. */
  lemma SourceOfBlock(px: seq<int32>, f: int, w: int, h: int, y: int, x: int, dy: int, dx: int)
    requires 1 <= f && 0 <= w && 0 <= h && h * w <= |px|
    requires 0 <= y < h && 0 <= x < w && 0 <= dy < f && 0 <= dx < f
    requires 0 <= y * f + dy < h * f && 0 <= x * f + dx < w * f
    ensures (RowInside(y, x, w, h); SourcePixel(px, f, w, h, y * f + dy, x * f + dx) == px[y * w + x])
  {
    BlockDiv(y, dy, f);
    BlockDiv(x, dx, f);
    RowInside(y, x, w, h);
  }

  /** Every pixel of `out` is the source pixel of its block. */
  predicate ZoomOfBuffer(out: array2<int32>, px: seq<int32>, f: int, w: int, h: int)
    reads out
    requires 1 <= f && 0 <= w && 0 <= h && h * w <= |px|
  {
    out.Length0 == h * f && out.Length1 == w * f &&
    forall Y, X :: 0 <= Y < h * f && 0 <= X < w * f ==> out[Y, X] == SourcePixel(px, f, w, h, Y, X)
  }

  /** The `dy`/`dx` loops: block `[top, top + f) x [left, left + f)` set to `rgb`. */
  method FillBlock(out: array2<int32>, top: int, left: int, f: int, rgb: int32)
    requires 0 <= top && top + f <= out.Length0 && 0 <= left && left + f <= out.Length1
    modifies out
    ensures forall Y, X :: 0 <= Y < out.Length0 && 0 <= X < out.Length1 ==>
              out[Y, X] == if top <= Y < top + f && left <= X < left + f then rgb else old(out[Y, X])
  {
    var dy := 0;
    while dy < f
      invariant 0 <= dy <= f || f <= 0
      invariant forall Y, X :: 0 <= Y < out.Length0 && 0 <= X < out.Length1 ==>
                  out[Y, X] == if top <= Y < top + dy && left <= X < left + f then rgb else old(out[Y, X])
    {
      var dx := 0;
      while dx < f
        invariant 0 <= dx <= f
        invariant forall Y, X :: 0 <= Y < out.Length0 && 0 <= X < out.Length1 ==>
                    out[Y, X] == if (top <= Y < top + dy && left <= X < left + f) || (Y == top + dy && left <= X < left + dx)
                                 then rgb else old(out[Y, X])
      {
        out[top + dy, left + dx] := rgb;
        dx := dx + 1;
      }
      dy := dy + 1;
    }
  }

  /** The `x` loop for row of blocks `y`, whose first row of pixels is `top`. */
  method ZoomRow(out: array2<int32>, px: seq<int32>, f: int, w: int, h: int, y: int, top: int)
    requires 1 <= w && 1 <= h && 1 <= f && h * w <= |px| && 0 <= y < h && top == y * f
    requires out.Length0 == h * f && out.Length1 == w * f
    modifies out
    ensures forall Y, X :: 0 <= Y < out.Length0 && 0 <= X < out.Length1 ==>
              out[Y, X] == if top <= Y < top + f then SourcePixel(px, f, w, h, Y, X) else old(out[Y, X])
  {
    MulMonotone(y + 1, h, f);
    assert top + f <= h * f;
    var x, left := 0, 0;
    while x < w
      invariant 0 <= x <= w && left == x * f && left <= out.Length1
      invariant forall Y, X :: 0 <= Y < out.Length0 && 0 <= X < out.Length1 ==>
                  out[Y, X] == if top <= Y < top + f && X < left then SourcePixel(px, f, w, h, Y, X) else old(out[Y, X])
    {
      MulMonotone(x + 1, w, f);
      assert left + f == (x + 1) * f;
      RowInside(y, x, w, h);
      var rgb := px[y * w + x];
      forall Y, X | top <= Y < top + f && left <= X < left + f
        ensures SourcePixel(px, f, w, h, Y, X) == rgb
      {
        BlockInside(y, Y - top, f, h);
        BlockInside(x, X - left, f, w);
        SourceOfBlock(px, f, w, h, y, x, Y - top, X - left);
      }
      FillBlock(out, top, left, f, rgb);
      x, left := x + 1, left + f;
    }
    assert x == w;
    assert left == out.Length1;
  }

  /** `generateZoomedImage`: a `(w * f)` by `(h * f)` image in which pixel
      `(x * f + dx, y * f + dy)` is buffer pixel `(x, y)`. The source demands
      a positive size that fits a raster and a buffer holding `w * h` pixels;
      anything else throws out of the method. */
  method ZoomBuffer(px: seq<int32>, f: int, w: int, h: int) returns (out: array2<int32>)
    requires 1 <= w && 1 <= h && 1 <= f && (w * f) * (h * f) <= INT_MAX && h * w <= |px|
    ensures ZoomOfBuffer(out, px, f, w, h)
  {
    out := new int32[h * f, w * f];
    var y, top := 0, 0;
    while y < h
      invariant 0 <= y <= h && top == y * f && top <= out.Length0 && out.Length0 == h * f && out.Length1 == w * f
      invariant forall Y, X :: 0 <= Y < top && 0 <= X < out.Length1 ==> out[Y, X] == SourcePixel(px, f, w, h, Y, X)
    {
      MulMonotone(y + 1, h, f);
      ZoomRow(out, px, f, w, h, y, top);
      y, top := y + 1, top + f;
    }
    assert y == h;
    assert top == out.Length0;
  }

  /** In a zoomed image pixel `(x * f + dx, y * f + dy)` is buffer pixel `(x, y)`, for every `dx, dy < f`. */
  lemma ZoomBlock(out: array2<int32>, px: seq<int32>, f: int, w: int, h: int, y: int, x: int, dy: int, dx: int)
    requires 1 <= f && 0 <= w && 0 <= h && h * w <= |px| && ZoomOfBuffer(out, px, f, w, h)
    requires 0 <= y < h && 0 <= x < w && 0 <= dy < f && 0 <= dx < f
    ensures (BlockInside(y, dy, f, h); BlockInside(x, dx, f, w); RowInside(y, x, w, h);
             out[y * f + dy, x * f + dx] == px[y * w + x])
  {
    BlockInside(y, dy, f, h);
    BlockInside(x, dx, f, w);
    SourceOfBlock(px, f, w, h, y, x, dy, dx);
  }
}
