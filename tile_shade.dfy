/** The two post-passes of `HeadlessTileImage` over a finished tile: the
    cave-mode `flatShade`, and the integer skeleton of the relief `shade`
    whose floating-point colour arithmetic is a parameter. */
module TileShade {
  import opened JavaInts
  import opened Results
  import opened SurfaceRenderer
  import opened ImageZoom
  import opened TileImage

  // ----- flatShade -----

  /** The altitude argument `flatShade` hands to `Color.shade`:
      `clamp(h / 4, -50, 50) * 4` with Java's truncating division. */
  function FlatAmount(h: int16): int
  {
    Clamp(JavaDiv(h, 4), -50, 50) * 4
  }

  /** The argument is a multiple of 4 in `[-200, 200]`; for heights in
      `[-203, 203]` it is the height truncated toward zero to a multiple of 4,
      and it never decreases as the height grows. */
  lemma FlatAmountRange(h: int16, h1: int16)
    ensures -200 <= FlatAmount(h) <= 200 && FlatAmount(h) % 4 == 0
    ensures -203 <= h <= 203 ==> FlatAmount(h) == h - JavaRem(h, 4)
    ensures h <= h1 ==> FlatAmount(h) <= FlatAmount(h1)
  {
    JavaDivRem(h, 4);
    JavaDivRem(h1, 4);
    if h <= h1 {
      JavaDivMonotone(h, h1);
    }
  }

  /** Truncating division by 4 does not decrease as the dividend grows. */
  lemma JavaDivMonotone(a: int, b: int)
    requires a <= b
    ensures JavaDiv(a, 4) <= JavaDiv(b, 4)
  {
    JavaDivRem(a, 4);
    JavaDivRem(b, 4);
  }

  /** What `flatShade` leaves in the pixel buffer: each of the first
      `size * size` pixels shaded by its terrain height, the rest as they were. */
  function FlatShaded(pixels: seq<int32>, terrain: seq<int16>, size: nat, shade: (int32, int) -> int32): (r: seq<int32>)
    requires size * size <= |pixels| && size * size <= |terrain|
    ensures |r| == |pixels|
    ensures forall i :: 0 <= i < |pixels| ==> r[i] == if i < size * size then shade(pixels[i], FlatAmount(terrain[i])) else pixels[i]
  {
    seq(|pixels|, i requires 0 <= i < |pixels| => if i < size * size then shade(pixels[i], FlatAmount(terrain[i])) else pixels[i])
  }

  /** `flatShade` in place; `shade` is `Color.shade`. */
  method FlatShade(p: array<int32>, t: array<int16>, scale: int32, shade: (int32, int) -> int32)
    requires scale >= 1 && (TileSize / scale) * (TileSize / scale) <= p.Length
    requires (TileSize / scale) * (TileSize / scale) <= t.Length
    modifies p
    ensures p[..] == FlatShaded(old(p[..]), t[..], TileSize / scale, shade)
  {
    var size := JavaDiv(TileSize, scale);
    JavaDivNatural(TileSize, scale);
    FlatShadeRows(p, t, size, shade);
  }

  /** The `z` loop of `flatShade` over `size` rows of `size` pixels. */
  method FlatShadeRows(p: array<int32>, t: array<int16>, size: nat, shade: (int32, int) -> int32)
    requires size * size <= p.Length && size * size <= t.Length
    modifies p
    ensures p[..] == FlatShaded(old(p[..]), t[..], size, shade)
  {
    ghost var p0 := p[..];
    var index := 0;
    var z := 0;
    while z < size
      invariant 0 <= z <= size && index == z * size && index <= size * size
      invariant forall i :: 0 <= i < index ==> p[i] == shade(p0[i], FlatAmount(t[i]))
      invariant forall i :: index <= i < p.Length ==> p[i] == p0[i]
    {
      MulMonotone(z + 1, size, size);
      FlatShadeRow(p, t, index, size, shade);
      z, index := z + 1, index + size;
    }
    ghost var r := FlatShaded(p0, t[..], size, shade);
    assert forall i :: 0 <= i < p.Length ==> p[i] == r[i];
  }

  /** One row of `flatShade`: pixels `index` to `index + size - 1`. */
  method FlatShadeRow(p: array<int32>, t: array<int16>, index: int, size: int, shade: (int32, int) -> int32)
    requires 0 <= index && 0 <= size && index + size <= p.Length && index + size <= t.Length
    modifies p
    ensures forall i :: 0 <= i < p.Length && !(index <= i < index + size) ==> p[i] == old(p[i])
    ensures forall i :: index <= i < index + size ==> p[i] == shade(old(p[i]), FlatAmount(t[i]))
  {
    var x, k := 0, index;
    while x < size
      invariant 0 <= x <= size && k == index + x
      invariant forall i :: 0 <= i < p.Length && !(index <= i < k) ==> p[i] == old(p[i])
      invariant forall i :: index <= i < k ==> p[i] == shade(old(p[i]), FlatAmount(t[i]))
    {
      var altitudeShade := Clamp(JavaDiv(t[k], 4), -50, 50);
      p[k] := shade(p[k], altitudeShade * 4);
      x, k := x + 1, k + 1;
    }
  }

  // ----- shade -----

  /** `h[i] - h[j]`, or `None` when a read is outside the buffer. */
  function HeightDiff(h: seq<int16>, i: int, j: int): Option<int>
  {
    if 0 <= i < |h| && 0 <= j < |h| then Some(h[i] as int - h[j] as int) else None
  }

  /** The neighbour slope along one axis at position `c` of `size`: a
      one-sided difference at either edge, twice the central difference inside. */
  function Slope(h: seq<int16>, i: int, c: int, size: int, step: int): Option<int>
  {
    if c == 0 then HeightDiff(h, i + step, i)
    else if c == size - 1 then HeightDiff(h, i, i - step)
    else match HeightDiff(h, i + step, i - step)
      case None => None
      case Some(d) => Some(d * 2)
  }

  /** The heights `shade` slopes over: the water heights when shading water,
      else the terrain heights themselves. */
  function ShadeHeights(b: Buffers, shadeWater: bool): seq<int16>
  {
    if shadeWater then b.waterHeights else b.terrain
  }

  /** Pixel `i = z * size + x` after `shade`, or `None` when a read throws.
      A zero pixel is skipped; where the water height differs from the
      terrain height the water colour is blended in by that depth
      (`blend`); elsewhere the pixel is shaded by the summed slopes and its
      height (`relief`). */
  function ShadePixel(b: Buffers, shadeWater: bool, size: int, z: int, x: int, i: int,
                      blend: (int32, int32, int) -> int32, relief: (int32, int, int) -> int32): Option<int32>
    requires 0 <= i < |b.pixels|
  {
    var h := ShadeHeights(b, shadeWater);
    if b.pixels[i] == 0 then Some(0)
    else if !(i < |b.terrain| && i < |h|) then None
    else if b.terrain[i] != h[i] then
      if i < |b.waterPixels| then Some(blend(b.pixels[i], b.waterPixels[i], h[i] as int - b.terrain[i] as int)) else None
    else
      match Slope(h, i, z, size, size)
      case None => None
      case Some(zShade) =>
        match Slope(h, i, x, size, 1)
        case None => None
        case Some(xShade) => Some(relief(b.pixels[i], xShade + zShade, h[i]))
  }

  /** `shade` from pixel `i` on: the pixels it has rewritten, and whether a read threw. */
  function ShadeFrom(b: Buffers, shadeWater: bool, size: nat, i: nat, px: seq<int32>,
                     blend: (int32, int32, int) -> int32, relief: (int32, int, int) -> int32): (r: (seq<int32>, bool))
    requires size * size <= |b.pixels| && |px| == |b.pixels|
    ensures |r.0| == |px|
    decreases size * size - i
  {
    if i >= size * size then (px, false)
    else match ShadePixel(b, shadeWater, size, i / size, i % size, i, blend, relief)
      case None => (px, true)
      case Some(c) => ShadeFrom(b, shadeWater, size, i + 1, px[i := c], blend, relief)
  }

  /** `shade` in place over the tile's buffers (`wp` and `wh` may be `null`). */
  method Shade(p: array<int32>, wp: array?<int32>, t: array<int16>, wh: array?<int16>, scale: int32, shadeWater: bool,
               blend: (int32, int32, int) -> int32, relief: (int32, int, int) -> int32) returns (threw: bool)
    requires scale >= 1 && (TileSize / scale) * (TileSize / scale) <= p.Length && wp != p
    modifies p
    ensures (p[..], threw) == ShadeFrom(old(Snapshot(p, wp, t, wh)), shadeWater, TileSize / scale, 0,
                                        old(p[..]), blend, relief)
  {
    var heights := if shadeWater then wh else t;
    var size := JavaDiv(TileSize, scale);
    JavaDivNatural(TileSize, scale);
    threw := ShadeRows(p, wp, t, wh, heights, shadeWater, size, blend, relief);
  }

  /** The `z` loop of `shade` over `size` rows of `size` pixels. */
  method ShadeRows(p: array<int32>, wp: array?<int32>, t: array<int16>, wh: array?<int16>, heights: array?<int16>,
                   shadeWater: bool, size: nat, blend: (int32, int32, int) -> int32, relief: (int32, int, int) -> int32)
    returns (threw: bool)
    requires size * size <= p.Length && wp != p && heights == (if shadeWater then wh else t)
    modifies p
    ensures (p[..], threw) == ShadeFrom(old(Snapshot(p, wp, t, wh)), shadeWater, size, 0, old(p[..]), blend, relief)
  {
    ghost var b := Snapshot(p, wp, t, wh);
    ghost var target := ShadeFrom(b, shadeWater, size, 0, b.pixels, blend, relief);
    var index := 0;
    var z := 0;
    while z < size
      invariant 0 <= z <= size && index == z * size && index <= size * size
      invariant Snapshot(p, wp, t, wh) == b.(pixels := p[..])
      invariant forall i :: index <= i < p.Length ==> p[i] == b.pixels[i]
      invariant ShadeFrom(b, shadeWater, size, index, p[..], blend, relief) == target
    {
      NextRow(z, size);
      var ok := ShadeRow(p, wp, t, wh, heights, shadeWater, size, z, index, b, blend, relief);
      if !ok {
        return true;
      }
      z, index := z + 1, index + size;
    }
    return false;
  }

  /** Row `z + 1` of a `size` wide raster starts `size` after row `z`, and
      a row below the last ends inside the raster. */
  lemma NextRow(z: int, size: int)
    requires 0 <= z < size
    ensures (z + 1) * size == z * size + size && z * size + size <= size * size
  {
    MulMonotone(z + 1, size, size);
  }

  /** Row `z` of `shade`, pixels `index` to `index + size - 1`; `ok` is false
      when a read threw, and then the rest of `shade` is skipped. */
  method ShadeRow(p: array<int32>, wp: array?<int32>, t: array<int16>, wh: array?<int16>, heights: array?<int16>,
                  shadeWater: bool, size: nat, z: int, index: int, ghost b: Buffers,
                  blend: (int32, int32, int) -> int32, relief: (int32, int, int) -> int32)
    returns (ok: bool)
    requires 0 <= z < size && index == z * size && index + size <= size * size && size * size <= p.Length
    requires wp != p && heights == (if shadeWater then wh else t) && |b.pixels| == p.Length
    requires Snapshot(p, wp, t, wh) == b.(pixels := p[..])
    requires forall i :: index <= i < p.Length ==> p[i] == b.pixels[i]
    modifies p
    ensures Snapshot(p, wp, t, wh) == b.(pixels := p[..])
    ensures forall i :: index + size <= i < p.Length ==> p[i] == b.pixels[i]
    ensures ShadeFrom(b, shadeWater, size, index, old(p[..]), blend, relief) ==
            if ok then ShadeFrom(b, shadeWater, size, index + size, p[..], blend, relief) else (p[..], true)
  {
    var x, k := 0, index;
    while x < size
      invariant 0 <= x <= size && k == index + x
      invariant Snapshot(p, wp, t, wh) == b.(pixels := p[..])
      invariant forall i :: k <= i < p.Length ==> p[i] == b.pixels[i]
      invariant ShadeFrom(b, shadeWater, size, index, old(p[..]), blend, relief) ==
                ShadeFrom(b, shadeWater, size, k, p[..], blend, relief)
    {
      DivModUnique(k, size, z, x);
      var c, cellOk := ShadeAt(p, wp, t, heights, size, z, x, k, blend, relief);
      ShadePixelSame(b, Snapshot(p, wp, t, heights), shadeWater, size, z, x, k, blend, relief);
      if !cellOk {
        return false;
      }
      p[k] := c;
      x, k := x + 1, k + 1;
    }
    return true;
  }

  /** `ShadePixel` reads only pixel `i` of the pixel buffer, and the water
      heights only through `ShadeHeights`. */
  lemma ShadePixelSame(b: Buffers, b2: Buffers, shadeWater: bool, size: int, z: int, x: int, i: int,
                       blend: (int32, int32, int) -> int32, relief: (int32, int, int) -> int32)
    requires 0 <= i < |b.pixels| && i < |b2.pixels| && b2.pixels[i] == b.pixels[i]
    requires b2.terrain == b.terrain && b2.waterPixels == b.waterPixels && b2.waterHeights == ShadeHeights(b, shadeWater)
    ensures ShadePixel(b, shadeWater, size, z, x, i, blend, relief) == ShadePixel(b2, true, size, z, x, i, blend, relief)
  {
  }

  /** The body of `shade`'s loops at pixel `i = z * size + x`, reading the
      buffers in place; `ok` is false when a read throws. */
  method ShadeAt(p: array<int32>, wp: array?<int32>, t: array<int16>, heights: array?<int16>, size: int, z: int, x: int, i: int,
                 blend: (int32, int32, int) -> int32, relief: (int32, int, int) -> int32) returns (c: int32, ok: bool)
    requires 0 <= i < p.Length
    ensures var b := Snapshot(p, wp, t, heights);
            var shadeWater := true;
            (if ok then Some(c) else None) == ShadePixel(b, shadeWater, size, z, x, i, blend, relief)
  {
    if p[i] == 0 {
      return 0, true;
    }
    if heights == null || !(i < t.Length && i < heights.Length) {
      return 0, false;
    }
    if t[i] != heights[i] {
      if wp == null || !(i < wp.Length) {
        return 0, false;
      }
      return blend(p[i], wp[i], heights[i] as int - t[i] as int), true;
    }
    var zShade, zOk := SlopeAt(heights, i, z, size, size);
    if !zOk {
      return 0, false;
    }
    var xShade, xOk := SlopeAt(heights, i, x, size, 1);
    if !xOk {
      return 0, false;
    }
    return relief(p[i], xShade + zShade, heights[i]), true;
  }

  /** `Slope` over a height buffer read in place. */
  method SlopeAt(h: array<int16>, i: int, c: int, size: int, step: int) returns (d: int, ok: bool)
    ensures (if ok then Some(d) else None) == Slope(h[..], i, c, size, step)
  {
    var lo, hi, twice := i, i + step, false;
    if c == 0 {
    } else if c == size - 1 {
      lo, hi := i - step, i;
    } else {
      lo, hi, twice := i - step, i + step, true;
    }
    if !(0 <= lo < h.Length && 0 <= hi < h.Length) {
      return 0, false;
    }
    d := h[hi] as int - h[lo] as int;
    if twice {
      d := d * 2;
    }
    ok := true;
  }

  /** With at least two pixels per row, buffers of `size * size` entries and
      a water buffer wherever water is blended, `shade` never reads outside a
      buffer. */
  lemma {:induction false} ShadeInside(b: Buffers, shadeWater: bool, size: nat, i: nat, px: seq<int32>,
                                       blend: (int32, int32, int) -> int32, relief: (int32, int, int) -> int32)
    requires size >= 2 && size * size <= |b.pixels| && |px| == |b.pixels|
    requires size * size <= |b.terrain| && size * size <= |ShadeHeights(b, shadeWater)|
    requires shadeWater ==> size * size <= |b.waterPixels|
    ensures !ShadeFrom(b, shadeWater, size, i, px, blend, relief).1
    decreases size * size - i
  {
    if i < size * size {
      var z, x := i / size, i % size;
      DivLess(i, size, size);
      assert i == z * size + x;
      RowInside(z, x, size, size);
      ShadePixelInside(b, shadeWater, size, z, x, i, blend, relief);
      var c := ShadePixel(b, shadeWater, size, z, x, i, blend, relief).value;
      ShadeInside(b, shadeWater, size, i + 1, px[i := c], blend, relief);
    }
  }

  /** One pixel of `ShadeInside`. */
  lemma ShadePixelInside(b: Buffers, shadeWater: bool, size: int, z: int, x: int, i: int,
                         blend: (int32, int32, int) -> int32, relief: (int32, int, int) -> int32)
    requires size >= 2 && 0 <= z < size && 0 <= x < size && i == z * size + x
    requires size * size <= |b.pixels| && size * size <= |b.terrain| && size * size <= |ShadeHeights(b, shadeWater)|
    requires shadeWater ==> size * size <= |b.waterPixels|
    ensures 0 <= i < size * size
    ensures ShadePixel(b, shadeWater, size, z, x, i, blend, relief).Some?
  {
    ShadeIndices(size, z, x, i);
  }

  /** The neighbours a pixel's slopes read lie inside the `size * size` raster. */
  lemma ShadeIndices(size: int, z: int, x: int, i: int)
    requires size >= 2 && 0 <= z < size && 0 <= x < size && i == z * size + x
    ensures 0 <= i < size * size
    ensures z < size - 1 ==> i + size < size * size
    ensures z > 0 ==> i - size >= 0
    ensures x < size - 1 ==> i + 1 < size * size
    ensures x > 0 ==> i - 1 >= 0
  {
    RowInside(z, x, size, size);
    MulMonotone(0, z, size);
    if z < size - 1 {
      RowInside(z + 1, x, size, size);
    }
    if z > 0 {
      MulMonotone(1, z, size);
    }
  }

  /** `shade` only rewrites the first `size * size` pixels and leaves every
      zero pixel zero. */
  lemma {:induction false} ShadeKeeps(b: Buffers, shadeWater: bool, size: nat, i: nat, px: seq<int32>,
                                      blend: (int32, int32, int) -> int32, relief: (int32, int, int) -> int32, k: int)
    requires size * size <= |b.pixels| && |px| == |b.pixels| && 0 <= k < |px|
    requires px[k] == b.pixels[k] && (k >= size * size || b.pixels[k] == 0)
    ensures ShadeFrom(b, shadeWater, size, i, px, blend, relief).0[k] == px[k]
    decreases size * size - i
  {
    if i < size * size {
      match ShadePixel(b, shadeWater, size, i / size, i % size, i, blend, relief)
      case None =>
      case Some(c) =>
        if k == i {
          assert c == 0;
        }
        ShadeKeeps(b, shadeWater, size, i + 1, px[i := c], blend, relief, k);
    }
  }
}
