/** `generateBufferedImage` and `generateZoomedBufferedImage`: a region's
    chunks drawn into freshly allocated buffers, the post-pass applied, and
    the result wrapped as an ARGB image, optionally blown up by a zoom
    factor. */
module TileGenerate {
  import opened JavaInts
  import opened Results
  import opened ChunkNbt
  import opened SurfaceRenderer
  import opened ImageZoom
  import opened TileImage
  import opened TileShade

  /** An ARGB `BufferedImage`: pixel `(x, y)` is `argb[y * width + x]`. */
  datatype Image = Image(width: int, height: int, argb: seq<int32>)

  /** What a call of `generateBufferedImage` or `generateZoomedBufferedImage`
      comes to: the image it returns (`None` for its `null`), or an
      exception escaping it. */
  datatype Generated = Returned(image: Option<Image>) | Escaped

  /** The colour arithmetic of `Color.shade` (`flat`) and of the relief
      `shade` pass (`blend`, `relief`), which is floating point and given as
      parameters. */
  datatype Paint = Paint(flat: (int32, int) -> int32, blend: (int32, int32, int) -> int32,
                         relief: (int32, int, int) -> int32)

  /** `Tile.PIXELS / (scale * scale)` in 32-bit arithmetic: the length of every buffer. */
  function PixelCount(scale: int32): int
    requires ToInt32(scale * scale) != 0
  {
    JavaDiv(TilePixels, ToInt32(scale * scale))
  }

  /** The freshly allocated buffers of length `n`: all zero, the water
      buffers present only when shading water outside cave mode. */
  function Allocated(cfg: WorldConfig, n: nat): (b: Buffers)
    ensures |b.pixels| == n && |b.terrain| == n
    ensures |b.waterPixels| == |b.waterHeights| == if WaterBuffers(cfg) then n else 0
    ensures forall k :: 0 <= k < n ==> b.pixels[k] == 0 && b.terrain[k] == 0
  {
    var px := seq<int32>(n, _ => 0);
    var hs := seq<int16>(n, _ => 0);
    Buffers(px, if WaterBuffers(cfg) then px else [], hs, if WaterBuffers(cfg) then hs else [])
  }

  /** The post-pass over the drawn buffers: `flatShade` in cave mode, else
      the relief `shade` when shading and not rendering one layer, else
      nothing. `None` when the relief pass throws. */
  function PostPass(cfg: WorldConfig, b: Buffers, size: nat, paint: Paint): Option<seq<int32>>
    requires size * size <= |b.pixels| && size * size <= |b.terrain|
  {
    if cfg.renderCaves then Some(FlatShaded(b.pixels, b.terrain, size, paint.flat))
    else if cfg.shade && !cfg.renderLayerOnly then
      var r := ShadeFrom(b, cfg.shadeWater, size, 0, b.pixels, paint.blend, paint.relief);
      if r.1 then None else Some(r.0)
    else Some(b.pixels)
  }

  /** The buffers after the chunk loops of `generateBufferedImage` over `n` pixels. */
  function Drawn(cfg: WorldConfig, cm: ColorMapping, registered: bool, slots: seq<Option<RegionChunk>>,
                 scale: int32, overlay: seq<int32>, n: nat): (r: (Buffers, bool))
    requires |slots| == SizeInChunks * SizeInChunks && |overlay| == 256 && scale >= 1
    ensures SameShape(Allocated(cfg, n), r.0)
  {
    TileShape(cfg, cm, registered, slots, scale, overlay, WaterBuffers(cfg), 0, 0, Allocated(cfg, n));
    TileFrom(cfg, cm, registered, slots, scale, overlay, WaterBuffers(cfg), 0, 0, Allocated(cfg, n))
  }

  /** The image the `try` of `generateBufferedImage` returns, `None` for its
      `null`: an exception inside it (a negative buffer length, an escaping
      chunk failure, a read past the buffer in a post-pass or in `setRGB`,
      or a zero image size) yields `None`. A present image is the square
      `Tile.SIZE / scale` tile. */
  function TileImageOf(cfg: WorldConfig, cm: ColorMapping, registered: bool, slots: seq<Option<RegionChunk>>,
                       scale: int32, overlay: seq<int32>, paint: Paint): (r: Option<Image>)
    requires |slots| == SizeInChunks * SizeInChunks && |overlay| == 256 && scale >= 1 && ToInt32(scale * scale) != 0
    ensures r.Some? ==> var size := TileSize / scale;
                        1 <= size <= TileSize && r.value.width == size && r.value.height == size &&
                        |r.value.argb| == size * size
  {
    var size := TileSize / scale;
    assert size <= TileSize by {
      if size > 0 {
        MulAtLeast(scale, size);
      }
    }
    var n := PixelCount(scale);
    if n < 0 then None
    else
      var drawn := Drawn(cfg, cm, registered, slots, scale, overlay, n);
      if drawn.1 || size < 1 || size * size > n then None
      else match PostPass(cfg, drawn.0, size, paint)
        case None => None
        case Some(px) => Some(Image(size, size, px[..size * size]))
  }

  /** What `generateBufferedImage` comes to. The divisions by `scale` and
      by `scale * scale` precede the `try`, so a scale whose 32-bit square
      is 0 (0 itself, or a multiple of 65536) throws out of the method. A
      negative scale makes the image size `Tile.SIZE / scale` at most 0, so
      whatever the chunk loops do inside the `try`, `new BufferedImage`
      throws there at the latest: `null`. A positive scale returns what
      `TileImageOf` describes. */
  function BufferedImageOf(cfg: WorldConfig, cm: ColorMapping, registered: bool, slots: seq<Option<RegionChunk>>,
                           scale: int32, overlay: seq<int32>, paint: Paint): (r: Generated)
    requires |slots| == SizeInChunks * SizeInChunks && |overlay| == 256
    ensures r.Escaped? <==> ToInt32(scale * scale) == 0
    ensures scale < 0 && r.Returned? ==> r.image.None?
    ensures scale > 0 && r.Returned? ==> r.image == TileImageOf(cfg, cm, registered, slots, scale, overlay, paint)
  {
    if ToInt32(scale * scale) == 0 then Escaped
    else if scale < 0 then Returned(None)
    else Returned(TileImageOf(cfg, cm, registered, slots, scale, overlay, paint))
  }

  /** `generateBufferedImage`. */
  method GenerateBufferedImage(cfg: WorldConfig, cm: ColorMapping, registered: bool, slots: seq<Option<RegionChunk>>,
                               scale: int32, overlay: seq<int32>, paint: Paint) returns (img: Generated)
    requires |slots| == SizeInChunks * SizeInChunks && |overlay| == 256
    ensures img == BufferedImageOf(cfg, cm, registered, slots, scale, overlay, paint)
  {
    if ToInt32(scale * scale) == 0 {
      return Escaped;
    }
    if scale < 0 {
      return Returned(None);
    }
    var size := TileSize / scale;
    var n := PixelCount(scale);
    if n < 0 {
      return Returned(None);
    }
    var p, wp, t, wh := AllocateBuffers(cfg, n);
    var threw := DrawTile(cfg, cm, registered, slots, scale, overlay, p, wp, t, wh);
    ghost var drawn := Drawn(cfg, cm, registered, slots, scale, overlay, n);
    assert Snapshot(p, wp, t, wh) == drawn.0 && threw == drawn.1;
    if threw || size < 1 || size * size > n {
      return Returned(None);
    }
    var failed := ApplyPostPass(cfg, p, wp, t, wh, scale, paint);
    if failed {
      return Returned(None);
    }
    img := Returned(Some(Image(size, size, p[..size * size])));
  }

  /** The buffers of `generateBufferedImage`: zeroed arrays of length `n`,
      the water buffers only when shading water outside cave mode. */
  method AllocateBuffers(cfg: WorldConfig, n: nat) returns (p: array<int32>, wp: array?<int32>, t: array<int16>, wh: array?<int16>)
    ensures fresh(p) && fresh(t) && (wp != null ==> fresh(wp)) && (wh != null ==> fresh(wh)) && wp != p && wh != t
    ensures (wh != null) == WaterBuffers(cfg)
    ensures Snapshot(p, wp, t, wh) == Allocated(cfg, n)
  {
    p := new int32[n](_ => 0);
    t := new int16[n](_ => 0);
    wp, wh := null, null;
    if WaterBuffers(cfg) {
      wp := new int32[n](_ => 0);
      wh := new int16[n](_ => 0);
    }
  }

  /** The post-pass in place: `flatShade` in cave mode, the relief `shade`
      when shading and not rendering one layer; `failed` when `shade` threw. */
  method ApplyPostPass(cfg: WorldConfig, p: array<int32>, wp: array?<int32>, t: array<int16>, wh: array?<int16>,
                       scale: int32, paint: Paint) returns (failed: bool)
    requires scale >= 1 && 1 <= TileSize / scale && wp != p
    requires (TileSize / scale) * (TileSize / scale) <= p.Length && (TileSize / scale) * (TileSize / scale) <= t.Length
    modifies p
    ensures PostPass(cfg, old(Snapshot(p, wp, t, wh)), TileSize / scale, paint) == if failed then None else Some(p[..])
  {
    failed := false;
    if cfg.renderCaves {
      FlatShade(p, t, scale, paint.flat);
    } else if cfg.shade && !cfg.renderLayerOnly {
      failed := Shade(p, wp, t, wh, scale, cfg.shadeWater, paint.blend, paint.relief);
    }
  }

  /** For scales up to 512 nothing wraps: there are `262144 / scale^2`
      pixels, enough for the `Tile.SIZE / scale` square. */
  lemma SizeFits(scale: int32)
    requires 1 <= scale <= TileSize
    ensures ToInt32(scale * scale) == scale * scale
    ensures PixelCount(scale) == TilePixels / (scale * scale)
    ensures 1 <= TileSize / scale && (TileSize / scale) * (TileSize / scale) <= PixelCount(scale)
  {
    var size := TileSize / scale;
    MulMonotone(scale, TileSize, scale);
    MulMonotone(scale, TileSize, TileSize);
    assert scale * scale <= TilePixels;
    assert size * scale <= TileSize;
    MulMonotone(size * scale, TileSize, size * scale);
    MulMonotone(size * scale, TileSize, TileSize);
    assert (size * size) * (scale * scale) == (size * scale) * (size * scale);
    assert (size * size) * (scale * scale) <= TilePixels;
    JavaDivRem(TilePixels, scale * scale);
    DivFloor(size * size, scale * scale, TilePixels);
  }

  /** `q * d <= n` puts `q` at or below `n / d`. */
  lemma DivFloor(q: int, d: int, n: int)
    requires 0 <= q && 1 <= d && 0 <= n && q * d <= n
    ensures q <= n / d
  {
    if q > n / d {
      MulMonotone(n / d + 1, q, d);
    }
  }

  /** For scales up to 256 a tile comes out exactly when no chunk failure
      escapes the chunk loops: no post-pass throws on a tile of two or more
      pixels a side. */
  lemma TileImageExists(cfg: WorldConfig, cm: ColorMapping, registered: bool, slots: seq<Option<RegionChunk>>,
                        scale: int32, overlay: seq<int32>, paint: Paint)
    requires |slots| == SizeInChunks * SizeInChunks && |overlay| == 256 && 1 <= scale <= 256
    ensures ToInt32(scale * scale) != 0 && PixelCount(scale) >= 0
    ensures TileImageOf(cfg, cm, registered, slots, scale, overlay, paint).Some? <==>
            !Drawn(cfg, cm, registered, slots, scale, overlay, PixelCount(scale)).1
  {
    SizeFits(scale);
    var size := TileSize / scale;
    var n := PixelCount(scale);
    assert 2 <= size by {
      DivFloor(2, scale, TileSize);
    }
    var drawn := Drawn(cfg, cm, registered, slots, scale, overlay, n);
    if !drawn.1 && !cfg.renderCaves && cfg.shade && !cfg.renderLayerOnly {
      ShadeInside(drawn.0, cfg.shadeWater, size, 0, drawn.0.pixels, paint.blend, paint.relief);
    }
  }

  /** A region slot without chunk data stays transparent black in the tile
      outside cave mode (whose flat shading recolours every pixel): nothing
      is drawn into its block and the relief pass skips zero pixels. */
  lemma BlankSlotTransparent(cfg: WorldConfig, cm: ColorMapping, registered: bool, slots: seq<Option<RegionChunk>>,
                             s: int32, overlay: seq<int32>, paint: Paint, X0: int, Z0: int, k: int)
    requires |slots| == SizeInChunks * SizeInChunks && |overlay| == 256 && PowerScale(s) && !cfg.renderCaves
    requires 0 <= X0 < SizeInChunks && 0 <= Z0 < SizeInChunks && Blank(slots, X0, Z0) && InBlock(k, X0, Z0, s)
    requires TileImageOf(cfg, cm, registered, slots, s, overlay, paint).Some?
    ensures var img := TileImageOf(cfg, cm, registered, slots, s, overlay, paint).value;
            0 <= k < |img.argb| && img.argb[k] == 0
  {
    SizeFits(s);
    var size := TileSize / s;
    var n := PixelCount(s);
    InBlockInside(k, X0, Z0, s);
    var b0 := Allocated(cfg, n);
    BlankSlotUntouched(cfg, cm, registered, slots, s, overlay, WaterBuffers(cfg), 0, 0, b0, X0, Z0, k);
    var drawn := Drawn(cfg, cm, registered, slots, s, overlay, n);
    assert drawn.0.pixels[k] == 0;
    if cfg.shade && !cfg.renderLayerOnly {
      ShadeKeeps(drawn.0, cfg.shadeWater, size, 0, drawn.0.pixels, paint.blend, paint.relief, k);
    }
  }

  /** An index of a slot's block lies inside the `Tile.SIZE / s` square. */
  lemma InBlockInside(k: int, X: int, Z: int, s: int32)
    requires PowerScale(s) && 0 <= X < SizeInChunks && 0 <= Z < SizeInChunks && InBlock(k, X, Z, s)
    ensures 0 <= k < (TileSize / s) * (TileSize / s)
  {
    ChunkSizeOfScale(s);
    var w := TileWidth(s);
    var cs := ChunkSize / s;
    assert w == TileSize / s && w == SizeInChunks * cs;
    MulMonotone(Z + 1, SizeInChunks, cs);
    assert k / w < w;
    RowInside(k / w, k % w, w, w);
  }

  // ----- generateZoomedBufferedImage -----

  /** Zoomed pixel `i` of `base` blown up by `f`: the base pixel its row
      and column fall in. */
  function ZoomedPixel(base: Image, f: int, i: int): int32
    requires 1 <= f && 0 <= base.width && 0 <= base.height && base.height * base.width <= |base.argb|
    requires 0 <= i < (base.height * f) * (base.width * f)
  {
    var W := base.width * f;
    RowMajorIndex(i, W, base.height * f);
    SourcePixel(base.argb, f, base.width, base.height, i / W, i % W)
  }

  /** Row and column of index `i` of a raster `W` wide and `H` high. */
  lemma RowMajorIndex(i: int, W: int, H: int)
    requires 0 <= i < H * W && 0 <= H
    ensures 0 < W && 0 <= i / W < H && 0 <= i % W < W
  {
    if W <= 0 {
      MulMonotone(W, 0, H);
    }
    DivLess(i, W, H);
  }

  /** `base` blown up by `f`: `f` times as wide and high, each pixel repeated over an `f` by `f` block. */
  function ZoomedImage(base: Image, f: int): (r: Image)
    requires 1 <= f && 0 <= base.width && 0 <= base.height && base.height * base.width <= |base.argb|
    ensures r.width == base.width * f && r.height == base.height * f && |r.argb| == r.height * r.width
  {
    var W, H := base.width * f, base.height * f;
    Image(W, H, seq(H * W, i requires 0 <= i < H * W => ZoomedPixel(base, f, i)))
  }

  /** A tile as `generateBufferedImage` returns it: a square of 1 to 512
      pixels a side, one pixel per cell. */
  predicate TileShaped(img: Image)
  {
    1 <= img.width <= TileSize && img.height == img.width && |img.argb| == img.height * img.width
  }

  /** `new BufferedImage(w * f, h * f, TYPE_INT_ARGB)` with the sides
      computed in `int` arithmetic, followed by the zoom loop: the
      constructor throws for a side that is not positive or for more than
      `Integer.MAX_VALUE` pixels, and otherwise the loop's first block,
      `(dx, dy)` for all `dx, dy < f`, makes `setRGB` throw when it does not
      fit the raster. */
  predicate ZoomThrows(w: int, h: int, f: int)
  {
    var W, H := ToInt32(w * f), ToInt32(h * f);
    W <= 0 || H <= 0 || W * H > INT_MAX || f > W || f > H
  }

  /** For a tile-sized base and a factor above 1 the zoom throws exactly
      when the zoomed image would hold more than `Integer.MAX_VALUE`
      pixels; when it does not, neither side wraps, so every later block
      fits the raster too. */
  lemma {:induction false} ZoomEscapes(w: int, h: int, f: int)
    requires 1 <= w <= TileSize && 1 <= h <= TileSize && 2 <= f <= INT_MAX
    ensures ZoomThrows(w, h, f) <==> (w * f) * (h * f) > INT_MAX
    ensures !ZoomThrows(w, h, f) ==> ToInt32(w * f) == w * f && ToInt32(h * f) == h * f
  {
    var W, H := ToInt32(w * f), ToInt32(h * f);
    MulAtLeast(w, f);
    MulAtLeast(h, f);
    if (w * f) * (h * f) <= INT_MAX {
      MulAtLeast(h * f, w * f);
      MulAtLeast(w * f, h * f);
      assert W == w * f && H == h * f;
    } else if w * f <= INT_MAX && h * f <= INT_MAX {
      assert W == w * f && H == h * f;
    } else {
      assert f >= 4194304 by {
        MulMonotone(w, TileSize, f);
        MulMonotone(h, TileSize, f);
      }
      if 0 < W && 0 < H && W * H <= INT_MAX && f <= W && f <= H {
        MulMonotone(f, W, H);
        MulMonotone(4194304, f, H);
        assert false;
      }
    }
  }

  /** What `generateZoomedBufferedImage` comes to for the outcome `base` of
      its `generateBufferedImage` call: `base` itself when it threw, is
      missing or the factor is at most 1; an escaping exception when the
      zoomed image would exceed `Integer.MAX_VALUE` pixels; else the zoomed
      image. */
  function ZoomedOf(base: Generated, f: int32): (r: Generated)
    requires base.Returned? && base.image.Some? ==> TileShaped(base.image.value)
    ensures r.Escaped? <==>
            base.Escaped? ||
            (base.image.Some? && f > 1 && (base.image.value.width * f) * (base.image.value.height * f) > INT_MAX)
    ensures r.Returned? ==> (r.image.Some? <==> base.image.Some?)
    ensures base.Escaped? || base.image.None? || f <= 1 ==> r == base
    ensures r.Returned? && r.image.Some? && f > 1 ==>
              r.image.value.width == base.image.value.width * f && r.image.value.height == base.image.value.height * f
  {
    if base.Escaped? || base.image.None? || f <= 1 then base
    else
      var img := base.image.value;
      ZoomEscapes(img.width, img.height, f);
      if ZoomThrows(img.width, img.height, f) then Escaped
      else Returned(Some(ZoomedImage(img, f)))
  }

  /** Pixel `(x * f + dx, y * f + dy)` of the zoomed image is pixel `(x, y)` of the base, for all `dx, dy < f`. */
  lemma ZoomedBlock(base: Image, f: int, y: int, x: int, dy: int, dx: int)
    requires 1 <= f && 0 <= base.width && 0 <= base.height && base.height * base.width <= |base.argb|
    requires 0 <= y < base.height && 0 <= x < base.width && 0 <= dy < f && 0 <= dx < f
    ensures var z := ZoomedImage(base, f);
            (BlockInside(y, dy, f, base.height); BlockInside(x, dx, f, base.width);
             RowInside(y * f + dy, x * f + dx, z.width, z.height); RowInside(y, x, base.width, base.height);
             z.argb[(y * f + dy) * z.width + (x * f + dx)] == base.argb[y * base.width + x])
  {
    var w, h := base.width, base.height;
    var W := w * f;
    BlockInside(y, dy, f, h);
    BlockInside(x, dx, f, w);
    RowInside(y * f + dy, x * f + dx, W, h * f);
    var i := (y * f + dy) * W + (x * f + dx);
    RowMajorIndex(i, W, h * f);
    assert i / W == y * f + dy && i % W == x * f + dx by {
      DivModUnique(i, W, y * f + dy, x * f + dx);
    }
    assert (y * f + dy) / f == y && (x * f + dx) / f == x by {
      DivModUnique(y * f + dy, f, y, dy);
      DivModUnique(x * f + dx, f, x, dx);
    }
  }

  /** Pixel `i` of `out` counted row by row. */
  function PixelAt(out: array2<int32>, i: int): int32
    reads out
    requires 0 <= i < out.Length0 * out.Length1
  {
    RowMajorIndex(i, out.Length1, out.Length0);
    out[i / out.Length1, i % out.Length1]
  }

  /** The pixels of `out` in row-major order. */
  function RowMajor(out: array2<int32>): (r: seq<int32>)
    reads out
    ensures |r| == out.Length0 * out.Length1
    ensures forall i :: 0 <= i < |r| ==> r[i] == PixelAt(out, i)
  {
    seq(out.Length0 * out.Length1, i requires 0 <= i < out.Length0 * out.Length1 reads out => PixelAt(out, i))
  }

  /** `generateZoomedBufferedImage`: the base tile, blown up by `zoomFactor`
      when it exists and the factor exceeds 1. */
  method GenerateZoomedBufferedImage(cfg: WorldConfig, cm: ColorMapping, registered: bool,
                                     slots: seq<Option<RegionChunk>>, scale: int32, zoomFactor: int32,
                                     overlay: seq<int32>, paint: Paint) returns (img: Generated)
    requires |slots| == SizeInChunks * SizeInChunks && |overlay| == 256
    ensures img == ZoomedOf(BufferedImageOf(cfg, cm, registered, slots, scale, overlay, paint), zoomFactor)
  {
    var base := GenerateBufferedImage(cfg, cm, registered, slots, scale, overlay, paint);
    if base.Escaped? || base.image.None? || zoomFactor <= 1 {
      return base;
    }
    var w, h := base.image.value.width, base.image.value.height;
    if ZoomThrows(w, h, zoomFactor) {
      return Escaped;
    }
    ZoomEscapes(w, h, zoomFactor);
    MulMonotone(1, h, w);
    var out := ZoomBuffer(base.image.value.argb, zoomFactor, w, h);
    RowMajorZoomed(out, base.image.value, zoomFactor);
    img := Returned(Some(Image(w * zoomFactor, h * zoomFactor, RowMajor(out))));
  }

  /** The zoomed buffer read row by row is the zoomed image. */
  lemma RowMajorZoomed(out: array2<int32>, base: Image, f: int)
    requires 1 <= f && 0 <= base.width && 0 <= base.height && base.height * base.width <= |base.argb|
    requires ZoomOfBuffer(out, base.argb, f, base.width, base.height)
    ensures RowMajor(out) == ZoomedImage(base, f).argb
  {
    var px := RowMajor(out);
    var z := ZoomedImage(base, f);
    forall i | 0 <= i < |px|
      ensures px[i] == z.argb[i]
    {
      RowMajorIndex(i, out.Length1, out.Length0);
    }
  }
}
