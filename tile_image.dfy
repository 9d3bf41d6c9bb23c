/** `HeadlessTileImage`: assembling the 32 by 32 chunks of a region file into
    one tile, the corrupted-chunk fallback, the cave-mode `flatShade` pass and
    the zoomed copy of a tile. */
module TileImage {
  import opened JavaInts
  import opened Results
  import opened ChunkNbt
  import opened SurfaceRenderer
  import opened CaveRenderer
  import opened ImageZoom

  /** `Tile.SIZE`, `Tile.CHUNK_SIZE`, `Tile.PIXELS` and `Tile.SIZE_IN_CHUNKS`. */
  const TileSize: int := 512
  const ChunkSize: int := 16
  const TilePixels: int := 262144
  const SizeInChunks: int := 32

  /** The world options the pipeline reads from its configuration, and the
      index widths cave mode decodes with: `LengthWidths` is `drawCaves` as
      written, `PaletteWidths` the reading the chunk format prescribes (see
      `CaveRenderer.WidthRule`). */
  datatype WorldConfig = WorldConfig(shade: bool, shadeWater: bool, renderCaves: bool, renderLayerOnly: bool,
                                     renderHeight: int32, caveWidths: WidthRule)

  /** A chunk slot of a region file that holds a chunk; `data` is its NBT root, missing when absent. */
  datatype RegionChunk = RegionChunk(data: Option<ChunkRoot>)

  /** Whether the water buffers exist: shading with water, outside cave mode. */
  predicate WaterBuffers(cfg: WorldConfig)
  {
    cfg.shade && cfg.shadeWater && !cfg.renderCaves
  }

  // ----- the corrupted-chunk fallback of drawChunkImage -----

  /** `(z + cz / scale) * Tile.SIZE / scale + (x + cx / scale)` in int arithmetic. */
  function FallbackIndex(x: int32, z: int32, scale: int32, cx: int, cz: int): int32
    requires scale >= 1
  {
    ToInt32(ToInt32(JavaDiv(ToInt32(ToInt32(z + JavaDiv(cz, scale)) * TileSize), scale)) + ToInt32(x + JavaDiv(cx, scale)))
  }

  /** The stores of one fallback step: the overlay colour, terrain height 64,
      and water height 64 when that buffer exists. */
  function FallbackStores(rgb: int32, hasWater: bool): seq<Write>
  {
    [SetPixel(rgb), SetTerrain(64)] + (if hasWater then [SetWaterHeight(64)] else [])
  }

  /** `FallbackIndex` at one chunk position, as a function of the column. */
  function FallbackIndexer(x: int32, z: int32, scale: int32): (int, int) -> int
    requires scale >= 1
  {
    (cx: int, cz: int) => FallbackIndex(x, z, scale, cx, cz) as int
  }

  /** The fallback's `cx`/`cz` loops from `(cx, cz)` on, storing column
      `(cx, cz)` at index `at(cx, cz)`; a store outside a buffer throws out of
      `drawChunkImage`, keeping the stores before it. */
  function FallbackFrom(overlay: seq<int32>, at: (int, int) -> int, scale: int32, hasWater: bool,
                        cx: int, cz: int, b: Buffers): (Buffers, bool)
    requires |overlay| == 256 && scale >= 1 && 0 <= cx && 0 <= cz
    decreases ChunkSize - cx, ChunkSize - cz
  {
    if cx >= ChunkSize then (b, false)
    else if cz >= ChunkSize then FallbackFrom(overlay, at, scale, hasWater, cx + scale, 0, b)
    else
      var r := Written(b, at(cx, cz), FallbackStores(overlay[cz * 16 + cx], hasWater));
      if r.1 then r
      else FallbackFrom(overlay, at, scale, hasWater, cx, cz + scale, r.0)
  }

  /** One fallback step stores exactly its values at `j`, or throws when `j`
      is outside a buffer it writes; it never touches `waterPixels`. */
  lemma FallbackStep(b: Buffers, j: int, rgb: int32, hasWater: bool)
    ensures var r := Written(b, j, FallbackStores(rgb, hasWater));
            (r.1 <==> !(0 <= j < |b.pixels| && j < |b.terrain| && (hasWater ==> j < |b.waterHeights|))) &&
            Kept(b, r.0, j, true) && r.0.waterPixels == b.waterPixels &&
            (!hasWater ==> r.0.waterHeights == b.waterHeights) &&
            (!r.1 ==> r.0.pixels[j] == rgb && r.0.terrain[j] == 64 && (hasWater ==> r.0.waterHeights[j] == 64))
  {
    var ws := FallbackStores(rgb, hasWater);
    var tail := if hasWater then [SetWaterHeight(64)] else [];
    assert ws[1..] == [SetTerrain(64)] + tail;
    assert ws[1..][1..] == tail;
    if 0 <= j < |b.pixels| {
      var b1 := b.(pixels := b.pixels[j := rgb]);
      assert Written(b, j, ws) == Written(b1, j, ws[1..]);
      if j < |b.terrain| {
        var b2 := b1.(terrain := b1.terrain[j := 64]);
        assert Written(b1, j, ws[1..]) == Written(b2, j, tail);
        if hasWater && j < |b.waterHeights| {
          var b3 := b2.(waterHeights := b2.waterHeights[j := 64]);
          assert tail[1..] == [];
          assert Written(b2, j, tail) == Written(b3, j, []);
        }
      }
    }
  }

  /** `drawChunkImage`'s catch block over the caller's buffers, storing column
      `(cx, cz)` at `at(cx, cz)`; returns whether a store threw. */
  method Fallback(overlay: seq<int32>, at: (int, int) -> int, scale: int32,
                  p: array<int32>, wp: array?<int32>, t: array<int16>, wh: array?<int16>) returns (threw: bool)
    requires |overlay| == 256 && scale >= 1 && wp != p && wh != t
    modifies p, wp, t, wh
    ensures (Snapshot(p, wp, t, wh), threw) == FallbackFrom(overlay, at, scale, wh != null, 0, 0, old(Snapshot(p, wp, t, wh)))
  {
    ghost var target := FallbackFrom(overlay, at, scale, wh != null, 0, 0, Snapshot(p, wp, t, wh));
    var cx := 0;
    while cx < ChunkSize
      invariant 0 <= cx
      invariant FallbackFrom(overlay, at, scale, wh != null, cx, 0, Snapshot(p, wp, t, wh)) == target
      decreases ChunkSize - cx
    {
      threw := FallbackColumn(overlay, at, scale, cx, p, wp, t, wh);
      if threw {
        return;
      }
      cx := cx + scale;
    }
    return false;
  }

  /** The inner `cz` loop of the fallback for column `cx`: either a store
      throws, or the rest of the fallback continues at `cx + scale`. */
  method FallbackColumn(overlay: seq<int32>, at: (int, int) -> int, scale: int32, cx: int,
                        p: array<int32>, wp: array?<int32>, t: array<int16>, wh: array?<int16>) returns (threw: bool)
    requires |overlay| == 256 && scale >= 1 && 0 <= cx < ChunkSize && wp != p && wh != t
    modifies p, wp, t, wh
    ensures FallbackFrom(overlay, at, scale, wh != null, cx, 0, old(Snapshot(p, wp, t, wh))) ==
            if threw then (Snapshot(p, wp, t, wh), true)
            else FallbackFrom(overlay, at, scale, wh != null, cx + scale, 0, Snapshot(p, wp, t, wh))
  {
    ghost var target := FallbackFrom(overlay, at, scale, wh != null, cx, 0, Snapshot(p, wp, t, wh));
    var cz := 0;
    while cz < ChunkSize
      invariant 0 <= cz
      invariant FallbackFrom(overlay, at, scale, wh != null, cx, cz, Snapshot(p, wp, t, wh)) == target
      decreases ChunkSize - cz
    {
      ghost var before := Snapshot(p, wp, t, wh);
      threw := WriteAll(p, wp, t, wh, at(cx, cz), FallbackStores(overlay[cz * 16 + cx], wh != null));
      if threw {
        return;
      }
      assert FallbackFrom(overlay, at, scale, wh != null, cx, cz, before) ==
             FallbackFrom(overlay, at, scale, wh != null, cx, cz + scale, Snapshot(p, wp, t, wh));
      cz := cz + scale;
    }
    assert FallbackFrom(overlay, at, scale, wh != null, cx, cz, Snapshot(p, wp, t, wh)) ==
           FallbackFrom(overlay, at, scale, wh != null, cx + scale, 0, Snapshot(p, wp, t, wh));
    return false;
  }

  /** The indices the fallback's loops store into from `(cx, cz)` on. */
  function FallbackIndices(at: (int, int) -> int, scale: int32, cx: int, cz: int): set<int>
    requires scale >= 1 && 0 <= cx && 0 <= cz
    decreases ChunkSize - cx, ChunkSize - cz
  {
    if cx >= ChunkSize then {}
    else if cz >= ChunkSize then FallbackIndices(at, scale, cx + scale, 0)
    else {at(cx, cz)} + FallbackIndices(at, scale, cx, cz + scale)
  }

  /** The `(cx, cz)` columns the fallback's loops visit from `(cx, cz)` on. */
  function FallbackSamples(scale: int32, cx: int, cz: int): set<(int, int)>
    requires scale >= 1 && 0 <= cx && 0 <= cz
    decreases ChunkSize - cx, ChunkSize - cz
  {
    if cx >= ChunkSize then {}
    else if cz >= ChunkSize then FallbackSamples(scale, cx + scale, 0)
    else {(cx, cz)} + FallbackSamples(scale, cx, cz + scale)
  }

  /** An index that no remaining sample maps to keeps its values; `waterPixels`
      is never written, and `waterHeights` only when it exists. */
  lemma {:induction false} FallbackFrame(overlay: seq<int32>, at: (int, int) -> int, scale: int32, hasWater: bool,
                                         cx: int, cz: int, b: Buffers, k: int)
    requires |overlay| == 256 && scale >= 1 && 0 <= cx && 0 <= cz
    requires k !in FallbackIndices(at, scale, cx, cz)
    ensures var r := FallbackFrom(overlay, at, scale, hasWater, cx, cz, b).0;
            SameAt(b, r, k) && r.waterPixels == b.waterPixels && (!hasWater ==> r.waterHeights == b.waterHeights)
    decreases ChunkSize - cx, ChunkSize - cz
  {
    if cx < ChunkSize {
      if cz >= ChunkSize {
        FallbackFrame(overlay, at, scale, hasWater, cx + scale, 0, b, k);
      } else {
        var j := at(cx, cz);
        var rgb := overlay[cz * 16 + cx];
        FallbackStep(b, j, rgb, hasWater);
        var r := Written(b, j, FallbackStores(rgb, hasWater));
        if !r.1 {
          FallbackFrame(overlay, at, scale, hasWater, cx, cz + scale, r.0, k);
        }
      }
    }
  }

  /** When the fallback runs to the end, a visited column whose index no later
      column shares shows overlay pixel `cz0 * 16 + cx0`, at terrain height 64
      (and water height 64 when that buffer exists). */
  lemma {:induction false} FallbackPaints(overlay: seq<int32>, at: (int, int) -> int, scale: int32, hasWater: bool,
                                          cx: int, cz: int, b: Buffers, cx0: int, cz0: int)
    requires |overlay| == 256 && scale >= 1 && 0 <= cx && 0 <= cz
    requires (cx0, cz0) in FallbackSamples(scale, cx, cz) && 0 <= cx0 && 0 <= cz0
    requires at(cx0, cz0) !in FallbackIndices(at, scale, cx0, cz0 + scale)
    requires !FallbackFrom(overlay, at, scale, hasWater, cx, cz, b).1
    ensures 0 <= cx0 < ChunkSize && 0 <= cz0 < ChunkSize
    ensures var r := FallbackFrom(overlay, at, scale, hasWater, cx, cz, b).0;
            var k := at(cx0, cz0);
            0 <= k < |r.pixels| && k < |r.terrain| &&
            r.pixels[k] == overlay[cz0 * 16 + cx0] && r.terrain[k] == 64 &&
            (hasWater ==> k < |r.waterHeights| && r.waterHeights[k] == 64)
    decreases ChunkSize - cx, ChunkSize - cz
  {
    if cz >= ChunkSize {
      FallbackPaints(overlay, at, scale, hasWater, cx + scale, 0, b, cx0, cz0);
    } else {
      var j := at(cx, cz);
      var rgb := overlay[cz * 16 + cx];
      FallbackStep(b, j, rgb, hasWater);
      var r := Written(b, j, FallbackStores(rgb, hasWater));
      assert FallbackFrom(overlay, at, scale, hasWater, cx, cz, b) ==
             FallbackFrom(overlay, at, scale, hasWater, cx, cz + scale, r.0);
      if cx == cx0 && cz == cz0 {
        FallbackFrame(overlay, at, scale, hasWater, cx, cz + scale, r.0, j);
      } else {
        FallbackPaints(overlay, at, scale, hasWater, cx, cz + scale, r.0, cx0, cz0);
      }
    }
  }

  // ----- where the chunks of a region go -----

  /** The scales whose chunk size divides 16 evenly: powers of two up to 16. */
  predicate PowerScale(scale: int)
  {
    scale == 1 || scale == 2 || scale == 4 || scale == 8 || scale == 16
  }

  /** `c * chunkSize` with `chunkSize = Tile.CHUNK_SIZE / scale`: the pixel offset of chunk slot `c`. */
  function ChunkOffset(c: int, scale: int32): int32
    requires scale >= 1
  {
    ToInt32(c * JavaDiv(ChunkSize, scale))
  }

  lemma ScaleBitsOfPowerScale(s: int32)
    requires PowerScale(s)
    ensures Pow2(ScaleBits(s)) == s
  {
    ScaleBitsOfPowers();
    assert Pow2(4) == 16;
  }

  /** For a power-of-two scale, column `(cx, cz)` of region chunk `(X, Z)`
      lands on row `Z * cs + cz / s` and column `X * cs + cx / s` of the
      `32 * cs` wide tile in the fallback. */
  lemma PipelineIndex(X: int, Z: int, s: int32, cx: int, cz: int)
    requires PowerScale(s) && 0 <= X < SizeInChunks && 0 <= Z < SizeInChunks && 0 <= cx < ChunkSize && 0 <= cz < ChunkSize
    ensures var cs := ChunkSize / s;
            s * cs == ChunkSize && ChunkOffset(X, s) == X * cs && ChunkOffset(Z, s) == Z * cs &&
            TileWidth(s) == SizeInChunks * cs &&
            0 <= Z * cs + cz / s < SizeInChunks * cs && 0 <= X * cs + cx / s < SizeInChunks * cs &&
            FallbackIndex(X * cs, Z * cs, s, cx, cz) == (Z * cs + cz / s) * (SizeInChunks * cs) + (X * cs + cx / s)
  {
    ScaleBitsOfPowerScale(s);
    if s == 1 {
      PipelineIndexAt(X, Z, 1, 16, cx, cz);
    } else if s == 2 {
      PipelineIndexAt(X, Z, 2, 8, cx, cz);
    } else if s == 4 {
      PipelineIndexAt(X, Z, 4, 4, cx, cz);
    } else if s == 8 {
      PipelineIndexAt(X, Z, 8, 2, cx, cz);
    } else {
      PipelineIndexAt(X, Z, 16, 1, cx, cz);
    }
  }

  /** `drawChunk` puts column `(cx, cz)` of region chunk `(X, Z)` at the same
      place as the fallback (see `PipelineIndex`). */
  lemma PixelLayout(X: int, Z: int, s: int32, cx: int, cz: int)
    requires PowerScale(s) && 0 <= X < SizeInChunks && 0 <= Z < SizeInChunks && 0 <= cx < ChunkSize && 0 <= cz < ChunkSize
    ensures var cs := ChunkSize / s;
            PixelIndex(ChunkOffset(X, s), ChunkOffset(Z, s), ScaleBits(s), cx, cz) ==
            (Z * cs + cz / s) * (SizeInChunks * cs) + (X * cs + cx / s)
  {
    ScaleBitsOfPowerScale(s);
    if s == 1 {
      PixelLayoutAt(X, Z, 1, 16, cx, cz);
    } else if s == 2 {
      PixelLayoutAt(X, Z, 2, 8, cx, cz);
    } else if s == 4 {
      PixelLayoutAt(X, Z, 4, 4, cx, cz);
    } else if s == 8 {
      PixelLayoutAt(X, Z, 8, 2, cx, cz);
    } else {
      PixelLayoutAt(X, Z, 16, 1, cx, cz);
    }
  }

  /** `PipelineIndex` at one scale `s` whose chunk size is `cs`. */
  lemma PipelineIndexAt(X: int, Z: int, s: int32, cs: int, cx: int, cz: int)
    requires s * cs == ChunkSize && PowerScale(s)
    requires 0 <= X < SizeInChunks && 0 <= Z < SizeInChunks && 0 <= cx < ChunkSize && 0 <= cz < ChunkSize
    ensures ChunkSize / s == cs && ChunkOffset(X, s) == X * cs && ChunkOffset(Z, s) == Z * cs
    ensures TileWidth(s) == SizeInChunks * cs
    ensures 0 <= Z * cs + cz / s < SizeInChunks * cs && 0 <= X * cs + cx / s < SizeInChunks * cs
    ensures FallbackIndex(X * cs, Z * cs, s, cx, cz) == (Z * cs + cz / s) * (SizeInChunks * cs) + (X * cs + cx / s)
  {
    var row, col := ScaleArithmetic(X, Z, s, cs, cx, cz);
    JavaDivRem(ChunkSize, s);
    FallbackIndexValue(X * cs, Z * cs, s, cx, cz, row, col, SizeInChunks * cs);
  }

  /** `PixelLayout` at one scale `s` whose chunk size is `cs`. */
  lemma PixelLayoutAt(X: int, Z: int, s: int32, cs: int, cx: int, cz: int)
    requires s * cs == ChunkSize && PowerScale(s) && Pow2(ScaleBits(s)) == s
    requires 0 <= X < SizeInChunks && 0 <= Z < SizeInChunks && 0 <= cx < ChunkSize && 0 <= cz < ChunkSize
    ensures ChunkSize / s == cs
    ensures PixelIndex(ChunkOffset(X, s), ChunkOffset(Z, s), ScaleBits(s), cx, cz) ==
            (Z * cs + cz / s) * (SizeInChunks * cs) + (X * cs + cx / s)
  {
    var row, col := ScaleArithmetic(X, Z, s, cs, cx, cz);
    JavaDivRem(ChunkSize, s);
    assert ChunkOffset(X, s) == X * cs && ChunkOffset(Z, s) == Z * cs;
    PixelIndexValue(X * cs, Z * cs, s, cx, cz, row, col, SizeInChunks * cs);
  }

  lemma FallbackIndexValue(x: int32, z: int32, s: int32, cx: int, cz: int, row: int, col: int, w: int)
    requires 1 <= s && 0 <= cx && 0 <= cz && row == z + cz / s && col == x + cx / s
    requires 0 <= row < TileSize && 0 <= col < TileSize && 0 <= row * w + col < TilePixels
    requires (row * TileSize) / s == row * w
    ensures FallbackIndex(x, z, s, cx, cz) == row * w + col
  {
    FallbackRowValue(z, s, cz, row, w);
    JavaDivRem(cx, s);
    assert ToInt32(x + JavaDiv(cx, s)) == col;
  }

  /** The row part `(z + cz / s) * Tile.SIZE / s` of the fallback's index. */
  lemma FallbackRowValue(z: int32, s: int32, cz: int, row: int, w: int)
    requires 1 <= s && 0 <= cz && row == z + cz / s && 0 <= row < TileSize && (row * TileSize) / s == row * w
    ensures ToInt32(JavaDiv(ToInt32(ToInt32(z + JavaDiv(cz, s)) * TileSize), s)) == row * w
  {
    JavaDivRem(cz, s);
    assert 0 <= row * TileSize < TileSize * TileSize;
    JavaDivRem(row * TileSize, s);
    DivBounds(row * TileSize, s);
  }

  lemma PixelIndexValue(x: int32, z: int32, s: int32, cx: int, cz: int, row: int, col: int, w: int)
    requires 1 <= s && Pow2(ScaleBits(s)) == s && 0 <= cx && 0 <= cz && row == z + cz / s && col == x + cx / s
    requires 0 <= row < TileSize && 0 <= col && 0 <= row * w + col < TilePixels && TileSize / s == w
    ensures PixelIndex(x, z, ScaleBits(s), cx, cz) == row * w + col
  {
    var sb := ScaleBits(s);
    assert ShiftRight(cz, sb) == cz / s && ShiftRight(cx, sb) == cx / s && ShiftRight(TileSize, sb) == w;
    MulMonotone(0, row, w);
    assert ToInt32(z + ShiftRight(cz, sb)) == row;
    assert ToInt32(row * w) == row * w;
    assert ToInt32(x + ShiftRight(cx, sb)) == col;
  }

  /** The products and quotients behind `PipelineIndexAt`, on plain integers. */
  lemma ScaleArithmetic(X: int, Z: int, s: int, cs: int, cx: int, cz: int) returns (row: int, col: int)
    requires s * cs == ChunkSize && 1 <= s
    requires 0 <= X < SizeInChunks && 0 <= Z < SizeInChunks && 0 <= cx < ChunkSize && 0 <= cz < ChunkSize
    ensures ChunkSize / s == cs && TileSize / s == SizeInChunks * cs && 1 <= cs <= ChunkSize
    ensures 0 <= X * cs <= (SizeInChunks - 1) * ChunkSize && 0 <= Z * cs <= (SizeInChunks - 1) * ChunkSize
    ensures row == Z * cs + cz / s && col == X * cs + cx / s
    ensures 0 <= row < SizeInChunks * cs && 0 <= col < SizeInChunks * cs && SizeInChunks * cs <= TileSize
    ensures (row * TileSize) / s == row * (SizeInChunks * cs) && (row * TileSize) % s == 0
    ensures 0 <= row * (SizeInChunks * cs) + col < TilePixels
  {
    ScaleSizes(s, cs);
    var w := SizeInChunks * cs;
    row := BlockCoordinate(Z, cz, s, cs);
    col := BlockCoordinate(X, cx, s, cs);
    RowScaled(row, s, w);
    PixelInside(row, col, w);
  }

  /** At scale `s` a chunk is `cs` pixels wide and the tile `32 * cs`. */
  lemma ScaleSizes(s: int, cs: int)
    requires s * cs == ChunkSize && 1 <= s
    ensures ChunkSize / s == cs && 1 <= cs <= ChunkSize
    ensures (SizeInChunks * cs) * s == TileSize && TileSize / s == SizeInChunks * cs && SizeInChunks * cs <= TileSize
  {
    DivModUnique(ChunkSize, s, cs, 0);
    MulMonotone(1, s, cs);
    var w := SizeInChunks * cs;
    assert w * s == SizeInChunks * (cs * s);
    DivModUnique(TileSize, s, w, 0);
  }

  /** Row `row` of the full-size raster starts at `row * w` of the scaled one. */
  lemma RowScaled(row: int, s: int, w: int)
    requires w * s == TileSize && 1 <= s
    ensures (row * TileSize) / s == row * w && (row * TileSize) % s == 0
  {
    assert row * TileSize == (row * w) * s;
    DivModUnique(row * TileSize, s, row * w, 0);
  }

  /** A pixel of a `w` by `w` raster no wider than the tile lies inside the tile's buffer. */
  lemma PixelInside(row: int, col: int, w: int)
    requires 0 <= row < w && 0 <= col < w && w <= TileSize
    ensures 0 <= row * w + col < TilePixels
  {
    RowInside(row, col, w, w);
    MulMonotone(w, TileSize, w);
    MulMonotone(w, TileSize, TileSize);
    MulMonotone(0, row, w);
  }

  /** Slot `X` of 32 slots of `cs` pixels, offset `c / s` for `c < s * cs`. */
  lemma BlockCoordinate(X: int, c: int, s: int, cs: int) returns (v: int)
    requires s * cs == ChunkSize && 1 <= s && 1 <= cs <= ChunkSize
    requires 0 <= X < SizeInChunks && 0 <= c < ChunkSize
    ensures v == X * cs + c / s
    ensures 0 <= X * cs <= (SizeInChunks - 1) * ChunkSize && 0 <= v < SizeInChunks * cs
  {
    MulMonotone(X, SizeInChunks - 1, cs);
    MulMonotone(cs, ChunkSize, SizeInChunks - 1);
    MulMonotone(0, X, cs);
    DivLess(c, s, cs);
    v := X * cs + c / s;
    assert v < (X + 1) * cs;
    MulMonotone(X + 1, SizeInChunks, cs);
  }

  /** A column the fallback visits: a multiple of `scale` below 16. */
  predicate Sampled(scale: int, c: int)
    requires scale >= 1
  {
    0 <= c < ChunkSize && c % scale == 0
  }

  /** Column `(cx1, cz1)` comes at or after `(cx, cz)` in the loops' order. */
  predicate NotBefore(cx1: int, cz1: int, cx: int, cz: int)
  {
    cx1 > cx || (cx1 == cx && cz1 >= cz)
  }

  /** Of two multiples of `m`, the larger is at least `m` above the smaller. */
  lemma NextMultiple(a: int, b: int, m: int)
    requires m >= 1 && a % m == 0 && b % m == 0 && a > b
    ensures a >= b + m
  {
    var qa, qb := a / m, b / m;
    assert a == m * qa && b == m * qb;
    if qa <= qb {
      MulMonotone(qa, qb, m);
      assert false;
    }
    MulMonotone(qb + 1, qa, m);
  }

  /** The tile's width and height in pixels, `Tile.SIZE / scale`. */
  function TileWidth(scale: int32): int
    requires scale >= 1
  {
    TileSize / scale
  }

  /** No two visited columns share an index. */
  ghost predicate InjectiveOnSamples(at: (int, int) -> int, s: int)
    requires s >= 1
  {
    forall cx, cz, cx0, cz0 {:trigger at(cx, cz), at(cx0, cz0)} ::
      (Sampled(s, cx) && Sampled(s, cz) && Sampled(s, cx0) && Sampled(s, cz0) && at(cx, cz) == at(cx0, cz0))
      ==> cx == cx0 && cz == cz0
  }

  /** Every visited column's index is in `[0, n)`. */
  ghost predicate SamplesInside(at: (int, int) -> int, s: int, n: int)
    requires s >= 1
  {
    forall cx, cz {:trigger at(cx, cz)} :: Sampled(s, cx) && Sampled(s, cz) ==> 0 <= at(cx, cz) < n
  }

  /** Row `r` and column `c` of a `w` wide raster determine the index, and
      a multiple of `s` below `s * cs` is determined by its quotient. */
  lemma LayoutInjective(s: int, cs: int, X: int, Z: int, cx: int, cz: int, cx0: int, cz0: int)
    requires 1 <= s && s * cs == ChunkSize && 0 <= X < SizeInChunks && 0 <= Z < SizeInChunks
    requires Sampled(s, cx) && Sampled(s, cz) && Sampled(s, cx0) && Sampled(s, cz0)
    requires 0 <= X * cs + cx / s < SizeInChunks * cs && 0 <= X * cs + cx0 / s < SizeInChunks * cs
    requires (Z * cs + cz / s) * (SizeInChunks * cs) + (X * cs + cx / s) ==
             (Z * cs + cz0 / s) * (SizeInChunks * cs) + (X * cs + cx0 / s)
    ensures cx == cx0 && cz == cz0
  {
    var w := SizeInChunks * cs;
    var row, col := Z * cs + cz / s, X * cs + cx / s;
    var row0, col0 := Z * cs + cz0 / s, X * cs + cx0 / s;
    DivModUnique(row * w + col, w, row, col);
    DivModUnique(row0 * w + col0, w, row0, col0);
    assert cz / s == cz0 / s && cx / s == cx0 / s;
    SameQuotient(cz, cz0, s);
    SameQuotient(cx, cx0, s);
  }

  /** Two multiples of `s` with the same quotient are equal. */
  lemma SameQuotient(c: int, c0: int, s: int)
    requires s >= 1 && c % s == 0 && c0 % s == 0 && c / s == c0 / s
    ensures c == c0
  {
    assert c == (c / s) * s + c % s;
    assert c0 == (c0 / s) * s + c0 % s;
  }

  /** At a power-of-two scale the fallback of region chunk `(X, Z)` stores
      its visited columns at distinct indices inside a `TileWidth(s)` square. */
  lemma ChunkLayout(X: int, Z: int, s: int32)
    requires PowerScale(s) && 0 <= X < SizeInChunks && 0 <= Z < SizeInChunks
    ensures var at := FallbackIndexer(ChunkOffset(X, s), ChunkOffset(Z, s), s);
            InjectiveOnSamples(at, s) && SamplesInside(at, s, TileWidth(s) * TileWidth(s))
  {
    var at := FallbackIndexer(ChunkOffset(X, s), ChunkOffset(Z, s), s);
    forall cx, cz, cx0, cz0 | Sampled(s, cx) && Sampled(s, cz) && Sampled(s, cx0) && Sampled(s, cz0) &&
                              at(cx, cz) == at(cx0, cz0)
      ensures cx == cx0 && cz == cz0
    {
      ChunkIndexInjective(X, Z, s, cx, cz, cx0, cz0);
    }
    forall cx, cz | Sampled(s, cx) && Sampled(s, cz)
      ensures 0 <= at(cx, cz) < TileWidth(s) * TileWidth(s)
    {
      ChunkIndexInside(X, Z, s, cx, cz);
    }
  }

  lemma ChunkIndexInjective(X: int, Z: int, s: int32, cx: int, cz: int, cx0: int, cz0: int)
    requires PowerScale(s) && 0 <= X < SizeInChunks && 0 <= Z < SizeInChunks
    requires Sampled(s, cx) && Sampled(s, cz) && Sampled(s, cx0) && Sampled(s, cz0)
    requires var x, z := ChunkOffset(X, s), ChunkOffset(Z, s);
             FallbackIndex(x, z, s, cx, cz) == FallbackIndex(x, z, s, cx0, cz0)
    ensures cx == cx0 && cz == cz0
  {
    var cs := ChunkSize / s;
    PipelineIndex(X, Z, s, cx, cz);
    PipelineIndex(X, Z, s, cx0, cz0);
    var w := SizeInChunks * cs;
    assert (Z * cs + cz / s) * w + (X * cs + cx / s) == (Z * cs + cz0 / s) * w + (X * cs + cx0 / s);
    LayoutInjective(s, cs, X, Z, cx, cz, cx0, cz0);
  }

  lemma ChunkIndexInside(X: int, Z: int, s: int32, cx: int, cz: int)
    requires PowerScale(s) && 0 <= X < SizeInChunks && 0 <= Z < SizeInChunks
    requires Sampled(s, cx) && Sampled(s, cz)
    ensures 0 <= FallbackIndex(ChunkOffset(X, s), ChunkOffset(Z, s), s, cx, cz) < TileWidth(s) * TileWidth(s)
  {
    var cs := ChunkSize / s;
    PipelineIndex(X, Z, s, cx, cz);
    var w, row, col := SizeInChunks * cs, Z * cs + cz / s, X * cs + cx / s;
    var i := FallbackIndex(ChunkOffset(X, s), ChunkOffset(Z, s), s, cx, cz);
    assert i == row * w + col;
    RowInside(row, col, w, w);
    MulMonotone(0, row, w);
    assert TileWidth(s) == w;
  }

  /** Visited columns from `(cx, cz)` on have indices in `[0, n)`. */
  lemma {:induction false} IndicesInside(at: (int, int) -> int, s: int32, cx: int, cz: int, n: int)
    requires s >= 1 && 0 <= cx && 0 <= cz && cx % s == 0 && cz % s == 0 && SamplesInside(at, s, n)
    ensures forall j :: j in FallbackIndices(at, s, cx, cz) ==> 0 <= j < n
    decreases ChunkSize - cx, ChunkSize - cz
  {
    if cx < ChunkSize {
      if cz >= ChunkSize {
        ModAddMultiple(cx, s, 1);
        IndicesInside(at, s, cx + s, 0, n);
      } else {
        ModAddMultiple(cz, s, 1);
        IndicesInside(at, s, cx, cz + s, n);
        assert Sampled(s, cx) && Sampled(s, cz);
      }
    }
  }

  /** No visited column other than `(cx0, cz0)` shares its index. */
  ghost predicate DiffersFrom(at: (int, int) -> int, s: int, cx0: int, cz0: int)
    requires s >= 1
  {
    forall cx, cz {:trigger at(cx, cz)} ::
      Sampled(s, cx) && Sampled(s, cz) && (cx != cx0 || cz != cz0) ==> at(cx, cz) != at(cx0, cz0)
  }

  lemma InjectiveDiffers(at: (int, int) -> int, s: int32, cx0: int, cz0: int)
    requires s >= 1 && InjectiveOnSamples(at, s) && Sampled(s, cx0) && Sampled(s, cz0)
    ensures DiffersFrom(at, s, cx0, cz0)
  {
  }

  /** No column visited after `(cx0, cz0)` shares its index. */
  lemma {:induction false} LaterDiffer(at: (int, int) -> int, s: int32, cx: int, cz: int, cx0: int, cz0: int)
    requires s >= 1 && DiffersFrom(at, s, cx0, cz0)
    requires 0 <= cx && 0 <= cz && cx % s == 0 && cz % s == 0 && Sampled(s, cx0) && Sampled(s, cz0)
    requires cx > cx0 || (cx == cx0 && cz > cz0)
    ensures at(cx0, cz0) !in FallbackIndices(at, s, cx, cz)
    decreases ChunkSize - cx, ChunkSize - cz
  {
    if cx < ChunkSize {
      if cz >= ChunkSize {
        ModAddMultiple(cx, s, 1);
        LaterDiffer(at, s, cx + s, 0, cx0, cz0);
        assert FallbackIndices(at, s, cx, cz) == FallbackIndices(at, s, cx + s, 0);
      } else {
        ModAddMultiple(cz, s, 1);
        LaterDiffer(at, s, cx, cz + s, cx0, cz0);
        assert Sampled(s, cx) && Sampled(s, cz);
        assert at(cx, cz) != at(cx0, cz0);
        assert FallbackIndices(at, s, cx, cz) == {at(cx, cz)} + FallbackIndices(at, s, cx, cz + s);
      }
    }
  }

  /** Every column `(cx0, cz0)` at or after `(cx, cz)` is visited. */
  lemma {:induction false} SamplesVisited(s: int32, cx: int, cz: int, cx0: int, cz0: int)
    requires s >= 1 && 0 <= cx && 0 <= cz && cx % s == 0 && cz % s == 0 && Sampled(s, cx0) && Sampled(s, cz0)
    requires NotBefore(cx0, cz0, cx, cz)
    ensures (cx0, cz0) in FallbackSamples(s, cx, cz)
    decreases ChunkSize - cx, ChunkSize - cz
  {
    if cz >= ChunkSize {
      ModAddMultiple(cx, s, 1);
      NextMultiple(cx0, cx, s);
      SamplesVisited(s, cx + s, 0, cx0, cz0);
    } else if cx != cx0 || cz != cz0 {
      ModAddMultiple(cz, s, 1);
      if cx == cx0 {
        NextMultiple(cz0, cz, s);
      }
      SamplesVisited(s, cx, cz + s, cx0, cz0);
    }
  }

  /** With every index below `n` and buffers of at least `n` entries, no store throws. */
  lemma {:induction false} FallbackInside(overlay: seq<int32>, at: (int, int) -> int, scale: int32, hasWater: bool,
                                          cx: int, cz: int, b: Buffers, n: int)
    requires |overlay| == 256 && scale >= 1 && 0 <= cx && 0 <= cz
    requires forall j :: j in FallbackIndices(at, scale, cx, cz) ==> 0 <= j < n
    requires n <= |b.pixels| && n <= |b.terrain| && (hasWater ==> n <= |b.waterHeights|)
    ensures !FallbackFrom(overlay, at, scale, hasWater, cx, cz, b).1
    decreases ChunkSize - cx, ChunkSize - cz
  {
    if cx < ChunkSize {
      if cz >= ChunkSize {
        assert FallbackIndices(at, scale, cx, cz) == FallbackIndices(at, scale, cx + scale, 0);
        FallbackInside(overlay, at, scale, hasWater, cx + scale, 0, b, n);
      } else {
        var rgb := overlay[cz * 16 + cx];
        assert FallbackIndices(at, scale, cx, cz) == {at(cx, cz)} + FallbackIndices(at, scale, cx, cz + scale);
        FallbackStep(b, at(cx, cz), rgb, hasWater);
        var r := Written(b, at(cx, cz), FallbackStores(rgb, hasWater));
        FallbackInside(overlay, at, scale, hasWater, cx, cz + scale, r.0, n);
      }
    }
  }

  /** The corrupted-chunk fallback of region chunk `(X, Z)` at a power-of-two
      scale: it never throws on buffers of a whole tile, and every visited
      column's pixel, the one `drawChunk` would have drawn, shows the overlay
      pixel at terrain height 64 (and water height 64 when that buffer exists). */
  lemma FallbackOfChunk(overlay: seq<int32>, X: int, Z: int, s: int32, hasWater: bool, b: Buffers, cx0: int, cz0: int)
    requires |overlay| == 256 && PowerScale(s) && 0 <= X < SizeInChunks && 0 <= Z < SizeInChunks
    requires Sampled(s, cx0) && Sampled(s, cz0)
    requires var n := TileWidth(s) * TileWidth(s);
             n <= |b.pixels| && n <= |b.terrain| && (hasWater ==> n <= |b.waterHeights|)
    ensures var x, z := ChunkOffset(X, s), ChunkOffset(Z, s);
            var r := FallbackFrom(overlay, FallbackIndexer(x, z, s), s, hasWater, 0, 0, b);
            var k := PixelIndex(x, z, ScaleBits(s), cx0, cz0);
            !r.1 && 0 <= k < |r.0.pixels| && k < |r.0.terrain| &&
            r.0.pixels[k] == overlay[cz0 * 16 + cx0] && r.0.terrain[k] == 64 &&
            (hasWater ==> k < |r.0.waterHeights| && r.0.waterHeights[k] == 64)
  {
    var x, z := ChunkOffset(X, s), ChunkOffset(Z, s);
    ChunkLayout(X, Z, s);
    FallbackOfLayout(overlay, FallbackIndexer(x, z, s), s, hasWater, b, cx0, cz0, TileWidth(s) * TileWidth(s));
    PixelMatchesFallback(X, Z, s, cx0, cz0);
  }

  /** The fallback over any placement `at` that keeps visited columns apart
      and inside `[0, n)`, on buffers of at least `n` entries. */
  lemma FallbackOfLayout(overlay: seq<int32>, at: (int, int) -> int, s: int32, hasWater: bool, b: Buffers,
                         cx0: int, cz0: int, n: int)
    requires |overlay| == 256 && s >= 1 && InjectiveOnSamples(at, s) && SamplesInside(at, s, n)
    requires Sampled(s, cx0) && Sampled(s, cz0)
    requires n <= |b.pixels| && n <= |b.terrain| && (hasWater ==> n <= |b.waterHeights|)
    ensures var r := FallbackFrom(overlay, at, s, hasWater, 0, 0, b);
            var k := at(cx0, cz0);
            !r.1 && 0 <= k < |r.0.pixels| && k < |r.0.terrain| &&
            r.0.pixels[k] == overlay[cz0 * 16 + cx0] && r.0.terrain[k] == 64 &&
            (hasWater ==> k < |r.0.waterHeights| && r.0.waterHeights[k] == 64)
  {
    IndicesInside(at, s, 0, 0, n);
    FallbackInside(overlay, at, s, hasWater, 0, 0, b, n);
    SamplesVisited(s, 0, 0, cx0, cz0);
    ModAddMultiple(cz0, s, 1);
    InjectiveDiffers(at, s, cx0, cz0);
    LaterDiffer(at, s, cx0, cz0 + s, cx0, cz0);
    FallbackPaints(overlay, at, s, hasWater, 0, 0, b, cx0, cz0);
  }

  /** `drawChunk` and the fallback agree on where column `(cx, cz)` goes. */
  lemma PixelMatchesFallback(X: int, Z: int, s: int32, cx: int, cz: int)
    requires PowerScale(s) && 0 <= X < SizeInChunks && 0 <= Z < SizeInChunks && 0 <= cx < ChunkSize && 0 <= cz < ChunkSize
    ensures var x, z := ChunkOffset(X, s), ChunkOffset(Z, s);
            PixelIndex(x, z, ScaleBits(s), cx, cz) == FallbackIndex(x, z, s, cx, cz)
  {
    PipelineIndex(X, Z, s, cx, cz);
    PixelLayout(X, Z, s, cx, cz);
  }

  // ----- drawChunkImage -----

  /** `drawCaves` over the caller's buffers: it is handed only the pixel and
      terrain buffers, so the water buffers come back as they were. Under
      `LengthWidths` the index widths are read off the buffers' lengths, as
      the program does, which misreads the format
      (`CaveBlockWidthMismatch`, `CaveBiomeWidthMismatch`); under
      `PaletteWidths` they come from the palettes. */
  function CavesOn(root: ChunkRoot, cm: ColorMapping, x: int32, z: int32, scale: int32, b: Buffers, height: int32,
                   rule: WidthRule): (Buffers, bool)
    requires scale >= 1
  {
    var r := DrawCavesSpec(root, cm, x, z, scale, b.(waterPixels := [], waterHeights := []), height, rule);
    (r.0.(waterPixels := b.waterPixels, waterHeights := b.waterHeights), r.1)
  }

  /** The renderer call of `drawChunkImage`: caves, the (empty) `drawLayer`,
      or `drawChunk` with water when shading water; without a registered
      renderer for data version 4325 the lookup itself throws. */
  function Rendered(cfg: WorldConfig, cm: ColorMapping, registered: bool, root: ChunkRoot, x: int32, z: int32, scale: int32,
                    b: Buffers): (Buffers, bool)
    requires scale >= 1
  {
    if !registered then (b, true)
    else if cfg.renderCaves then CavesOn(root, cm, x, z, scale, b, cfg.renderHeight, cfg.caveWidths)
    else if cfg.renderLayerOnly then (b, false)
    else DrawChunkSpec(root, cm, x, z, scale, b, cfg.shade && cfg.shadeWater, cfg.renderHeight)
  }

  /** `drawChunkImage`: nothing without chunk data; when the renderer throws,
      the overlay fallback runs on what it left, and a throw from the
      fallback escapes. */
  function ChunkImage(cfg: WorldConfig, cm: ColorMapping, registered: bool, data: Option<ChunkRoot>,
                      x: int32, z: int32, scale: int32, overlay: seq<int32>, hasWater: bool, b: Buffers): (Buffers, bool)
    requires |overlay| == 256 && scale >= 1
  {
    if data.None? then (b, false)
    else
      var r := Rendered(cfg, cm, registered, data.value, x, z, scale, b);
      if !r.1 then r
      else FallbackFrom(overlay, FallbackIndexer(x, z, scale), scale, hasWater, 0, 0, r.0)
  }

  /** `drawChunkImage` over the tile's buffers (`wp` and `wh` may be `null`);
      returns whether an exception escaped it. */
  method DrawChunkImage(cfg: WorldConfig, cm: ColorMapping, registered: bool, data: Option<ChunkRoot>,
                        x: int32, z: int32, scale: int32, overlay: seq<int32>,
                        p: array<int32>, wp: array?<int32>, t: array<int16>, wh: array?<int16>) returns (threw: bool)
    requires |overlay| == 256 && scale >= 1 && wp != p && wh != t
    modifies p, wp, t, wh
    ensures (Snapshot(p, wp, t, wh), threw) == ChunkImage(cfg, cm, registered, data, x, z, scale, overlay, wh != null,
                                                          old(Snapshot(p, wp, t, wh)))
  {
    if data.None? {
      return false;
    }
    ghost var b0 := Snapshot(p, wp, t, wh);
    var failed := true;
    if registered {
      if cfg.renderCaves {
        failed := DrawCaves(data.value, cm, x, z, scale, p, t, cfg.renderHeight, cfg.caveWidths);
        assert Snapshot(p, wp, t, wh) == Snapshot(p, null, t, null).(waterPixels := b0.waterPixels, waterHeights := b0.waterHeights);
      } else if cfg.renderLayerOnly {
        failed := false;
      } else {
        failed := DrawChunk(data.value, cm, x, z, scale, p, wp, t, wh, cfg.shade && cfg.shadeWater, cfg.renderHeight);
      }
    }
    assert (Snapshot(p, wp, t, wh), failed) == Rendered(cfg, cm, registered, data.value, x, z, scale, b0);
    if failed {
      threw := Fallback(overlay, FallbackIndexer(x, z, scale), scale, p, wp, t, wh);
    } else {
      threw := false;
    }
  }

  // ----- where each chunk draws -----

  lemma TileWidthOfScale(s: int32)
    requires PowerScale(s)
    ensures s * (ChunkSize / s) == ChunkSize && 1 <= ChunkSize / s <= ChunkSize
    ensures TileWidth(s) == SizeInChunks * (ChunkSize / s)
  {
  }

  lemma ChunkSizeOfScale(s: int32)
    requires PowerScale(s)
    ensures s * (ChunkSize / s) == ChunkSize && 1 <= ChunkSize / s
  {
  }

  /** Index `k` lies in the `cs` by `cs` block of region chunk `(X, Z)` of
      the `TileWidth(s)` wide tile, `cs = 16 / s`. */
  ghost predicate InBlock(k: int, X: int, Z: int, s: int32)
    requires PowerScale(s)
  {
    var w, cs := TileWidth(s), ChunkSize / s;
    0 <= k && Z * cs <= k / w < Z * cs + cs && X * cs <= k % w < X * cs + cs
  }

  /** Row `Z * cs + cz / s`, column `X * cs + cx / s` is in chunk `(X, Z)`'s block. */
  lemma LayoutInBlock(X: int, Z: int, s: int32, cx: int, cz: int)
    requires PowerScale(s) && 0 <= X < SizeInChunks && 0 <= Z < SizeInChunks && 0 <= cx < ChunkSize && 0 <= cz < ChunkSize
    ensures var cs := ChunkSize / s;
            InBlock((Z * cs + cz / s) * (SizeInChunks * cs) + (X * cs + cx / s), X, Z, s)
  {
    var cs := ChunkSize / s;
    TileWidthOfScale(s);
    var row := BlockCoordinate(Z, cz, s, cs);
    var col := BlockCoordinate(X, cx, s, cs);
    DivLess(cz, s, cs);
    DivLess(cx, s, cs);
    RowColInBlock(row, col, TileWidth(s), cs, X, Z);
  }

  /** Index `row * w + col` of a `w` wide grid reads back as its row and
      column, so it lies in the block holding that row and column. */
  lemma RowColInBlock(row: int, col: int, w: int, cs: int, X: int, Z: int)
    requires 0 <= row && 0 <= col < w
    requires Z * cs <= row < Z * cs + cs && X * cs <= col < X * cs + cs
    ensures var k := row * w + col;
            0 <= k && Z * cs <= k / w < Z * cs + cs && X * cs <= k % w < X * cs + cs
  {
    MulMonotone(0, row, w);
    DivModUnique(row * w + col, w, row, col);
  }

  /** `drawChunk` draws chunk `(X, Z)` only inside its block. */
  lemma PixelInBlock(X: int, Z: int, s: int32, cx: int, cz: int)
    requires PowerScale(s) && 0 <= X < SizeInChunks && 0 <= Z < SizeInChunks && 0 <= cx < ChunkSize && 0 <= cz < ChunkSize
    ensures InBlock(PixelIndex(ChunkOffset(X, s), ChunkOffset(Z, s), ScaleBits(s), cx, cz), X, Z, s)
  {
    PixelLayout(X, Z, s, cx, cz);
    LayoutInBlock(X, Z, s, cx, cz);
  }

  /** The fallback draws chunk `(X, Z)` only inside its block. */
  lemma FallbackInBlock(X: int, Z: int, s: int32, cx: int, cz: int)
    requires PowerScale(s) && 0 <= X < SizeInChunks && 0 <= Z < SizeInChunks && 0 <= cx < ChunkSize && 0 <= cz < ChunkSize
    ensures InBlock(FallbackIndex(ChunkOffset(X, s), ChunkOffset(Z, s), s, cx, cz), X, Z, s)
  {
    PipelineIndex(X, Z, s, cx, cz);
    LayoutInBlock(X, Z, s, cx, cz);
  }

  /** The blocks of two different chunks do not overlap. */
  lemma BlocksDisjoint(k: int, X: int, Z: int, X0: int, Z0: int, s: int32)
    requires PowerScale(s) && InBlock(k, X, Z, s) && InBlock(k, X0, Z0, s)
    ensures X == X0 && Z == Z0
  {
    var cs := ChunkSize / s;
    ChunkSizeOfScale(s);
    if Z < Z0 {
      MulMonotone(Z + 1, Z0, cs);
    } else if Z0 < Z {
      MulMonotone(Z0 + 1, Z, cs);
    }
    if X < X0 {
      MulMonotone(X + 1, X0, cs);
    } else if X0 < X {
      MulMonotone(X0 + 1, X, cs);
    }
  }

  /** An index that `at` never gives is not among the fallback's stores. */
  lemma {:induction false} IndicesAvoid(at: (int, int) -> int, s: int32, cx: int, cz: int, k: int)
    requires s >= 1 && 0 <= cx && 0 <= cz
    requires forall cx1, cz1 :: 0 <= cx1 < ChunkSize && 0 <= cz1 < ChunkSize ==> at(cx1, cz1) != k
    ensures k !in FallbackIndices(at, s, cx, cz)
    decreases ChunkSize - cx, ChunkSize - cz
  {
    if cx < ChunkSize {
      if cz >= ChunkSize {
        IndicesAvoid(at, s, cx + s, 0, k);
      } else {
        IndicesAvoid(at, s, cx, cz + s, k);
        assert FallbackIndices(at, s, cx, cz) == {at(cx, cz)} + FallbackIndices(at, s, cx, cz + s);
      }
    }
  }

  /** Drawing region chunk `(X, Z)` at a power-of-two scale, by its renderer
      or by the fallback, leaves every index outside the chunk's block as it was. */
  lemma ChunkImageFrame(cfg: WorldConfig, cm: ColorMapping, registered: bool, data: Option<ChunkRoot>,
                        X: int, Z: int, s: int32, overlay: seq<int32>, hasWater: bool, b: Buffers, k: int)
    requires |overlay| == 256 && PowerScale(s) && 0 <= X < SizeInChunks && 0 <= Z < SizeInChunks
    requires !InBlock(k, X, Z, s)
    ensures SameAt(b, ChunkImage(cfg, cm, registered, data, ChunkOffset(X, s), ChunkOffset(Z, s), s, overlay, hasWater, b).0, k)
  {
    var x, z := ChunkOffset(X, s), ChunkOffset(Z, s);
    if data.Some? {
      var root := data.value;
      RenderedFrame(cfg, cm, registered, root, X, Z, s, b, k);
      var r := Rendered(cfg, cm, registered, root, x, z, s, b);
      if r.1 {
        FallbackOutsideBlock(overlay, X, Z, s, hasWater, r.0, k);
        SameAtTrans(b, r.0, FallbackFrom(overlay, FallbackIndexer(x, z, s), s, hasWater, 0, 0, r.0).0, k);
      }
    }
  }

  /** The fallback for chunk `(X, Z)` leaves indices outside its block alone. */
  lemma FallbackOutsideBlock(overlay: seq<int32>, X: int, Z: int, s: int32, hasWater: bool, b: Buffers, k: int)
    requires |overlay| == 256 && PowerScale(s) && 0 <= X < SizeInChunks && 0 <= Z < SizeInChunks
    requires !InBlock(k, X, Z, s)
    ensures var at := FallbackIndexer(ChunkOffset(X, s), ChunkOffset(Z, s), s);
            SameAt(b, FallbackFrom(overlay, at, s, hasWater, 0, 0, b).0, k)
  {
    var at := FallbackIndexer(ChunkOffset(X, s), ChunkOffset(Z, s), s);
    forall cx1, cz1 | 0 <= cx1 < ChunkSize && 0 <= cz1 < ChunkSize
      ensures at(cx1, cz1) != k
    {
      FallbackInBlock(X, Z, s, cx1, cz1);
    }
    IndicesAvoid(at, s, 0, 0, k);
    FallbackFrame(overlay, at, s, hasWater, 0, 0, b, k);
  }

  /** The renderer call for chunk `(X, Z)` leaves indices outside its block alone. */
  lemma RenderedFrame(cfg: WorldConfig, cm: ColorMapping, registered: bool, root: ChunkRoot,
                      X: int, Z: int, s: int32, b: Buffers, k: int)
    requires PowerScale(s) && 0 <= X < SizeInChunks && 0 <= Z < SizeInChunks && !InBlock(k, X, Z, s)
    ensures SameAt(b, Rendered(cfg, cm, registered, root, ChunkOffset(X, s), ChunkOffset(Z, s), s, b).0, k)
  {
    var x, z := ChunkOffset(X, s), ChunkOffset(Z, s);
    forall cx1, cz1 | 0 <= cx1 < 16 && 0 <= cz1 < 16
      ensures PixelIndex(x, z, ScaleBits(s), cx1, cz1) != k
    {
      PixelInBlock(X, Z, s, cx1, cz1);
    }
    if registered && cfg.renderCaves {
      DrawCavesFrame(root, cm, x, z, s, b.(waterPixels := [], waterHeights := []), cfg.renderHeight, cfg.caveWidths, k);
    } else if registered && !cfg.renderLayerOnly {
      DrawChunkFrame(root, cm, x, z, s, b, cfg.shade && cfg.shadeWater, cfg.renderHeight, k);
    }
  }

  // ----- the region's 32 by 32 chunk loop -----

  /** The chunk loops of `generateBufferedImage` from slot `(X, Z)` on: slot
      `Z * 32 + X` is drawn at offset `(X * chunkSize, Z * chunkSize)`, empty
      slots are skipped, and the first chunk that throws ends the loops. */
  function TileFrom(cfg: WorldConfig, cm: ColorMapping, registered: bool, slots: seq<Option<RegionChunk>>, scale: int32,
                    overlay: seq<int32>, hasWater: bool, X: int, Z: int, b: Buffers): (Buffers, bool)
    requires |slots| == SizeInChunks * SizeInChunks && |overlay| == 256 && scale >= 1 && 0 <= X && 0 <= Z
    decreases SizeInChunks - X, SizeInChunks - Z
  {
    if X >= SizeInChunks then (b, false)
    else if Z >= SizeInChunks then TileFrom(cfg, cm, registered, slots, scale, overlay, hasWater, X + 1, 0, b)
    else
      var r := SlotImage(cfg, cm, registered, slots[Z * SizeInChunks + X], X, Z, scale, overlay, hasWater, b);
      if r.1 then r
      else TileFrom(cfg, cm, registered, slots, scale, overlay, hasWater, X, Z + 1, r.0)
  }

  /** One slot of the chunk loops: skipped when empty, else `drawChunkImage`. */
  function SlotImage(cfg: WorldConfig, cm: ColorMapping, registered: bool, slot: Option<RegionChunk>, X: int, Z: int,
                     scale: int32, overlay: seq<int32>, hasWater: bool, b: Buffers): (Buffers, bool)
    requires |overlay| == 256 && scale >= 1
  {
    if slot.None? then (b, false)
    else ChunkImage(cfg, cm, registered, slot.value.data, ChunkOffset(X, scale), ChunkOffset(Z, scale),
                    scale, overlay, hasWater, b)
  }

  /** A slot leaves alone every index of a blank slot's block. */
  lemma SlotFrame(cfg: WorldConfig, cm: ColorMapping, registered: bool, slots: seq<Option<RegionChunk>>, s: int32,
                  overlay: seq<int32>, hasWater: bool, X: int, Z: int, b: Buffers, X0: int, Z0: int, k: int)
    requires |slots| == SizeInChunks * SizeInChunks && |overlay| == 256 && PowerScale(s)
    requires 0 <= X < SizeInChunks && 0 <= Z < SizeInChunks
    requires 0 <= X0 < SizeInChunks && 0 <= Z0 < SizeInChunks && Blank(slots, X0, Z0) && InBlock(k, X0, Z0, s)
    ensures SameAt(b, SlotImage(cfg, cm, registered, slots[Z * SizeInChunks + X], X, Z, s, overlay, hasWater, b).0, k)
  {
    var slot := slots[Z * SizeInChunks + X];
    if slot.Some? {
      if InBlock(k, X, Z, s) {
        BlocksDisjoint(k, X, Z, X0, Z0, s);
        assert slot.value.data.None?;
        NoDataNoImage(cfg, cm, registered, X, Z, s, overlay, hasWater, b);
      } else {
        ChunkImageFrame(cfg, cm, registered, slot.value.data, X, Z, s, overlay, hasWater, b, k);
      }
    }
  }

  /** A chunk without data draws nothing. */
  lemma NoDataNoImage(cfg: WorldConfig, cm: ColorMapping, registered: bool, X: int, Z: int, s: int32,
                      overlay: seq<int32>, hasWater: bool, b: Buffers)
    requires |overlay| == 256 && s >= 1
    ensures ChunkImage(cfg, cm, registered, None, ChunkOffset(X, s), ChunkOffset(Z, s), s, overlay, hasWater, b) == (b, false)
  {
  }

  /** Slot `(X, Z)` holds no chunk data. */
  predicate Blank(slots: seq<Option<RegionChunk>>, X: int, Z: int)
    requires |slots| == SizeInChunks * SizeInChunks && 0 <= X < SizeInChunks && 0 <= Z < SizeInChunks
  {
    slots[Z * SizeInChunks + X].None? || slots[Z * SizeInChunks + X].value.data.None?
  }

  /** At a power-of-two scale nothing is drawn into the block of a slot
      without chunk data: every index of it keeps its value. */
  lemma {:induction false} BlankSlotUntouched(cfg: WorldConfig, cm: ColorMapping, registered: bool,
                                              slots: seq<Option<RegionChunk>>, s: int32, overlay: seq<int32>,
                                              hasWater: bool, X: int, Z: int, b: Buffers, X0: int, Z0: int, k: int)
    requires |slots| == SizeInChunks * SizeInChunks && |overlay| == 256 && PowerScale(s) && 0 <= X && 0 <= Z
    requires 0 <= X0 < SizeInChunks && 0 <= Z0 < SizeInChunks && Blank(slots, X0, Z0) && InBlock(k, X0, Z0, s)
    ensures SameAt(b, TileFrom(cfg, cm, registered, slots, s, overlay, hasWater, X, Z, b).0, k)
    decreases SizeInChunks - X, SizeInChunks - Z
  {
    if X < SizeInChunks {
      if Z >= SizeInChunks {
        BlankSlotUntouched(cfg, cm, registered, slots, s, overlay, hasWater, X + 1, 0, b, X0, Z0, k);
      } else {
        var r := SlotImage(cfg, cm, registered, slots[Z * SizeInChunks + X], X, Z, s, overlay, hasWater, b);
        SlotFrame(cfg, cm, registered, slots, s, overlay, hasWater, X, Z, b, X0, Z0, k);
        if !r.1 {
          BlankSlotUntouched(cfg, cm, registered, slots, s, overlay, hasWater, X, Z + 1, r.0, X0, Z0, k);
          SameAtTrans(b, r.0, TileFrom(cfg, cm, registered, slots, s, overlay, hasWater, X, Z + 1, r.0).0, k);
        }
      }
    }
  }

  /** When the renderer of region chunk `(X, Z)` throws at a power-of-two
      scale on buffers of a whole tile, the chunk comes out as the overlay:
      nothing escapes, and every visited column shows its overlay pixel at
      terrain height 64 where `drawChunk` would have drawn it. */
  lemma ChunkImageFallback(cfg: WorldConfig, cm: ColorMapping, registered: bool, root: ChunkRoot,
                           X: int, Z: int, s: int32, overlay: seq<int32>, hasWater: bool, b: Buffers, cx0: int, cz0: int)
    requires |overlay| == 256 && PowerScale(s) && 0 <= X < SizeInChunks && 0 <= Z < SizeInChunks
    requires Sampled(s, cx0) && Sampled(s, cz0)
    requires var n := TileWidth(s) * TileWidth(s);
             n <= |b.pixels| && n <= |b.terrain| && (hasWater ==> n <= |b.waterHeights|)
    requires Rendered(cfg, cm, registered, root, ChunkOffset(X, s), ChunkOffset(Z, s), s, b).1
    ensures var x, z := ChunkOffset(X, s), ChunkOffset(Z, s);
            var r := ChunkImage(cfg, cm, registered, Some(root), x, z, s, overlay, hasWater, b);
            var k := PixelIndex(x, z, ScaleBits(s), cx0, cz0);
            !r.1 && 0 <= k < |r.0.pixels| && k < |r.0.terrain| &&
            r.0.pixels[k] == overlay[cz0 * 16 + cx0] && r.0.terrain[k] == 64 &&
            (hasWater ==> k < |r.0.waterHeights| && r.0.waterHeights[k] == 64)
  {
    RenderedFrame(cfg, cm, registered, root, X, Z, s, b, -1);
    FallbackOfChunk(overlay, X, Z, s, hasWater, Rendered(cfg, cm, registered, root, ChunkOffset(X, s), ChunkOffset(Z, s), s, b).0, cx0, cz0);
  }

  /** The chunk loops of `generateBufferedImage` over the tile's buffers;
      returns whether an exception escaped. */
  method DrawTile(cfg: WorldConfig, cm: ColorMapping, registered: bool, slots: seq<Option<RegionChunk>>, scale: int32,
                  overlay: seq<int32>, p: array<int32>, wp: array?<int32>, t: array<int16>, wh: array?<int16>)
    returns (threw: bool)
    requires |slots| == SizeInChunks * SizeInChunks && |overlay| == 256 && scale >= 1 && wp != p && wh != t
    modifies p, wp, t, wh
    ensures (Snapshot(p, wp, t, wh), threw) == TileFrom(cfg, cm, registered, slots, scale, overlay, wh != null, 0, 0,
                                                         old(Snapshot(p, wp, t, wh)))
  {
    var chunkSize := JavaDiv(ChunkSize, scale);
    ghost var target := TileFrom(cfg, cm, registered, slots, scale, overlay, wh != null, 0, 0, Snapshot(p, wp, t, wh));
    var cx := 0;
    while cx < SizeInChunks
      invariant 0 <= cx <= SizeInChunks
      invariant TileFrom(cfg, cm, registered, slots, scale, overlay, wh != null, cx, 0, Snapshot(p, wp, t, wh)) == target
    {
      threw := DrawTileColumn(cfg, cm, registered, slots, scale, chunkSize, overlay, cx, p, wp, t, wh);
      if threw {
        return;
      }
      cx := cx + 1;
    }
    return false;
  }

  /** The inner `cz` loop for chunk column `cx`: either a chunk throws, or
      the loops continue at `cx + 1`. */
  method DrawTileColumn(cfg: WorldConfig, cm: ColorMapping, registered: bool, slots: seq<Option<RegionChunk>>,
                        scale: int32, chunkSize: int, overlay: seq<int32>, cx: int,
                        p: array<int32>, wp: array?<int32>, t: array<int16>, wh: array?<int16>) returns (threw: bool)
    requires |slots| == SizeInChunks * SizeInChunks && |overlay| == 256 && scale >= 1 && wp != p && wh != t
    requires chunkSize == JavaDiv(ChunkSize, scale) && 0 <= cx < SizeInChunks
    modifies p, wp, t, wh
    ensures TileFrom(cfg, cm, registered, slots, scale, overlay, wh != null, cx, 0, old(Snapshot(p, wp, t, wh))) ==
            if threw then (Snapshot(p, wp, t, wh), true)
            else TileFrom(cfg, cm, registered, slots, scale, overlay, wh != null, cx + 1, 0, Snapshot(p, wp, t, wh))
  {
    ghost var target := TileFrom(cfg, cm, registered, slots, scale, overlay, wh != null, cx, 0, Snapshot(p, wp, t, wh));
    var cz := 0;
    while cz < SizeInChunks
      invariant 0 <= cz <= SizeInChunks
      invariant TileFrom(cfg, cm, registered, slots, scale, overlay, wh != null, cx, cz, Snapshot(p, wp, t, wh)) == target
    {
      threw := DrawSlot(cfg, cm, registered, slots[cz * SizeInChunks + cx], cx, cz, scale, chunkSize, overlay, p, wp, t, wh);
      if threw {
        return;
      }
      cz := cz + 1;
    }
    return false;
  }

  /** One slot of the chunk loops: an empty slot is skipped, any other drawn by `drawChunkImage`. */
  method DrawSlot(cfg: WorldConfig, cm: ColorMapping, registered: bool, slot: Option<RegionChunk>, cx: int, cz: int,
                  scale: int32, chunkSize: int, overlay: seq<int32>,
                  p: array<int32>, wp: array?<int32>, t: array<int16>, wh: array?<int16>) returns (threw: bool)
    requires |overlay| == 256 && scale >= 1 && wp != p && wh != t
    requires chunkSize == JavaDiv(ChunkSize, scale) && 0 <= cx < SizeInChunks && 0 <= cz < SizeInChunks
    modifies p, wp, t, wh
    ensures (Snapshot(p, wp, t, wh), threw) ==
            SlotImage(cfg, cm, registered, slot, cx, cz, scale, overlay, wh != null, old(Snapshot(p, wp, t, wh)))
  {
    threw := false;
    if slot.Some? {
      threw := DrawChunkImage(cfg, cm, registered, slot.value.data, ToInt32(cx * chunkSize), ToInt32(cz * chunkSize),
                              scale, overlay, p, wp, t, wh);
    }
  }

  // ----- buffer lengths -----

  lemma {:induction false} FallbackShape(overlay: seq<int32>, at: (int, int) -> int, scale: int32, hasWater: bool,
                                         cx: int, cz: int, b: Buffers)
    requires |overlay| == 256 && scale >= 1 && 0 <= cx && 0 <= cz
    ensures SameShape(b, FallbackFrom(overlay, at, scale, hasWater, cx, cz, b).0)
    decreases ChunkSize - cx, ChunkSize - cz
  {
    if cx < ChunkSize {
      if cz >= ChunkSize {
        FallbackShape(overlay, at, scale, hasWater, cx + scale, 0, b);
      } else {
        var rgb := overlay[cz * 16 + cx];
        FallbackStep(b, at(cx, cz), rgb, hasWater);
        var r := Written(b, at(cx, cz), FallbackStores(rgb, hasWater));
        if !r.1 {
          FallbackShape(overlay, at, scale, hasWater, cx, cz + scale, r.0);
        }
      }
    }
  }

  /** `drawChunkImage` never resizes a buffer. */
  lemma ChunkImageShape(cfg: WorldConfig, cm: ColorMapping, registered: bool, data: Option<ChunkRoot>,
                        x: int32, z: int32, scale: int32, overlay: seq<int32>, hasWater: bool, b: Buffers)
    requires |overlay| == 256 && scale >= 1
    ensures SameShape(b, ChunkImage(cfg, cm, registered, data, x, z, scale, overlay, hasWater, b).0)
  {
    if data.Some? {
      var root := data.value;
      if registered && cfg.renderCaves {
        DrawCavesShape(root, cm, x, z, scale, b.(waterPixels := [], waterHeights := []), cfg.renderHeight, cfg.caveWidths);
      } else if registered && !cfg.renderLayerOnly {
        DrawChunkShape(root, cm, x, z, scale, b, cfg.shade && cfg.shadeWater, cfg.renderHeight);
      }
      var r := Rendered(cfg, cm, registered, root, x, z, scale, b);
      if r.1 {
        FallbackShape(overlay, FallbackIndexer(x, z, scale), scale, hasWater, 0, 0, r.0);
      }
    }
  }

  /** The chunk loops never resize a buffer. */
  lemma {:induction false} TileShape(cfg: WorldConfig, cm: ColorMapping, registered: bool, slots: seq<Option<RegionChunk>>,
                                     scale: int32, overlay: seq<int32>, hasWater: bool, X: int, Z: int, b: Buffers)
    requires |slots| == SizeInChunks * SizeInChunks && |overlay| == 256 && scale >= 1 && 0 <= X && 0 <= Z
    ensures SameShape(b, TileFrom(cfg, cm, registered, slots, scale, overlay, hasWater, X, Z, b).0)
    decreases SizeInChunks - X, SizeInChunks - Z
  {
    if X < SizeInChunks {
      if Z >= SizeInChunks {
        TileShape(cfg, cm, registered, slots, scale, overlay, hasWater, X + 1, 0, b);
      } else {
        var slot := slots[Z * SizeInChunks + X];
        if slot.Some? {
          ChunkImageShape(cfg, cm, registered, slot.value.data, ChunkOffset(X, scale), ChunkOffset(Z, scale),
                          scale, overlay, hasWater, b);
        }
        var r := SlotImage(cfg, cm, registered, slot, X, Z, scale, overlay, hasWater, b);
        if !r.1 {
          TileShape(cfg, cm, registered, slots, scale, overlay, hasWater, X, Z + 1, r.0);
        }
      }
    }
  }
}
