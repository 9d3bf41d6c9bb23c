/** `drawCaves` of the 1.21 chunk renderer: per column, scanning down from
    the render height, it passes over the first run of solid blocks, waits
    for an open (transparent or foliage) block below them, and draws the
    next solid block, the top of the first cave floor. Each section's
    palettes, buffers and widths are cached the first time a column reaches it. */
module CaveRenderer {
  import opened JavaInts
  import opened Results
  import opened PackedIndices
  import opened ChunkNbt
  import opened SectionReader
  import opened SurfaceRenderer

  /** The words of a `data` entry that is a long array; any other tag gives no buffer. */
  function CaveWords(data: Option<DataTag>): (r: Option<seq<int>>)
    ensures r.Some? <==> data.Some? && data.value.LongArrayTag?
  {
    if data.Some? && data.value.LongArrayTag? then Some(data.value.longs) else None
  }

  /** `data.length >> 6`: the block index width read off the buffer's length; 0 without a long array. */
  function CaveBlockBits(data: Option<DataTag>): nat
  {
    if data.Some? && data.value.LongArrayTag? then |data.value.longs| / 64 else 0
  }

  /** `biomes.length >> 3`: the biome index width read off the buffer's length; 0 without a long array. */
  function CaveBiomeBits(data: Option<DataTag>): nat
  {
    if data.Some? && data.value.LongArrayTag? then |data.value.longs| / 8 else 0
  }

  /** The width of the mask `(2 << (bits - 1)) - 1`; all 32 bits for a zero width. */
  function CaveMaskWidth(bits: int): (w: nat)
    ensures 1 <= w <= 32
    ensures MaskOfWidth(w) == ToInt32(IntShiftLeft(2, bits - 1) - 1)
    ensures 1 <= bits <= 32 ==> w == bits
  {
    CaveMaskExpression(bits);
    (bits - 1) % 32 + 1
  }

  /** `(int) (64D / bits)`: a zero width divides to infinity, which the cast
      turns into `Integer.MAX_VALUE`; otherwise the quotient's integer part,
      which the double division gives exactly for an int divisor. */
  function CavePerLong(bits: nat): (r: int)
    ensures bits > 0 ==> r == IndicesPerLong(bits)
    ensures r >= 0 && (bits <= 64 ==> r >= 1)
  {
    if bits == 0 then INT_MAX else 64 / bits
  }

  /** One section's cache entry. */
  datatype CaveInfo = CaveInfo(palette: Option<seq<BlockState>>, blocks: Option<seq<int>>, bits: nat,
                               biomePalette: Option<seq<BiomeEntry>>, biomes: Option<seq<int>>, biomeBits: nat,
                               startHeight: int, sectionHeight: int32)

  /** Filling the cache for section `i`; a section without a `block_states`
      or `biomes` compound throws, since the source reads `data` from it unchecked. */
  function CaveInfoOf(s: Section, g: Geometry, i: int): (r: Attempt<CaveInfo>)
    ensures r.Threw? <==> s.blockStates.None? || s.biomes.None?
    ensures r.Done? ==> 0 <= r.value.startHeight <= 15 && r.value.palette == PaletteOf(s.blockStates)
  {
    if s.blockStates.None? || s.biomes.None? then Threw
    else
      var bd := s.blockStates.value.data;
      var md := s.biomes.value.data;
      Done(CaveInfo(s.blockStates.value.palette, CaveWords(bd), CaveBlockBits(bd),
                    s.biomes.value.palette, CaveWords(md), CaveBiomeBits(md),
                    if ShiftRight(g.absHeight, 4) == i then g.absHeight % 16 else 15,
                    ToInt32(ToInt32(i + g.yMin) * 16)))
  }

  /** `ignored` counts the solid blocks passed so far; `doneSkipping` is set
      once an open block follows them. */
  datatype CaveState = Looking(ignored: int32, doneSkipping: bool) | Found | CaveFailed

  datatype CaveScan = CaveScan(b: Buffers, state: CaveState)

  /** Where the index widths come from: the buffers' lengths, as `drawCaves`
      computes them, or the palette sizes, as `drawChunk` does and as the
      format prescribes. */
  datatype WidthRule = LengthWidths | PaletteWidths

  /** Filling the cache for section `i` under either width rule. */
  function SectionInfo(rule: WidthRule, s: Section, g: Geometry, i: int): (r: Attempt<CaveInfo>)
    ensures r.Threw? <==> s.blockStates.None? || s.biomes.None?
    ensures r.Done? ==> 0 <= r.value.startHeight <= 15 && r.value.palette == PaletteOf(s.blockStates)
  {
    if rule.LengthWidths? then CaveInfoOf(s, g, i) else CorrectedCaveInfo(s, g, i)
  }

  /** What `drawCaves` works on besides the buffers. */
  datatype Caves = Caves(cm: ColorMapping, g: Geometry, indexed: seq<Option<Section>>, rule: WidthRule)

  /** Neither transparent nor foliage. */
  predicate Solid(cm: ColorMapping, b: BlockState)
  {
    !cm.isTransparent(b) && !cm.isFoliage(b)
  }

  function CaveBlock(info: CaveInfo, cx: int, cz: int, cy: int): Attempt<Option<BlockState>>
    requires 0 <= cx < 16 && 0 <= cz < 16 && 0 <= cy < 16
  {
    GetBlock(cx, cy, cz, info.blocks, info.bits, CaveMaskWidth(info.bits), CavePerLong(info.bits), info.palette)
  }

  function CaveBiome(info: CaveInfo, cx: int, cz: int, cy: int): Attempt<string>
  {
    GetBiome(cx, cy, cz, info.biomes, info.biomeBits, CaveMaskWidth(info.biomeBits), CavePerLong(info.biomeBits), info.biomePalette)
  }

  /** One `cy` step. */
  function CaveStep(cm: ColorMapping, info: CaveInfo, cx: int, cz: int, cy: int, j: int, s: CaveScan): CaveScan
    requires 0 <= cx < 16 && 0 <= cz < 16 && 0 <= cy < 16 && s.state.Looking?
  {
    match CaveBlock(info, cx, cz, cy)
    case Threw => CaveScan(s.b, CaveFailed)
    case Done(blk) =>
      if blk.None? then s
      else if Solid(cm, blk.value) then
        if s.state.doneSkipping then
          match CaveBiome(info, cx, cz, cy)
          case Threw => CaveScan(s.b, CaveFailed)
          case Done(biome) =>
            var (b1, threw) := Written(s.b, j, [SetPixel(cm.rgb(blk.value, biome)),
                                                SetTerrain(ToShort(ToInt32(info.sectionHeight + cy)))]);
            CaveScan(b1, if threw then CaveFailed else Found)
        else CaveScan(s.b, Looking(ToInt32(s.state.ignored + 1), false))
      else if s.state.ignored > 0 then CaveScan(s.b, Looking(s.state.ignored, true))
      else s
  }

  /** The `cy` loop of one section from `cy` down to 0. */
  function CaveCells(cm: ColorMapping, info: CaveInfo, cx: int, cz: int, j: int, cy: int, s: CaveScan): CaveScan
    requires 0 <= cx < 16 && 0 <= cz < 16 && cy < 16
    decreases cy + 1
  {
    if cy < 0 || !s.state.Looking? then s
    else CaveCells(cm, info, cx, cz, j, cy - 1, CaveStep(cm, info, cx, cz, cy, j, s))
  }

  /** The section loop from `i` down to 0; a section without a block palette is passed over. */
  function CaveSections(ctx: Caves, cx: int, cz: int, j: int, i: int, s: CaveScan): CaveScan
    requires 0 <= cx < 16 && 0 <= cz < 16
    decreases i + 1
  {
    if i < 0 || !s.state.Looking? then s
    else if i >= |ctx.indexed| then CaveScan(s.b, CaveFailed)
    else if ctx.indexed[i].None? then CaveSections(ctx, cx, cz, j, i - 1, s)
    else match SectionInfo(ctx.rule, ctx.indexed[i].value, ctx.g, i)
      case Threw => CaveScan(s.b, CaveFailed)
      case Done(info) =>
        if info.palette.None? then CaveSections(ctx, cx, cz, j, i - 1, s)
        else CaveSections(ctx, cx, cz, j, i - 1, CaveCells(ctx.cm, info, cx, cz, j, info.startHeight, s))
  }

  function CaveColumn(ctx: Caves, cx: int, cz: int, j: int, b: Buffers): CaveScan
    requires 0 <= cx < 16 && 0 <= cz < 16
  {
    CaveSections(ctx, cx, cz, j, ctx.g.top, CaveScan(b, Looking(0, false)))
  }

  /** The `cx`/`cz` loops from column `(cx, cz)` on. */
  function CavesFrom(ctx: Caves, x: int32, z: int32, scale: int32, cx: int, cz: int, b: Buffers): (Buffers, bool)
    requires scale >= 1 && 0 <= cx && 0 <= cz
    decreases 16 - cx, 16 - cz
  {
    if cx >= 16 then (b, false)
    else if cz >= 16 then CavesFrom(ctx, x, z, scale, cx + scale, 0, b)
    else
      var s := CaveColumn(ctx, cx, cz, PixelIndex(x, z, ScaleBits(scale), cx, cz), b);
      if s.state.CaveFailed? then (s.b, true)
      else CavesFrom(ctx, x, z, scale, cx, cz + scale, s.b)
  }

  /** `drawCaves`: the pixel and terrain buffers afterwards (the water
      buffers of `b` are not its to touch) and whether it threw. */
  function DrawCavesSpec(root: ChunkRoot, cm: ColorMapping, x: int32, z: int32, scale: int32, b: Buffers,
                         height: int32, rule: WidthRule): (Buffers, bool)
    requires scale >= 1
  {
    if root.sections.None? then (b, false)
    else
      var g := GeometryOf(root, height);
      if g.sMax < 0 then (b, true)
      else
        GeometryValid(root, height);
        CavesFrom(Caves(cm, g, IndexSections(root.sections.value, g), rule), x, z, scale, 0, 0, b)
  }

  /** Every filled cache entry is what `SectionInfo` gives for its section. */
  predicate CacheValid(cache: seq<Option<CaveInfo>>, ctx: Caves)
  {
    |cache| == |ctx.indexed| &&
    forall k :: 0 <= k < |cache| && cache[k].Some? ==>
      ctx.indexed[k].Some? && SectionInfo(ctx.rule, ctx.indexed[k].value, ctx.g, k) == Done(cache[k].value)
  }

  /** The `cy` loop of one section, storing into the buffers. */
  method CaveSection(cm: ColorMapping, info: CaveInfo, cx: int, cz: int, j: int, st0: CaveState,
                     p: array<int32>, t: array<int16>) returns (st: CaveState)
    requires 0 <= cx < 16 && 0 <= cz < 16 && 0 <= info.startHeight <= 15 && st0.Looking?
    modifies p, t
    ensures CaveScan(Snapshot(p, null, t, null), st) ==
            CaveCells(cm, info, cx, cz, j, info.startHeight, CaveScan(old(Snapshot(p, null, t, null)), st0))
  {
    st := st0;
    var cy := info.startHeight;
    while cy >= 0
      invariant -1 <= cy <= 15 && st.Looking?
      invariant CaveCells(cm, info, cx, cz, j, cy, CaveScan(Snapshot(p, null, t, null), st)) ==
                CaveCells(cm, info, cx, cz, j, info.startHeight, CaveScan(old(Snapshot(p, null, t, null)), st0))
      decreases cy + 1
    {
      CaveCellsStep(cm, info, cx, cz, j, cy, CaveScan(Snapshot(p, null, t, null), st));
      var blk := CaveBlock(info, cx, cz, cy);
      if blk.Threw? {
        return CaveFailed;
      }
      if blk.value.Some? {
        if Solid(cm, blk.value.value) {
          if st.doneSkipping {
            var biome := CaveBiome(info, cx, cz, cy);
            if biome.Threw? {
              return CaveFailed;
            }
            var ws := [SetPixel(cm.rgb(blk.value.value, biome.value)), SetTerrain(ToShort(ToInt32(info.sectionHeight + cy)))];
            CaveStepDraws(cm, info, cx, cz, cy, j, CaveScan(Snapshot(p, null, t, null), st), blk.value.value, biome.value);
            var threw := WriteAll(p, null, t, null, j, ws);
            return if threw then CaveFailed else Found;
          }
          st := Looking(ToInt32(st.ignored + 1), false);
        } else if st.ignored > 0 {
          st := Looking(st.ignored, true);
        }
      }
      cy := cy - 1;
    }
  }

  /** A solid block met once skipping is done is drawn: its colour and height are stored and the column ends. */
  lemma CaveStepDraws(cm: ColorMapping, info: CaveInfo, cx: int, cz: int, cy: int, j: int, s: CaveScan,
                      blk: BlockState, biome: string)
    requires 0 <= cx < 16 && 0 <= cz < 16 && 0 <= cy < 16 && s.state.Looking? && s.state.doneSkipping
    requires CaveBlock(info, cx, cz, cy) == Done(Some(blk)) && Solid(cm, blk) && CaveBiome(info, cx, cz, cy) == Done(biome)
    ensures var w := Written(s.b, j, [SetPixel(cm.rgb(blk, biome)), SetTerrain(ToShort(ToInt32(info.sectionHeight + cy)))]);
            CaveStep(cm, info, cx, cz, cy, j, s) == CaveScan(w.0, if w.1 then CaveFailed else Found)
  {
  }

  lemma CaveCellsStep(cm: ColorMapping, info: CaveInfo, cx: int, cz: int, j: int, cy: int, s: CaveScan)
    requires 0 <= cx < 16 && 0 <= cz < 16 && 0 <= cy < 16 && s.state.Looking?
    ensures CaveCells(cm, info, cx, cz, j, cy, s) == CaveCells(cm, info, cx, cz, j, cy - 1, CaveStep(cm, info, cx, cz, cy, j, s))
    ensures !CaveStep(cm, info, cx, cz, cy, j, s).state.Looking? ==>
              CaveCells(cm, info, cx, cz, j, cy - 1, CaveStep(cm, info, cx, cz, cy, j, s)) == CaveStep(cm, info, cx, cz, cy, j, s)
  {
  }

  /** One column of `drawCaves`: the section loop, filling the cache on the way. */
  method CaveColumnInPlace(ctx: Caves, indexed: array<Option<Section>>, cache: array<Option<CaveInfo>>,
                           cx: int, cz: int, j: int, p: array<int32>, t: array<int16>) returns (failed: bool)
    requires 0 <= cx < 16 && 0 <= cz < 16 && indexed[..] == ctx.indexed && CacheValid(cache[..], ctx)
    modifies p, t, cache
    ensures CacheValid(cache[..], ctx)
    ensures Snapshot(p, null, t, null) == CaveColumn(ctx, cx, cz, j, old(Snapshot(p, null, t, null))).b
    ensures failed == CaveColumn(ctx, cx, cz, j, old(Snapshot(p, null, t, null))).state.CaveFailed?
  {
    ghost var target := CaveColumn(ctx, cx, cz, j, Snapshot(p, null, t, null));
    var st := Looking(0, false);
    var i := ctx.g.top;
    while i >= 0 && st.Looking?
      invariant CacheValid(cache[..], ctx) && indexed[..] == ctx.indexed
      invariant CaveSections(ctx, cx, cz, j, i, CaveScan(Snapshot(p, null, t, null), st)) == target
      decreases i + 1
    {
      if i >= indexed.Length {
        return true;
      }
      st := CaveSectionAt(ctx, indexed, cache, cx, cz, j, i, st, p, t);
      i := i - 1;
    }
    return st.CaveFailed?;
  }

  /** One step of the section loop: section `i`, if present, has its palette
      and block data read once into the cache, and is scanned when it has a palette. */
  method CaveSectionAt(ctx: Caves, indexed: array<Option<Section>>, cache: array<Option<CaveInfo>>,
                       cx: int, cz: int, j: int, i: int, st: CaveState, p: array<int32>, t: array<int16>)
    returns (st': CaveState)
    requires 0 <= cx < 16 && 0 <= cz < 16 && indexed[..] == ctx.indexed && CacheValid(cache[..], ctx)
    requires 0 <= i < indexed.Length && st.Looking?
    modifies p, t, cache
    ensures CacheValid(cache[..], ctx)
    ensures CaveSections(ctx, cx, cz, j, i, CaveScan(old(Snapshot(p, null, t, null)), st)) ==
            CaveSections(ctx, cx, cz, j, i - 1, CaveScan(Snapshot(p, null, t, null), st'))
  {
    st' := st;
    if indexed[i].Some? {
      if cache[i].None? {
        var info := SectionInfo(ctx.rule, indexed[i].value, ctx.g, i);
        if info.Threw? {
          return CaveFailed;
        }
        cache[i] := Some(info.value);
      }
      var info := cache[i].value;
      if info.palette.Some? {
        st' := CaveSection(ctx.cm, info, cx, cz, j, st, p, t);
      }
    }
  }

  lemma CavesFromColumn(ctx: Caves, x: int32, z: int32, scale: int32, cx: int, cz: int, b: Buffers)
    requires scale >= 1 && 0 <= cx < 16 && 0 <= cz < 16
    ensures var s := CaveColumn(ctx, cx, cz, PixelIndex(x, z, ScaleBits(scale), cx, cz), b);
            CavesFrom(ctx, x, z, scale, cx, cz, b) == if s.state.CaveFailed? then (s.b, true) else CavesFrom(ctx, x, z, scale, cx, cz + scale, s.b)
  {
  }

  lemma CavesFromRow(ctx: Caves, x: int32, z: int32, scale: int32, cx: int, cz: int, b: Buffers)
    requires scale >= 1 && 0 <= cx < 16 && 16 <= cz
    ensures CavesFrom(ctx, x, z, scale, cx, cz, b) == CavesFrom(ctx, x, z, scale, cx + scale, 0, b)
  {
  }

  /** The `cz` loop of `drawCaves` for one `cx`. */
  method CaveRow(ctx: Caves, indexed: array<Option<Section>>, cache: array<Option<CaveInfo>>,
                 x: int32, z: int32, scale: int32, cx: int, p: array<int32>, t: array<int16>) returns (threw: bool)
    requires scale >= 1 && 0 <= cx < 16 && indexed[..] == ctx.indexed && CacheValid(cache[..], ctx)
    modifies p, t, cache
    ensures CacheValid(cache[..], ctx)
    ensures threw ==> (Snapshot(p, null, t, null), true) == CavesFrom(ctx, x, z, scale, cx, 0, old(Snapshot(p, null, t, null)))
    ensures !threw ==> CavesFrom(ctx, x, z, scale, cx + scale, 0, Snapshot(p, null, t, null))
                       == CavesFrom(ctx, x, z, scale, cx, 0, old(Snapshot(p, null, t, null)))
  {
    ghost var target := CavesFrom(ctx, x, z, scale, cx, 0, Snapshot(p, null, t, null));
    var sb := ScaleBits(scale);
    var cz := 0;
    while cz < 16
      invariant 0 <= cz && CacheValid(cache[..], ctx) && indexed[..] == ctx.indexed
      invariant CavesFrom(ctx, x, z, scale, cx, cz, Snapshot(p, null, t, null)) == target
      decreases 16 - cz
    {
      var j := PixelIndex(x, z, sb, cx, cz);
      CavesFromColumn(ctx, x, z, scale, cx, cz, Snapshot(p, null, t, null));
      var failed := CaveColumnInPlace(ctx, indexed, cache, cx, cz, j, p, t);
      if failed {
        return true;
      }
      cz := cz + scale;
    }
    CavesFromRow(ctx, x, z, scale, cx, cz, Snapshot(p, null, t, null));
    return false;
  }

  /** The chunk loop of `drawCaves`, over the indexed sections and a fresh cache. */
  method CaveRows(ctx: Caves, indexed: array<Option<Section>>, cache: array<Option<CaveInfo>>,
                  x: int32, z: int32, scale: int32, p: array<int32>, t: array<int16>) returns (threw: bool)
    requires scale >= 1 && indexed[..] == ctx.indexed && CacheValid(cache[..], ctx)
    modifies p, t, cache
    ensures (Snapshot(p, null, t, null), threw) == CavesFrom(ctx, x, z, scale, 0, 0, old(Snapshot(p, null, t, null)))
  {
    ghost var target := CavesFrom(ctx, x, z, scale, 0, 0, Snapshot(p, null, t, null));
    var cx := 0;
    while cx < 16
      invariant 0 <= cx && indexed[..] == ctx.indexed && CacheValid(cache[..], ctx)
      invariant CavesFrom(ctx, x, z, scale, cx, 0, Snapshot(p, null, t, null)) == target
      decreases 16 - cx
    {
      threw := CaveRow(ctx, indexed, cache, x, z, scale, cx, p, t);
      if threw {
        return;
      }
      cx := cx + scale;
    }
    return false;
  }

  /** `drawCaves` over the caller's pixel and terrain buffers; returns whether it threw. */
  method DrawCaves(root: ChunkRoot, cm: ColorMapping, x: int32, z: int32, scale: int32,
                   p: array<int32>, t: array<int16>, height: int32, rule: WidthRule) returns (threw: bool)
    requires scale >= 1
    modifies p, t
    ensures (Snapshot(p, null, t, null), threw) == DrawCavesSpec(root, cm, x, z, scale, old(Snapshot(p, null, t, null)), height, rule)
  {
    ghost var b0 := Snapshot(p, null, t, null);
    if root.sections.None? {
      return false;
    }
    var g := GeometryOf(root, height);
    if g.sMax < 0 {
      return true;
    }
    GeometryValid(root, height);
    var indexed := IndexSectionsInto(root.sections.value, g);
    var cache := new Option<CaveInfo>[g.sMax](_ => None);
    var ctx := Caves(cm, g, indexed[..], rule);
    assert DrawCavesSpec(root, cm, x, z, scale, b0, height, rule) == CavesFrom(ctx, x, z, scale, 0, 0, b0);
    threw := CaveRows(ctx, indexed, cache, x, z, scale, p, t);
  }

  lemma CaveStepKept(cm: ColorMapping, info: CaveInfo, cx: int, cz: int, cy: int, j: int, s: CaveScan)
    requires 0 <= cx < 16 && 0 <= cz < 16 && 0 <= cy < 16 && s.state.Looking?
    ensures Kept(s.b, CaveStep(cm, info, cx, cz, cy, j, s).b, j, false)
  {
    var blk := CaveBlock(info, cx, cz, cy);
    if blk.Done? && blk.value.Some? && Solid(cm, blk.value.value) && s.state.doneSkipping {
      var biome := CaveBiome(info, cx, cz, cy);
      if biome.Done? {
        var ws := [SetPixel(cm.rgb(blk.value.value, biome.value)), SetTerrain(ToShort(ToInt32(info.sectionHeight + cy)))];
        WrittenKept(s.b, j, ws, false);
      }
    }
  }

  lemma {:induction false} CaveCellsKept(cm: ColorMapping, info: CaveInfo, cx: int, cz: int, j: int, cy: int, s: CaveScan)
    requires 0 <= cx < 16 && 0 <= cz < 16 && cy < 16
    ensures Kept(s.b, CaveCells(cm, info, cx, cz, j, cy, s).b, j, false)
    decreases cy + 1
  {
    if cy >= 0 && s.state.Looking? {
      var s1 := CaveStep(cm, info, cx, cz, cy, j, s);
      CaveStepKept(cm, info, cx, cz, cy, j, s);
      CaveCellsKept(cm, info, cx, cz, j, cy - 1, s1);
      KeptTrans(s.b, s1.b, CaveCells(cm, info, cx, cz, j, cy - 1, s1).b, j, false);
    }
  }

  lemma {:induction false} CaveSectionsKept(ctx: Caves, cx: int, cz: int, j: int, i: int, s: CaveScan)
    requires 0 <= cx < 16 && 0 <= cz < 16
    ensures Kept(s.b, CaveSections(ctx, cx, cz, j, i, s).b, j, false)
    decreases i + 1
  {
    if i >= 0 && s.state.Looking? && i < |ctx.indexed| && ctx.indexed[i].Some? {
      var info := SectionInfo(ctx.rule, ctx.indexed[i].value, ctx.g, i);
      if info.Done? {
        if info.value.palette.None? {
          CaveSectionsKept(ctx, cx, cz, j, i - 1, s);
        } else {
          var s1 := CaveCells(ctx.cm, info.value, cx, cz, j, info.value.startHeight, s);
          CaveCellsKept(ctx.cm, info.value, cx, cz, j, info.value.startHeight, s);
          CaveSectionsKept(ctx, cx, cz, j, i - 1, s1);
          KeptTrans(s.b, s1.b, CaveSections(ctx, cx, cz, j, i - 1, s1).b, j, false);
        }
      }
    } else if i >= 0 && s.state.Looking? && i < |ctx.indexed| {
      CaveSectionsKept(ctx, cx, cz, j, i - 1, s);
    }
  }

  /** A column of `drawCaves` stores only at its own pixel index and never into a water buffer. */
  lemma CaveColumnKept(ctx: Caves, cx: int, cz: int, j: int, b: Buffers)
    requires 0 <= cx < 16 && 0 <= cz < 16
    ensures Kept(b, CaveColumn(ctx, cx, cz, j, b).b, j, false)
  {
    CaveSectionsKept(ctx, cx, cz, j, ctx.g.top, CaveScan(b, Looking(0, false)));
  }

  lemma {:induction false} CavesFromFrame(ctx: Caves, x: int32, z: int32, scale: int32, cx: int, cz: int, b: Buffers, k: int)
    requires scale >= 1 && 0 <= cx && 0 <= cz && Unmapped(x, z, scale, k)
    ensures SameAt(b, CavesFrom(ctx, x, z, scale, cx, cz, b).0, k)
    ensures CavesFrom(ctx, x, z, scale, cx, cz, b).0.waterPixels == b.waterPixels
    ensures CavesFrom(ctx, x, z, scale, cx, cz, b).0.waterHeights == b.waterHeights
    decreases 16 - cx, 16 - cz
  {
    if cx < 16 {
      if cz >= 16 {
        CavesFromFrame(ctx, x, z, scale, cx + scale, 0, b, k);
      } else {
        var s := CaveColumn(ctx, cx, cz, PixelIndex(x, z, ScaleBits(scale), cx, cz), b);
        CaveColumnFrame(ctx, x, z, scale, cx, cz, b, k);
        if !s.state.CaveFailed? {
          CavesFromFrame(ctx, x, z, scale, cx, cz + scale, s.b, k);
          SameAtTrans(b, s.b, CavesFrom(ctx, x, z, scale, cx, cz + scale, s.b).0, k);
        }
      }
    }
  }

  lemma CaveColumnShape(ctx: Caves, cx: int, cz: int, j: int, b: Buffers)
    requires 0 <= cx < 16 && 0 <= cz < 16
    ensures SameShape(b, CaveColumn(ctx, cx, cz, j, b).b)
  {
    CaveColumnKept(ctx, cx, cz, j, b);
  }

  /** A cave column that does not map to `k` keeps index `k` and both water buffers. */
  lemma CaveColumnFrame(ctx: Caves, x: int32, z: int32, scale: int32, cx: int, cz: int, b: Buffers, k: int)
    requires scale >= 1 && 0 <= cx < 16 && 0 <= cz < 16 && Unmapped(x, z, scale, k)
    ensures var s := CaveColumn(ctx, cx, cz, PixelIndex(x, z, ScaleBits(scale), cx, cz), b);
            SameAt(b, s.b, k) && s.b.waterPixels == b.waterPixels && s.b.waterHeights == b.waterHeights
  {
    var j := PixelIndex(x, z, ScaleBits(scale), cx, cz);
    CaveColumnKept(ctx, cx, cz, j, b);
    UnmappedAt(x, z, scale, k, cx, cz);
    KeptSameAt(b, CaveColumn(ctx, cx, cz, j, b).b, j, k, false);
  }

  lemma {:induction false} CavesFromShape(ctx: Caves, x: int32, z: int32, scale: int32, cx: int, cz: int, b: Buffers)
    requires scale >= 1 && 0 <= cx && 0 <= cz
    ensures SameShape(b, CavesFrom(ctx, x, z, scale, cx, cz, b).0)
    decreases 16 - cx, 16 - cz
  {
    if cx < 16 {
      if cz >= 16 {
        CavesFromShape(ctx, x, z, scale, cx + scale, 0, b);
      } else {
        var s := CaveColumn(ctx, cx, cz, PixelIndex(x, z, ScaleBits(scale), cx, cz), b);
        CavesFromColumn(ctx, x, z, scale, cx, cz, b);
        CaveColumnShape(ctx, cx, cz, PixelIndex(x, z, ScaleBits(scale), cx, cz), b);
        if !s.state.CaveFailed? {
          CavesFromShape(ctx, x, z, scale, cx, cz + scale, s.b);
        }
      }
    }
  }

  /** `drawCaves` never resizes a buffer. */
  lemma DrawCavesShape(root: ChunkRoot, cm: ColorMapping, x: int32, z: int32, scale: int32, b: Buffers, height: int32,
                       rule: WidthRule)
    requires scale >= 1
    ensures SameShape(b, DrawCavesSpec(root, cm, x, z, scale, b, height, rule).0)
  {
    if root.sections.Some? {
      var g := GeometryOf(root, height);
      if g.sMax >= 0 {
        GeometryValid(root, height);
        CavesFromShape(Caves(cm, g, IndexSections(root.sections.value, g), rule), x, z, scale, 0, 0, b);
      }
    }
  }

  /** `drawCaves` changes only the pixels its sampled columns map to, and no water buffer. */
  lemma DrawCavesFrame(root: ChunkRoot, cm: ColorMapping, x: int32, z: int32, scale: int32, b: Buffers, height: int32,
                       rule: WidthRule, k: int)
    requires scale >= 1
    requires forall cx1, cz1 :: 0 <= cx1 < 16 && 0 <= cz1 < 16 ==> PixelIndex(x, z, ScaleBits(scale), cx1, cz1) != k
    ensures SameAt(b, DrawCavesSpec(root, cm, x, z, scale, b, height, rule).0, k)
    ensures DrawCavesSpec(root, cm, x, z, scale, b, height, rule).0.waterPixels == b.waterPixels
    ensures DrawCavesSpec(root, cm, x, z, scale, b, height, rule).0.waterHeights == b.waterHeights
  {
    if root.sections.Some? {
      var g := GeometryOf(root, height);
      if g.sMax >= 0 {
        GeometryValid(root, height);
        CavesFromFrame(Caves(cm, g, IndexSections(root.sections.value, g), rule), x, z, scale, 0, 0, b, k);
      }
    }
  }

  /** No cell from `cy` down to 0 is an open block, and every one is read without throwing. */
  predicate AllSolidOrEmpty(cm: ColorMapping, info: CaveInfo, cx: int, cz: int, cy: int)
    requires 0 <= cx < 16 && 0 <= cz < 16 && cy < 16
  {
    forall c :: 0 <= c <= cy ==>
      (CaveBlock(info, cx, cz, c).Done? &&
       (CaveBlock(info, cx, cz, c).value.Some? ==> Solid(cm, CaveBlock(info, cx, cz, c).value.value)))
  }

  /** Until an open block has been met, solid blocks are only counted: nothing is drawn. */
  lemma {:induction false} SolidRunDrawsNothing(cm: ColorMapping, info: CaveInfo, cx: int, cz: int, j: int, cy: int,
                                                b: Buffers, ignored: int32)
    requires 0 <= cx < 16 && 0 <= cz < 16 && cy < 16
    requires AllSolidOrEmpty(cm, info, cx, cz, cy)
    ensures var r := CaveCells(cm, info, cx, cz, j, cy, CaveScan(b, Looking(ignored, false)));
            r.b == b && r.state.Looking? && !r.state.doneSkipping
    decreases cy + 1
  {
    if cy >= 0 {
      var s := CaveScan(b, Looking(ignored, false));
      var s1 := CaveStep(cm, info, cx, cz, cy, j, s);
      assert s1.b == b && s1.state.Looking? && !s1.state.doneSkipping;
      SolidRunDrawsNothing(cm, info, cx, cz, j, cy - 1, b, s1.state.ignored);
    }
  }

  /** An open or empty cell, read without throwing. */
  predicate OpenCell(cm: ColorMapping, info: CaveInfo, cx: int, cz: int, c: int)
    requires 0 <= cx < 16 && 0 <= cz < 16 && 0 <= c < 16
  {
    CaveBlock(info, cx, cz, c).Done? &&
    (CaveBlock(info, cx, cz, c).value.Some? ==> !Solid(cm, CaveBlock(info, cx, cz, c).value.value))
  }

  /** Once skipping is done, open cells leave the scan as it is. */
  lemma {:induction false} OpenCellsPass(cm: ColorMapping, info: CaveInfo, cx: int, cz: int, j: int, cy: int, lo: int,
                                         s: CaveScan)
    requires 0 <= cx < 16 && 0 <= cz < 16 && 0 <= lo <= cy < 16
    requires s.state.Looking? && s.state.doneSkipping
    requires forall c :: lo < c <= cy ==> OpenCell(cm, info, cx, cz, c)
    ensures CaveCells(cm, info, cx, cz, j, cy, s) == CaveCells(cm, info, cx, cz, j, lo, s)
    decreases cy - lo
  {
    if cy > lo {
      assert OpenCell(cm, info, cx, cz, cy);
      assert CaveStep(cm, info, cx, cz, cy, j, s) == s;
      OpenCellsPass(cm, info, cx, cz, j, cy - 1, lo, s);
    }
  }

  /** After an open block below the roof, the next solid block is the cave
      floor: its colour and height are stored and the column is done. */
  lemma CaveFloor(cm: ColorMapping, info: CaveInfo, cx: int, cz: int, j: int, cy: int, lo: int, b: Buffers,
                  ignored: int32, blk: BlockState, biome: string)
    requires 0 <= cx < 16 && 0 <= cz < 16 && 0 <= lo <= cy < 16
    requires forall c :: lo < c <= cy ==> OpenCell(cm, info, cx, cz, c)
    requires CaveBlock(info, cx, cz, lo) == Done(Some(blk)) && Solid(cm, blk)
    requires CaveBiome(info, cx, cz, lo) == Done(biome)
    requires 0 <= j < |b.pixels| && j < |b.terrain|
    ensures CaveCells(cm, info, cx, cz, j, cy, CaveScan(b, Looking(ignored, true))) ==
            CaveScan(b.(pixels := b.pixels[j := cm.rgb(blk, biome)],
                        terrain := b.terrain[j := ToShort(ToInt32(info.sectionHeight + lo))]), Found)
  {
    var s := CaveScan(b, Looking(ignored, true));
    OpenCellsPass(cm, info, cx, cz, j, cy, lo, s);
    var h := ToShort(ToInt32(info.sectionHeight + lo));
    var b1 := b.(pixels := b.pixels[j := cm.rgb(blk, biome)]);
    var b2 := b1.(terrain := b.terrain[j := h]);
    assert Written(b, j, [SetPixel(cm.rgb(blk, biome)), SetTerrain(h)]) == Written(b1, j, [SetTerrain(h)]);
    assert Written(b1, j, [SetTerrain(h)]) == Written(b2, j, []);
    assert CaveStep(cm, info, cx, cz, lo, j, s) == CaveScan(b2, Found);
  }

  /** An open block after at least one solid block ends the skipping; with
      nothing solid passed yet it is not the way out of a roof. */
  lemma OpeningEndsSkip(cm: ColorMapping, info: CaveInfo, cx: int, cz: int, j: int, cy: int, b: Buffers, ignored: int32)
    requires 0 <= cx < 16 && 0 <= cz < 16 && 0 <= cy < 16
    requires CaveBlock(info, cx, cz, cy).Done? && CaveBlock(info, cx, cz, cy).value.Some?
    requires !Solid(cm, CaveBlock(info, cx, cz, cy).value.value)
    ensures CaveStep(cm, info, cx, cz, cy, j, CaveScan(b, Looking(ignored, false))) ==
            CaveScan(b, Looking(ignored, ignored > 0))
  {
  }

  /** The first word of an 11-bit buffer whose first five indices are 0, 1, 0, 0, 0. */
  lemma FirstWordOfElevenBits(ids: seq<nat>)
    requires |ids| == 4096 && ids[0] == 0 && ids[1] == 1 && ids[2] == 0 && ids[3] == 0 && ids[4] == 0
    ensures Pack(ids, 11, 5)[0] == 2048
  {
    var g := ids[..5];
    assert g == [0, 1, 0, 0, 0];
    assert Pow2(11) == 2048 by { Pow2Value31(); }
    assert g[4..] == [0] && g[3..] == [0, 0] && g[2..] == [0, 0, 0] && g[1..] == [1, 0, 0, 0];
    assert PackWord([0], 11) == 0;
    assert PackWord([0, 0], 11) == 0;
    assert PackWord([0, 0, 0], 11) == 0;
    assert PackWord([1, 0, 0, 0], 11) == 1;
    assert PackWord(g, 11) == 2048;
  }

  lemma BlockBitsOf1025()
    ensures BlockBits(1025) == 11 && IndicesPerLong(11) == 5
  {
    assert BitLength(1) == 1;
    assert BitLength(2) == 2;
    assert BitLength(4) == 3;
    assert BitLength(8) == 4;
    assert BitLength(16) == 5;
    assert BitLength(32) == 6;
    assert BitLength(64) == 7;
    assert BitLength(128) == 8;
    assert BitLength(256) == 9;
    assert BitLength(512) == 10;
    assert BitLength(1024) == 11;
  }

  lemma ElevenBitsShiftedOut()
    ensures LongShiftRight(2048, 12) == 0
  {
    assert Pow2(12) == 4096 by {
      assert Pow2(1) == 2 && Pow2(2) == 4 && Pow2(3) == 8 && Pow2(4) == 16;
      assert Pow2(5) == 32 && Pow2(6) == 64 && Pow2(7) == 128 && Pow2(8) == 256;
      assert Pow2(9) == 512 && Pow2(10) == 1024 && Pow2(11) == 2048;
    }
    assert 12 % 64 == 12;
  }

  /** Index 1 read at width 12, five per word, from a first word of 2048. */
  lemma TwelveBitIndex(words: seq<int>)
    requires |words| > 0 && words[0] == 2048
    ensures ReadIndex(words, 1, 12, 12, 5) == Done(0)
  {
    JavaDivRem(1, 5);
    assert JavaRem(1, 5) * 12 == 12;
    ElevenBitsShiftedOut();
  }

  lemma TwelveBitRead(words: seq<int>, palette: seq<BlockState>)
    requires |words| > 0 && words[0] == 2048 && |palette| > 0
    ensures GetBlock(1, 0, 0, Some(words), 12, CaveMaskWidth(12), CavePerLong(12), Some(palette)) == Done(Some(palette[0]))
  {
    assert BlockIndex(1, 0, 0) == 1;
    assert CaveMaskWidth(12) == 12 && CavePerLong(12) == 5;
    TwelveBitIndex(words);
  }

  /** `data.length >> 6` misreads an 11-bit block buffer: 4096 indices at five
      per word take 820 words, which gives a width of 12, so the second index of
      the buffer is read from bits 12 to 23 of the first word and comes out 0,
      where `drawChunk`'s width from the palette size reads the 1 written there. */
  lemma CaveBlockWidthMismatch(ids: seq<nat>, palette: seq<BlockState>, data: DataTag)
    requires |ids| == 4096 && |palette| == 1025 && forall i :: 0 <= i < |ids| ==> ids[i] < |palette|
    requires ids[0] == 0 && ids[1] == 1 && ids[2] == 0 && ids[3] == 0 && ids[4] == 0
    requires data.LongArrayTag? && PackedWith(data.longs, ids, BlockBits(|palette|))
    ensures BlockBits(|palette|) == 11 && CaveBlockBits(Some(data)) == 12
    ensures var bits := CaveBlockBits(Some(data));
            GetBlock(1, 0, 0, CaveWords(Some(data)), bits, CaveMaskWidth(bits), CavePerLong(bits), Some(palette))
              == Done(Some(palette[0]))
    ensures var bits := BlockBits(|palette|);
            GetBlock(1, 0, 0, CaveWords(Some(data)), bits, bits % 32, IndicesPerLong(bits), Some(palette))
              == Done(Some(palette[1]))
  {
    BlockBitsOf1025();
    PackLength(ids, 11, 5);
    FirstWordOfElevenBits(ids);
    assert |data.longs| / 64 == 12;
    TwelveBitRead(data.longs, palette);
    GetBlockOfPacked(ids, palette, 1, 0, 0);
  }

  lemma BiomeBitsOfTwo()
    ensures BiomeBits(2) == 1 && IndicesPerLong(1) == 64
  {
    assert BitLength(1) == 1;
  }

  /** `biomes.length >> 3` is 0 for every biome width below 8: two biomes
      take one word, so every block of the first biome cell reads the first
      palette entry, where `drawChunk`'s width from the palette size reads
      the entry written there. */
  lemma CaveBiomeWidthMismatch(ids: seq<nat>, names: seq<string>, palette: seq<BiomeEntry>, data: DataTag,
                               x: int, y: int, z: int)
    requires 0 <= x < 4 && 0 <= y < 4 && 0 <= z < 4
    requires |ids| == 64 && |names| == 2 && forall i :: 0 <= i < |ids| ==> ids[i] < |names|
    requires |palette| == 2 && palette[0] == BiomeName(names[0]) && palette[1] == BiomeName(names[1])
    requires ids[0] == 1
    requires data.LongArrayTag? && PackedWith(data.longs, ids, BiomeBits(|names|))
    ensures BiomeBits(|names|) == 1 && CaveBiomeBits(Some(data)) == 0
    ensures var bits := CaveBiomeBits(Some(data));
            GetBiome(x, y, z, CaveWords(Some(data)), bits, CaveMaskWidth(bits), CavePerLong(bits), Some(palette))
              == Done(names[0])
    ensures var bits := BiomeBits(|names|);
            GetBiome(x, y, z, CaveWords(Some(data)), bits, bits % 32, IndicesPerLong(bits), Some(palette))
              == Done(names[1])
  {
    BiomeBitsOfTwo();
    PackLength(ids, 1, 64);
    assert |data.longs| == 1;
    assert CaveBiomeBits(Some(data)) == 0;
    assert CaveWords(Some(data)) == Some(data.longs);
    CaveBiomeReadsFirst(names, palette, CaveWords(Some(data)), x, y, z);
    PaletteOfTwo(names, palette);
    BiomeIndexFirstCell(x, y, z);
    DrawnBiomeReadsWritten(ids, names, palette, CaveWords(Some(data)), 1, 64, x, y, z);
  }

  lemma CaveBiomeReadsFirst(names: seq<string>, palette: seq<BiomeEntry>, words: Option<seq<int>>, x: int, y: int, z: int)
    requires |names| == 2 && |palette| == 2 && palette[0] == BiomeName(names[0]) && words.Some?
    ensures GetBiome(x, y, z, words, 0, CaveMaskWidth(0), CavePerLong(0), Some(palette)) == Done(names[0])
  {
  }

  lemma DrawnBiomeReadsWritten(ids: seq<nat>, names: seq<string>, palette: seq<BiomeEntry>, words: Option<seq<int>>,
                               b: nat, perLong: nat, x: int, y: int, z: int)
    requires 0 <= x < 16 && 0 <= y < 16 && 0 <= z < 16 && BiomeIndex(x, y, z) == 0
    requires 0 < |names| <= INT_MAX && |ids| == 64 && forall i :: 0 <= i < |ids| ==> ids[i] < |names|
    requires |palette| == |names| && forall i :: 0 <= i < |palette| ==> palette[i] == BiomeName(names[i])
    requires b == BiomeBits(|names|) && b <= 31 && perLong == IndicesPerLong(b) && perLong > 0
    requires words == Some(Pack(ids, b, perLong))
    ensures GetBiome(x, y, z, words, b, b % 32, perLong, Some(palette)) == Done(names[ids[0]])
  {
    GetBiomeOfPacked(ids, names, palette, x, y, z);
  }

  lemma PaletteOfTwo(names: seq<string>, palette: seq<BiomeEntry>)
    requires |names| == 2 && |palette| == 2 && palette[0] == BiomeName(names[0]) && palette[1] == BiomeName(names[1])
    ensures forall i :: 0 <= i < |palette| ==> palette[i] == BiomeName(names[i])
  {
  }

  lemma BiomeIndexFirstCell(x: int, y: int, z: int)
    requires 0 <= x < 4 && 0 <= y < 4 && 0 <= z < 4
    ensures BiomeIndex(x, y, z) == 0
  {
    assert Pow2(2) == 4;
  }

  /** The cache entry as the widths were evidently meant: from the palette
      sizes, as `drawChunk` computes them. */
  function CorrectedCaveInfo(s: Section, g: Geometry, i: int): (r: Attempt<CaveInfo>)
    ensures r.Threw? <==> s.blockStates.None? || s.biomes.None?
    ensures r.Done? ==> 0 <= r.value.startHeight <= 15 && r.value.palette == PaletteOf(s.blockStates)
    ensures r.Done? ==> r.value.bits == BlockBits(PaletteSize(r.value.palette))
                        && r.value.biomeBits == BiomeBits(PaletteSize(r.value.biomePalette))
  {
    match CaveInfoOf(s, g, i)
    case Threw => Threw
    case Done(info) =>
      Done(info.(bits := BlockBits(PaletteSize(info.palette)), biomeBits := BiomeBits(PaletteSize(info.biomePalette))))
  }

  /** For widths 1 to 31 the cave scan's mask and words-per-long agree with `getBlock`'s own. */
  lemma CaveBlockAsDrawn(info: CaveInfo, x: int, y: int, z: int)
    requires 0 <= x < 16 && 0 <= y < 16 && 0 <= z < 16 && 1 <= info.bits <= 31
    ensures CaveBlock(info, x, z, y) ==
            GetBlock(x, y, z, info.blocks, info.bits, info.bits % 32, IndicesPerLong(info.bits), info.palette)
  {
    assert CaveMaskWidth(info.bits) == info.bits % 32;
  }

  /** With the corrected widths the cave scan reads every block a writer of the format stored. */
  lemma CorrectedCaveBlock(info: CaveInfo, ids: seq<nat>, palette: seq<BlockState>, x: int, y: int, z: int)
    requires 0 <= x < 16 && 0 <= y < 16 && 0 <= z < 16
    requires 0 < |palette| <= INT_MAX && |ids| == 4096 && forall i :: 0 <= i < |ids| ==> ids[i] < |palette|
    requires info.palette == Some(palette) && info.bits == BlockBits(|palette|)
    requires 0 < IndicesPerLong(info.bits) && info.blocks == Some(Pack(ids, info.bits, IndicesPerLong(info.bits)))
    ensures CaveBlock(info, x, z, y) == Done(Some(palette[ids[BlockIndex(x, y, z)]]))
  {
    GetBlockOfPacked(ids, palette, x, y, z);
    if info.bits > 0 {
      CaveBlockAsDrawn(info, x, y, z);
    }
  }

  /** For widths 1 to 31 the cave scan's mask and words-per-long agree with `getBiome`'s own. */
  lemma CaveBiomeAsDrawn(info: CaveInfo, x: int, y: int, z: int)
    requires 1 <= info.biomeBits <= 31
    ensures CaveBiome(info, x, z, y) ==
            GetBiome(x, y, z, info.biomes, info.biomeBits, info.biomeBits % 32, IndicesPerLong(info.biomeBits), info.biomePalette)
  {
    assert CaveMaskWidth(info.biomeBits) == info.biomeBits % 32;
  }

  /** With the corrected widths the cave scan reads every biome a writer of the format stored. */
  lemma CorrectedCaveBiome(info: CaveInfo, ids: seq<nat>, names: seq<string>, palette: seq<BiomeEntry>, x: int, y: int, z: int)
    requires 0 <= x < 16 && 0 <= y < 16 && 0 <= z < 16
    requires 0 < |names| <= INT_MAX && |ids| == 64 && forall i :: 0 <= i < |ids| ==> ids[i] < |names|
    requires |palette| == |names| && forall i :: 0 <= i < |palette| ==> palette[i] == BiomeName(names[i])
    requires info.biomePalette == Some(palette)
    requires info.biomeBits == BiomeBits(|names|)
    requires 0 < IndicesPerLong(info.biomeBits) && info.biomes == Some(Pack(ids, info.biomeBits, IndicesPerLong(info.biomeBits)))
    ensures CaveBiome(info, x, z, y) == Done(names[ids[BiomeIndex(x, y, z)]])
  {
    GetBiomeOfPacked(ids, names, palette, x, y, z);
    if info.biomeBits > 0 {
      CaveBiomeAsDrawn(info, x, y, z);
    }
  }
}
