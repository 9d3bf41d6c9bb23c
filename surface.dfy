/** `drawChunk` of the 1.21 chunk renderer: the vertical layout derived from
    the chunk's `yPos` and the render height, the table of sections by `Y`,
    and the top-down scan of each sampled column that writes colour, terrain
    height and water height into the caller's buffers. */
module SurfaceRenderer {
  import opened JavaInts
  import opened Results
  import opened PackedIndices
  import opened ChunkNbt
  import opened SectionReader

  /** `yMin`, `absHeight`, `yMax`, `sMax` and the first section the scan visits. */
  datatype Geometry = Geometry(yMin: int32, absHeight: int32, yMax: int32, sMax: int32, top: int32)

  /** The layout both renderers compute, each operation wrapping as int arithmetic does;
      the first section visited is written `sMax - (sMax - (absHeight >> 4))`. */
  function GeometryOf(root: ChunkRoot, height: int32): Geometry
  {
    var yMin: int32 := if root.yPos.Some? then root.yPos.value else -4;
    var absHeight := ToInt32(height - ToInt32(yMin * 16));
    var yMax := ToInt32(1 + ShiftRight(height, 4));
    var sMax := ToInt32(yMax - yMin);
    Geometry(yMin, absHeight, yMax, sMax, ToInt32(sMax - ToInt32(sMax - ShiftRight(absHeight, 4))))
  }

  /** The scan starts at the section holding the render height: `sMax - (sMax - t)` is `t` even when the subtractions wrap. */
  lemma GeometryTop(root: ChunkRoot, height: int32)
    ensures GeometryOf(root, height).top == ShiftRight(GeometryOf(root, height).absHeight, 4)
    ensures 16 * GeometryOf(root, height).top <= GeometryOf(root, height).absHeight
    ensures GeometryOf(root, height).absHeight < 16 * GeometryOf(root, height).top + 16
  {
    var g := GeometryOf(root, height);
    WrapCancel(g.sMax, ShiftRight(g.absHeight, 4));
    ShiftRightBy4(g.absHeight);
  }

  /** `a - (a - t)` wrapped twice is `t` again. */
  lemma WrapCancel(a: int, t: int)
    requires IsInt32(t)
    ensures ToInt32(a - ToInt32(a - t)) == t
  {
    var d := ToInt32(a - t);
    var j := (d - (a - t)) / 0x1_0000_0000;
    assert d - (a - t) == j * 0x1_0000_0000;
    WrapCongruent(a - d, t, -j);
  }

  lemma ShiftRightBy4(x: int)
    ensures 16 * ShiftRight(x, 4) <= x < 16 * ShiftRight(x, 4) + 16
  {
    assert Pow2(4) == 16;
  }

  /** `31 - Integer.numberOfLeadingZeros(scale)`: the position of the highest set bit. */
  function ScaleBits(scale: int32): (sb: nat)
    requires scale >= 1
    ensures Pow2(sb) <= scale < 2 * Pow2(sb)
  {
    BitLength(scale) - 1
  }

  lemma ScaleBitsOfPowers()
    ensures ScaleBits(1) == 0 && ScaleBits(2) == 1 && ScaleBits(4) == 2 && ScaleBits(8) == 3 && ScaleBits(16) == 4
  {
    assert BitLength(1) == 1;
    assert BitLength(2) == 2;
    assert BitLength(4) == 3;
    assert BitLength(8) == 4;
    assert BitLength(16) == 5;
  }

  /** `Helper.numberFromCompound(s, "Y", yMin - 1).intValue()`. */
  function SectionY(s: Section, yMin: int32): int32
  {
    if s.y.Some? then s.y.value else ToInt32(yMin - 1)
  }

  /** What `GeometryOf` guarantees of `sMax` and `yMax`. */
  predicate ValidGeometry(g: Geometry)
  {
    g.sMax == ToInt32(g.yMax - g.yMin) && -0x800_0000 < g.yMax <= 0x800_0001
  }

  lemma GeometryValid(root: ChunkRoot, height: int32)
    ensures ValidGeometry(GeometryOf(root, height))
  {
    assert Pow2(4) == 16;
  }

  /** A `Y` in `[yMin, yMax)` has a slot in the table whenever the table could be allocated. */
  lemma IndexedSlot(g: Geometry, y: int)
    requires ValidGeometry(g) && g.sMax >= 0 && g.yMin <= y < g.yMax
    ensures 0 <= y - g.yMin < g.sMax
  {
  }

  /** The `indexedSections` table after the sections loop: each section whose
      `Y` lies in `[yMin, yMax)` is stored at `Y - yMin`, a later one replacing an earlier one. */
  function IndexSections(secs: seq<Section>, g: Geometry): (r: seq<Option<Section>>)
    requires ValidGeometry(g) && g.sMax >= 0
    ensures |r| == g.sMax
    decreases |secs|
  {
    if |secs| == 0 then seq(g.sMax, _ => None)
    else
      var r0 := IndexSections(secs[..|secs| - 1], g);
      var s := secs[|secs| - 1];
      var y := SectionY(s, g.yMin);
      if g.yMin <= y < g.yMax then
        IndexedSlot(g, y);
        r0[y - g.yMin := Some(s)]
      else r0
  }

  /** `secs[t]` is the last section whose `Y` is `y`. */
  predicate LastWithY(secs: seq<Section>, yMin: int32, y: int, t: int)
  {
    0 <= t < |secs| && SectionY(secs[t], yMin) == y &&
    forall u :: t < u < |secs| ==> SectionY(secs[u], yMin) != y
  }

  /** Slot `j` of the table is empty exactly when no section has `Y == yMin + j`,
      and otherwise holds the last section that has. */
  lemma {:induction false} IndexSectionsLastWins(secs: seq<Section>, g: Geometry, j: int)
    requires ValidGeometry(g) && g.sMax >= 0 && 0 <= j < g.sMax && g.yMin + j < g.yMax
    ensures IndexSections(secs, g)[j].None? <==>
              forall u :: 0 <= u < |secs| ==> SectionY(secs[u], g.yMin) != g.yMin + j
    ensures IndexSections(secs, g)[j].Some? ==>
              exists t :: LastWithY(secs, g.yMin, g.yMin + j, t) && IndexSections(secs, g)[j] == Some(secs[t])
    decreases |secs|
  {
    if |secs| > 0 {
      var n := |secs| - 1;
      var pre := secs[..n];
      IndexSectionsLastWins(pre, g, j);
      IndexSectionsStep(secs, g, j);
      var y := SectionY(secs[n], g.yMin);
      if y == g.yMin + j {
        assert LastWithY(secs, g.yMin, g.yMin + j, n);
      } else if IndexSections(secs, g)[j].Some? {
        var t :| LastWithY(pre, g.yMin, g.yMin + j, t) && IndexSections(pre, g)[j] == Some(pre[t]);
        LastWithYKept(secs, g.yMin, g.yMin + j, t);
      }
    }
  }

  /** A section that stays the last with its `Y` when one with another `Y` is appended. */
  lemma LastWithYKept(secs: seq<Section>, yMin: int32, y: int, t: int)
    requires |secs| > 0 && LastWithY(secs[..|secs| - 1], yMin, y, t) && SectionY(secs[|secs| - 1], yMin) != y
    ensures LastWithY(secs, yMin, y, t) && secs[t] == secs[..|secs| - 1][t]
  {
    var pre := secs[..|secs| - 1];
    forall u | t < u < |secs| ensures SectionY(secs[u], yMin) != y {
      if u < |secs| - 1 { assert secs[u] == pre[u]; }
    }
  }

  /** The last section takes slot `j` when its `Y` is `yMin + j`, and leaves it alone otherwise. */
  lemma IndexSectionsStep(secs: seq<Section>, g: Geometry, j: int)
    requires ValidGeometry(g) && g.sMax >= 0 && 0 <= j < g.sMax && g.yMin + j < g.yMax && |secs| > 0
    ensures IndexSections(secs, g)[j] ==
            if SectionY(secs[|secs| - 1], g.yMin) == g.yMin + j then Some(secs[|secs| - 1])
            else IndexSections(secs[..|secs| - 1], g)[j]
  {
  }

  /** `IndexSections` as the source computes it: a fresh array filled by one pass over the sections. */
  method IndexSectionsInto(secs: seq<Section>, g: Geometry) returns (a: array<Option<Section>>)
    requires ValidGeometry(g) && g.sMax >= 0
    ensures fresh(a) && a[..] == IndexSections(secs, g)
  {
    a := new Option<Section>[g.sMax](_ => None);
    var k := 0;
    while k < |secs|
      invariant 0 <= k <= |secs|
      invariant a.Length == g.sMax
      invariant a[..] == IndexSections(secs[..k], g)
    {
      var y := SectionY(secs[k], g.yMin);
      assert secs[..k + 1][..k] == secs[..k];
      if g.yMin <= y < g.yMax {
        IndexedSlot(g, y);
        a[y - g.yMin] := Some(secs[k]);
      }
      k := k + 1;
    }
    assert secs[..|secs|] == secs;
  }

  /** What the column loop reads of one section: palettes, buffers, widths,
      the section's lowest block height and the first `cy` scanned in it. */
  datatype SectionView = SectionView(palette: Option<seq<BlockState>>, blocks: Option<seq<int>>, bits: nat,
                                     biomePalette: Option<seq<BiomeEntry>>, biomes: Option<seq<int>>, biomeBits: nat,
                                     sectionHeight: int32, startHeight: int)

  /** The per-section values: `bits`/`biomeBits` from the palette sizes,
      `sectionHeight = (i + yMin) * 16`, and a scan from `absHeight & 0xF` in
      the section holding the render height and from 15 in every other. */
  function ViewOf(s: Section, g: Geometry, i: int): (v: SectionView)
    ensures 0 <= v.startHeight <= 15
    ensures v.startHeight != 15 ==> ShiftRight(g.absHeight, 4) == i
  {
    var palette := PaletteOf(s.blockStates);
    var biomePalette := PaletteOf(s.biomes);
    SectionView(palette, LongBufferOf(DataOf(s.blockStates)), BlockBits(PaletteSize(palette)),
                biomePalette, LongBufferOf(DataOf(s.biomes)), BiomeBits(PaletteSize(biomePalette)),
                ToInt32(ToInt32(i + g.yMin) * 16),
                if ShiftRight(g.absHeight, 4) == i then g.absHeight % 16 else 15)
  }

  /** One array store of the column loop. */
  datatype Write = SetPixel(rgb: int32) | SetWaterPixel(rgb: int32) | SetTerrain(h: int16) | SetWaterHeight(h: int16)

  /** The four caller-owned buffers; a `null` water buffer is the empty sequence. */
  datatype Buffers = Buffers(pixels: seq<int32>, waterPixels: seq<int32>, terrain: seq<int16>, waterHeights: seq<int16>)

  /** One store at index `j`; `None` when `j` is outside that buffer (an
      `ArrayIndexOutOfBoundsException`, or a `NullPointerException` for a missing water buffer). */
  function Put(b: Buffers, j: int, w: Write): (r: Option<Buffers>)
  {
    match w
    case SetPixel(c) => if 0 <= j < |b.pixels| then Some(b.(pixels := b.pixels[j := c])) else None
    case SetWaterPixel(c) => if 0 <= j < |b.waterPixels| then Some(b.(waterPixels := b.waterPixels[j := c])) else None
    case SetTerrain(h) => if 0 <= j < |b.terrain| then Some(b.(terrain := b.terrain[j := h])) else None
    case SetWaterHeight(h) => if 0 <= j < |b.waterHeights| then Some(b.(waterHeights := b.waterHeights[j := h])) else None
  }

  /** The stores in order; the first that fails throws, keeping the ones before it. */
  function Written(b: Buffers, j: int, ws: seq<Write>): (Buffers, bool)
    decreases |ws|
  {
    if |ws| == 0 then (b, false)
    else match Put(b, j, ws[0])
      case None => (b, true)
      case Some(b1) => Written(b1, j, ws[1..])
  }

  /** What one `cy` step of the column does: nothing (`continue`), throw, or
      store and then either stop the column (`continue zLoop`) or keep descending. */
  datatype CellOutcome = Pass | Throws | Hit(writes: seq<Write>, stop: bool)

  /** The stores for an opaque block `b` of biome `biome` at height `y`. In
      water mode the first opaque block (`!waterDepth`) sets the colour and the
      water height; a water block keeps the scan going; a waterlogged block
      shows water over the block, one above the terrain; any other block is
      the bottom, whose colour goes to `waterPixels`. */
  function HitOf(cm: ColorMapping, water: bool, b: BlockState, biome: string, y: int32, waterDepth: bool): (o: CellOutcome)
    ensures o.Hit?
  {
    var rgb := cm.rgb(b, biome);
    var h := ToShort(y);
    if !water then Hit([SetPixel(rgb), SetTerrain(h)], true)
    else
      var first := if waterDepth then [] else [SetPixel(rgb), SetWaterHeight(h)];
      if cm.isWater(b) then Hit(first, false)
      else if cm.isWaterlogged(b) then
        Hit(first + [SetPixel(cm.rgb(WaterDummy, biome)), SetWaterPixel(rgb), SetWaterHeight(h),
                     SetTerrain(ToShort(ToInt32(y - 1)))], true)
      else Hit(first + [SetWaterPixel(rgb), SetTerrain(h)], true)
  }

  /** The block at `(cx, cy, cz)` of a section: a missing or transparent block
      is passed over, and the biome is looked up only for an opaque one. */
  function Cell(cm: ColorMapping, water: bool, v: SectionView, cx: int, cz: int, cy: int, waterDepth: bool): CellOutcome
    requires 0 <= cx < 16 && 0 <= cz < 16 && 0 <= cy < 16
  {
    match GetBlock(cx, cy, cz, v.blocks, v.bits, v.bits % 32, IndicesPerLong(v.bits), v.palette)
    case Threw => Throws
    case Done(blk) =>
      if blk.None? || cm.isTransparent(blk.value) then Pass
      else match GetBiome(cx, cy, cz, v.biomes, v.biomeBits, v.biomeBits % 32, IndicesPerLong(v.biomeBits), v.biomePalette)
        case Threw => Throws
        case Done(biome) => HitOf(cm, water, blk.value, biome, ToInt32(v.sectionHeight + cy), waterDepth)
  }

  /** `waterDepth` is the flag the source keeps per column. */
  datatype ScanState = Scanning(waterDepth: bool) | Stopped | Failed

  datatype Scan = Scan(b: Buffers, state: ScanState)

  /** What `drawChunk` works on besides the buffers. */
  datatype Surface = Surface(cm: ColorMapping, g: Geometry, indexed: seq<Option<Section>>, water: bool)

  function StepScan(s: Scan, o: CellOutcome, j: int): Scan
  {
    match o
    case Pass => s
    case Throws => Scan(s.b, Failed)
    case Hit(ws, stop) =>
      var (b1, threw) := Written(s.b, j, ws);
      Scan(b1, if threw then Failed else if stop then Stopped else Scanning(true))
  }

  /** The `cy` loop from `cy` down to 0. */
  function ScanCells(ctx: Surface, v: SectionView, cx: int, cz: int, j: int, cy: int, s: Scan): Scan
    requires 0 <= cx < 16 && 0 <= cz < 16 && cy < 16
    decreases cy + 1
  {
    if cy < 0 || !s.state.Scanning? then s
    else ScanCells(ctx, v, cx, cz, j, cy - 1, StepScan(s, Cell(ctx.cm, ctx.water, v, cx, cz, cy, s.state.waterDepth), j))
  }

  /** The section loop from `i` down to 0: empty slots are skipped, and an
      index past the table's end throws. */
  function ScanSections(ctx: Surface, cx: int, cz: int, j: int, i: int, s: Scan): Scan
    requires 0 <= cx < 16 && 0 <= cz < 16
    decreases i + 1
  {
    if i < 0 || !s.state.Scanning? then s
    else if i >= |ctx.indexed| then Scan(s.b, Failed)
    else if ctx.indexed[i].None? then ScanSections(ctx, cx, cz, j, i - 1, s)
    else
      var v := ViewOf(ctx.indexed[i].value, ctx.g, i);
      ScanSections(ctx, cx, cz, j, i - 1, ScanCells(ctx, v, cx, cz, j, v.startHeight, s))
  }

  /** One sampled column, from the top section with `waterDepth` clear. */
  function Column(ctx: Surface, cx: int, cz: int, j: int, b: Buffers): Scan
    requires 0 <= cx < 16 && 0 <= cz < 16
  {
    ScanSections(ctx, cx, cz, j, ctx.g.top, Scan(b, Scanning(false)))
  }

  /** `(z + (cz >> scaleBits)) * (512 >> scaleBits) + (x + (cx >> scaleBits))` in int arithmetic. */
  function PixelIndex(x: int32, z: int32, sb: nat, cx: int, cz: int): int32
  {
    ToInt32(ToInt32(ToInt32(z + ShiftRight(cz, sb)) * ShiftRight(512, sb)) + ToInt32(x + ShiftRight(cx, sb)))
  }

  /** The `cx`/`cz` loops from column `(cx, cz)` on; the first column that
      throws ends the chunk, keeping every store made before it. */
  function DrawFrom(ctx: Surface, x: int32, z: int32, scale: int32, cx: int, cz: int, b: Buffers): (Buffers, bool)
    requires scale >= 1 && 0 <= cx && 0 <= cz
    decreases 16 - cx, 16 - cz
  {
    if cx >= 16 then (b, false)
    else if cz >= 16 then DrawFrom(ctx, x, z, scale, cx + scale, 0, b)
    else
      var s := Column(ctx, cx, cz, PixelIndex(x, z, ScaleBits(scale), cx, cz), b);
      if s.state.Failed? then (s.b, true)
      else DrawFrom(ctx, x, z, scale, cx, cz + scale, s.b)
  }

  /** `drawChunk`: the buffers afterwards and whether it threw. Nothing is
      drawn without a compound `sections` list; a negative `sMax` fails
      allocating the table. */
  function DrawChunkSpec(root: ChunkRoot, cm: ColorMapping, x: int32, z: int32, scale: int32, b: Buffers,
                         water: bool, height: int32): (Buffers, bool)
    requires scale >= 1
  {
    if root.sections.None? then (b, false)
    else
      var g := GeometryOf(root, height);
      if g.sMax < 0 then (b, true)
      else
        GeometryValid(root, height);
        DrawFrom(Surface(cm, g, IndexSections(root.sections.value, g), water), x, z, scale, 0, 0, b)
  }

  function Snapshot(p: array<int32>, wp: array?<int32>, t: array<int16>, wh: array?<int16>): Buffers
    reads p, wp, t, wh
  {
    Buffers(p[..], if wp == null then [] else wp[..], t[..], if wh == null then [] else wh[..])
  }

  /** The stores of one step, made in place. */
  method WriteAll(p: array<int32>, wp: array?<int32>, t: array<int16>, wh: array?<int16>, j: int, ws: seq<Write>)
    returns (threw: bool)
    requires wp != p && wh != t
    modifies p, wp, t, wh
    ensures (Snapshot(p, wp, t, wh), threw) == Written(old(Snapshot(p, wp, t, wh)), j, ws)
  {
    var k := 0;
    while k < |ws|
      invariant 0 <= k <= |ws|
      invariant Written(Snapshot(p, wp, t, wh), j, ws[k..]) == Written(old(Snapshot(p, wp, t, wh)), j, ws)
    {
      assert ws[k..][1..] == ws[k + 1..];
      match ws[k] {
      case SetPixel(c) =>
        if !(0 <= j < p.Length) { return true; }
        p[j] := c;
      case SetWaterPixel(c) =>
        if wp == null || !(0 <= j < wp.Length) { return true; }
        wp[j] := c;
      case SetTerrain(h) =>
        if !(0 <= j < t.Length) { return true; }
        t[j] := h;
      case SetWaterHeight(h) =>
        if wh == null || !(0 <= j < wh.Length) { return true; }
        wh[j] := h;
      }
      k := k + 1;
    }
    return false;
  }

  /** The `cy` loop of one section, storing into the buffers as it goes;
      `st` is the column's state afterwards. */
  method DrawSection(ctx: Surface, v: SectionView, cx: int, cz: int, j: int, waterDepth: bool,
                     p: array<int32>, wp: array?<int32>, t: array<int16>, wh: array?<int16>) returns (st: ScanState)
    requires 0 <= cx < 16 && 0 <= cz < 16 && 0 <= v.startHeight <= 15
    requires wp != p && wh != t
    modifies p, wp, t, wh
    ensures Scan(Snapshot(p, wp, t, wh), st) ==
            ScanCells(ctx, v, cx, cz, j, v.startHeight, Scan(old(Snapshot(p, wp, t, wh)), Scanning(waterDepth)))
  {
    st := Scanning(waterDepth);
    var cy := v.startHeight;
    while cy >= 0
      invariant -1 <= cy <= 15 && st.Scanning?
      invariant ScanCells(ctx, v, cx, cz, j, cy, Scan(Snapshot(p, wp, t, wh), st)) ==
                ScanCells(ctx, v, cx, cz, j, v.startHeight, Scan(old(Snapshot(p, wp, t, wh)), Scanning(waterDepth)))
      decreases cy + 1
    {
      var o := Cell(ctx.cm, ctx.water, v, cx, cz, cy, st.waterDepth);
      ScanCellsStep(ctx, v, cx, cz, j, cy, Scan(Snapshot(p, wp, t, wh), st), o);
      if o.Throws? {
        return Failed;
      }
      if o.Hit? {
        var threw := WriteAll(p, wp, t, wh, j, o.writes);
        if threw {
          return Failed;
        }
        if o.stop {
          return Stopped;
        }
        st := Scanning(true);
      }
      cy := cy - 1;
    }
  }

  /** One unrolling of the `cy` loop, and what a stopped or failed scan does from there on. */
  lemma ScanCellsStep(ctx: Surface, v: SectionView, cx: int, cz: int, j: int, cy: int, s: Scan, o: CellOutcome)
    requires 0 <= cx < 16 && 0 <= cz < 16 && 0 <= cy < 16 && s.state.Scanning?
    requires o == Cell(ctx.cm, ctx.water, v, cx, cz, cy, s.state.waterDepth)
    ensures ScanCells(ctx, v, cx, cz, j, cy, s) == ScanCells(ctx, v, cx, cz, j, cy - 1, StepScan(s, o, j))
    ensures !StepScan(s, o, j).state.Scanning? ==> ScanCells(ctx, v, cx, cz, j, cy - 1, StepScan(s, o, j)) == StepScan(s, o, j)
  {
  }

  /** One column of `drawChunk`: the section loop, storing into the buffers
      as it goes. Returns whether the column threw. */
  method DrawColumn(ctx: Surface, indexed: array<Option<Section>>, cx: int, cz: int, j: int,
                    p: array<int32>, wp: array?<int32>, t: array<int16>, wh: array?<int16>) returns (failed: bool)
    requires 0 <= cx < 16 && 0 <= cz < 16 && indexed[..] == ctx.indexed
    requires wp != p && wh != t
    modifies p, wp, t, wh
    ensures Snapshot(p, wp, t, wh) == Column(ctx, cx, cz, j, old(Snapshot(p, wp, t, wh))).b
    ensures failed == Column(ctx, cx, cz, j, old(Snapshot(p, wp, t, wh))).state.Failed?
  {
    ghost var target := Column(ctx, cx, cz, j, Snapshot(p, wp, t, wh));
    var st := Scanning(false);
    var i := ctx.g.top;
    while i >= 0 && st.Scanning?
      invariant ScanSections(ctx, cx, cz, j, i, Scan(Snapshot(p, wp, t, wh), st)) == target
      decreases i + 1
    {
      if i >= indexed.Length {
        return true;
      }
      st := DrawSectionAt(ctx, indexed, cx, cz, j, i, st, p, wp, t, wh);
      i := i - 1;
    }
    return st.Failed?;
  }

  /** One step of the section loop: section `i`, if present, is scanned. */
  method DrawSectionAt(ctx: Surface, indexed: array<Option<Section>>, cx: int, cz: int, j: int, i: int, st: ScanState,
                       p: array<int32>, wp: array?<int32>, t: array<int16>, wh: array?<int16>) returns (st': ScanState)
    requires 0 <= cx < 16 && 0 <= cz < 16 && indexed[..] == ctx.indexed && 0 <= i < indexed.Length && st.Scanning?
    requires wp != p && wh != t
    modifies p, wp, t, wh
    ensures ScanSections(ctx, cx, cz, j, i, Scan(old(Snapshot(p, wp, t, wh)), st)) ==
            ScanSections(ctx, cx, cz, j, i - 1, Scan(Snapshot(p, wp, t, wh), st'))
  {
    st' := st;
    var section := indexed[i];
    if section.Some? {
      var v := ViewOf(section.value, ctx.g, i);
      st' := DrawSection(ctx, v, cx, cz, j, st.waterDepth, p, wp, t, wh);
    }
  }

  /** One unrolling of the `cz` loop. */
  lemma DrawFromColumn(ctx: Surface, x: int32, z: int32, scale: int32, cx: int, cz: int, b: Buffers)
    requires scale >= 1 && 0 <= cx < 16 && 0 <= cz < 16
    ensures var s := Column(ctx, cx, cz, PixelIndex(x, z, ScaleBits(scale), cx, cz), b);
            DrawFrom(ctx, x, z, scale, cx, cz, b) == if s.state.Failed? then (s.b, true) else DrawFrom(ctx, x, z, scale, cx, cz + scale, s.b)
  {
  }

  /** The end of a `cz` loop moves to the next `cx`. */
  lemma DrawFromRow(ctx: Surface, x: int32, z: int32, scale: int32, cx: int, cz: int, b: Buffers)
    requires scale >= 1 && 0 <= cx < 16 && 16 <= cz
    ensures DrawFrom(ctx, x, z, scale, cx, cz, b) == DrawFrom(ctx, x, z, scale, cx + scale, 0, b)
  {
  }

  /** The `cz` loop for one `cx`, from `cz` on. */
  method DrawRow(ctx: Surface, indexed: array<Option<Section>>, x: int32, z: int32, scale: int32, cx: int,
                 p: array<int32>, wp: array?<int32>, t: array<int16>, wh: array?<int16>) returns (threw: bool)
    requires scale >= 1 && 0 <= cx < 16 && indexed[..] == ctx.indexed && wp != p && wh != t
    modifies p, wp, t, wh
    ensures threw ==> (Snapshot(p, wp, t, wh), true) == DrawFrom(ctx, x, z, scale, cx, 0, old(Snapshot(p, wp, t, wh)))
    ensures !threw ==> DrawFrom(ctx, x, z, scale, cx + scale, 0, Snapshot(p, wp, t, wh))
                       == DrawFrom(ctx, x, z, scale, cx, 0, old(Snapshot(p, wp, t, wh)))
  {
    ghost var target := DrawFrom(ctx, x, z, scale, cx, 0, Snapshot(p, wp, t, wh));
    var sb := ScaleBits(scale);
    var cz := 0;
    while cz < 16
      invariant 0 <= cz
      invariant DrawFrom(ctx, x, z, scale, cx, cz, Snapshot(p, wp, t, wh)) == target
      decreases 16 - cz
    {
      var j := PixelIndex(x, z, sb, cx, cz);
      DrawFromColumn(ctx, x, z, scale, cx, cz, Snapshot(p, wp, t, wh));
      var failed := DrawColumn(ctx, indexed, cx, cz, j, p, wp, t, wh);
      if failed {
        return true;
      }
      cz := cz + scale;
    }
    DrawFromRow(ctx, x, z, scale, cx, cz, Snapshot(p, wp, t, wh));
    return false;
  }

  /** `drawChunk` over caller-owned buffers; returns whether it threw. */
  method DrawChunk(root: ChunkRoot, cm: ColorMapping, x: int32, z: int32, scale: int32,
                   p: array<int32>, wp: array?<int32>, t: array<int16>, wh: array?<int16>,
                   water: bool, height: int32) returns (threw: bool)
    requires scale >= 1 && wp != p && wh != t
    modifies p, wp, t, wh
    ensures (Snapshot(p, wp, t, wh), threw) == DrawChunkSpec(root, cm, x, z, scale, old(Snapshot(p, wp, t, wh)), water, height)
  {
    ghost var b0 := Snapshot(p, wp, t, wh);
    if root.sections.None? {
      return false;
    }
    var g := GeometryOf(root, height);
    if g.sMax < 0 {
      return true;
    }
    GeometryValid(root, height);
    var indexed := IndexSectionsInto(root.sections.value, g);
    var ctx := Surface(cm, g, indexed[..], water);
    SpecOfTable(root, cm, x, z, scale, b0, water, height);
    threw := DrawRows(ctx, indexed, x, z, scale, p, wp, t, wh);
  }

  /** With a table allocated, `drawChunk` is the `cx` loop over it. */
  lemma SpecOfTable(root: ChunkRoot, cm: ColorMapping, x: int32, z: int32, scale: int32, b: Buffers,
                    water: bool, height: int32)
    requires scale >= 1 && root.sections.Some?
    requires ValidGeometry(GeometryOf(root, height)) && GeometryOf(root, height).sMax >= 0
    ensures var g := GeometryOf(root, height);
            DrawChunkSpec(root, cm, x, z, scale, b, water, height)
              == DrawFrom(Surface(cm, g, IndexSections(root.sections.value, g), water), x, z, scale, 0, 0, b)
  {
  }

  /** The `cx` loop of `drawChunk`. */
  method DrawRows(ctx: Surface, indexed: array<Option<Section>>, x: int32, z: int32, scale: int32,
                  p: array<int32>, wp: array?<int32>, t: array<int16>, wh: array?<int16>) returns (threw: bool)
    requires scale >= 1 && indexed[..] == ctx.indexed && wp != p && wh != t
    modifies p, wp, t, wh
    ensures (Snapshot(p, wp, t, wh), threw) == DrawFrom(ctx, x, z, scale, 0, 0, old(Snapshot(p, wp, t, wh)))
  {
    ghost var target := DrawFrom(ctx, x, z, scale, 0, 0, Snapshot(p, wp, t, wh));
    var cx := 0;
    while cx < 16
      invariant 0 <= cx && indexed[..] == ctx.indexed
      invariant DrawFrom(ctx, x, z, scale, cx, 0, Snapshot(p, wp, t, wh)) == target
      decreases 16 - cx
    {
      threw := DrawRow(ctx, indexed, x, z, scale, cx, p, wp, t, wh);
      if threw {
        return;
      }
      cx := cx + scale;
    }
    return false;
  }

  /** `b1` differs from `b` at most at index `j`, has the same lengths, and
      outside water mode has the same water buffers. */
  predicate Kept(b: Buffers, b1: Buffers, j: int, water: bool)
  {
    |b1.pixels| == |b.pixels| && |b1.waterPixels| == |b.waterPixels| &&
    |b1.terrain| == |b.terrain| && |b1.waterHeights| == |b.waterHeights| &&
    (forall k :: 0 <= k < |b.pixels| && k != j ==> b1.pixels[k] == b.pixels[k]) &&
    (forall k :: 0 <= k < |b.waterPixels| && k != j ==> b1.waterPixels[k] == b.waterPixels[k]) &&
    (forall k :: 0 <= k < |b.terrain| && k != j ==> b1.terrain[k] == b.terrain[k]) &&
    (forall k :: 0 <= k < |b.waterHeights| && k != j ==> b1.waterHeights[k] == b.waterHeights[k]) &&
    (!water ==> b1.waterPixels == b.waterPixels && b1.waterHeights == b.waterHeights)
  }

  /** No store to either water buffer. */
  predicate Dry(ws: seq<Write>)
  {
    forall i :: 0 <= i < |ws| ==> !ws[i].SetWaterPixel? && !ws[i].SetWaterHeight?
  }

  lemma KeptTrans(b0: Buffers, b1: Buffers, b2: Buffers, j: int, water: bool)
    requires Kept(b0, b1, j, water) && Kept(b1, b2, j, water)
    ensures Kept(b0, b2, j, water)
  {
  }

  /** The stores of a step touch only index `j`, and dry stores leave the water buffers alone. */
  lemma {:induction false} WrittenKept(b: Buffers, j: int, ws: seq<Write>, water: bool)
    requires !water ==> Dry(ws)
    ensures Kept(b, Written(b, j, ws).0, j, water)
    decreases |ws|
  {
    if |ws| > 0 {
      var r := Put(b, j, ws[0]);
      if r.Some? {
        assert Kept(b, r.value, j, water);
        assert !water ==> Dry(ws[1..]) by {
          if !water {
            forall i | 0 <= i < |ws[1..]| ensures !ws[1..][i].SetWaterPixel? && !ws[1..][i].SetWaterHeight? {
              assert ws[1..][i] == ws[i + 1];
            }
          }
        }
        WrittenKept(r.value, j, ws[1..], water);
        KeptTrans(b, r.value, Written(r.value, j, ws[1..]).0, j, water);
      }
    }
  }

  /** Outside water mode an opaque block's stores are dry. */
  lemma CellDry(cm: ColorMapping, v: SectionView, cx: int, cz: int, cy: int, waterDepth: bool)
    requires 0 <= cx < 16 && 0 <= cz < 16 && 0 <= cy < 16
    ensures var o := Cell(cm, false, v, cx, cz, cy, waterDepth);
            o.Hit? ==> Dry(o.writes) && o.stop && |o.writes| == 2
  {
  }

  lemma StepKept(s: Scan, o: CellOutcome, j: int, water: bool)
    requires o.Hit? && !water ==> Dry(o.writes)
    ensures Kept(s.b, StepScan(s, o, j).b, j, water)
  {
    if o.Hit? {
      WrittenKept(s.b, j, o.writes, water);
    }
  }

  lemma {:induction false} CellsKept(ctx: Surface, v: SectionView, cx: int, cz: int, j: int, cy: int, s: Scan)
    requires 0 <= cx < 16 && 0 <= cz < 16 && cy < 16
    ensures Kept(s.b, ScanCells(ctx, v, cx, cz, j, cy, s).b, j, ctx.water)
    decreases cy + 1
  {
    if cy >= 0 && s.state.Scanning? {
      var o := Cell(ctx.cm, ctx.water, v, cx, cz, cy, s.state.waterDepth);
      if !ctx.water {
        CellDry(ctx.cm, v, cx, cz, cy, s.state.waterDepth);
      }
      StepKept(s, o, j, ctx.water);
      var s1 := StepScan(s, o, j);
      CellsKept(ctx, v, cx, cz, j, cy - 1, s1);
      KeptTrans(s.b, s1.b, ScanCells(ctx, v, cx, cz, j, cy - 1, s1).b, j, ctx.water);
    }
  }

  lemma {:induction false} SectionsKept(ctx: Surface, cx: int, cz: int, j: int, i: int, s: Scan)
    requires 0 <= cx < 16 && 0 <= cz < 16
    ensures Kept(s.b, ScanSections(ctx, cx, cz, j, i, s).b, j, ctx.water)
    decreases i + 1
  {
    if i >= 0 && s.state.Scanning? && i < |ctx.indexed| {
      if ctx.indexed[i].None? {
        SectionsKept(ctx, cx, cz, j, i - 1, s);
      } else {
        var v := ViewOf(ctx.indexed[i].value, ctx.g, i);
        var s1 := ScanCells(ctx, v, cx, cz, j, v.startHeight, s);
        CellsKept(ctx, v, cx, cz, j, v.startHeight, s);
        SectionsKept(ctx, cx, cz, j, i - 1, s1);
        KeptTrans(s.b, s1.b, ScanSections(ctx, cx, cz, j, i - 1, s1).b, j, ctx.water);
      }
    }
  }

  /** A column stores only at its own pixel index, and outside water mode never into the water buffers. */
  lemma ColumnKept(ctx: Surface, cx: int, cz: int, j: int, b: Buffers)
    requires 0 <= cx < 16 && 0 <= cz < 16
    ensures Kept(b, Column(ctx, cx, cz, j, b).b, j, ctx.water)
  {
    SectionsKept(ctx, cx, cz, j, ctx.g.top, Scan(b, Scanning(false)));
  }

  /** The four buffers agree at index `k` and have the same lengths. */
  predicate SameAt(b: Buffers, b1: Buffers, k: int)
  {
    |b1.pixels| == |b.pixels| && |b1.waterPixels| == |b.waterPixels| &&
    |b1.terrain| == |b.terrain| && |b1.waterHeights| == |b.waterHeights| &&
    (0 <= k < |b.pixels| ==> b1.pixels[k] == b.pixels[k]) &&
    (0 <= k < |b.waterPixels| ==> b1.waterPixels[k] == b.waterPixels[k]) &&
    (0 <= k < |b.terrain| ==> b1.terrain[k] == b.terrain[k]) &&
    (0 <= k < |b.waterHeights| ==> b1.waterHeights[k] == b.waterHeights[k])
  }

  /** A pixel index that no sampled column of the chunk maps to keeps its
      values, and outside water mode the water buffers are untouched. */
  lemma {:induction false} DrawFromFrame(ctx: Surface, x: int32, z: int32, scale: int32, cx: int, cz: int, b: Buffers, k: int)
    requires scale >= 1 && 0 <= cx && 0 <= cz && Unmapped(x, z, scale, k)
    ensures SameAt(b, DrawFrom(ctx, x, z, scale, cx, cz, b).0, k)
    ensures !ctx.water ==> DrawFrom(ctx, x, z, scale, cx, cz, b).0.waterPixels == b.waterPixels
    ensures !ctx.water ==> DrawFrom(ctx, x, z, scale, cx, cz, b).0.waterHeights == b.waterHeights
    decreases 16 - cx, 16 - cz
  {
    if cx < 16 {
      if cz >= 16 {
        DrawFromFrame(ctx, x, z, scale, cx + scale, 0, b, k);
      } else {
        var s := Column(ctx, cx, cz, PixelIndex(x, z, ScaleBits(scale), cx, cz), b);
        DrawFromColumn(ctx, x, z, scale, cx, cz, b);
        ColumnFrame(ctx, x, z, scale, cx, cz, b, k);
        if !s.state.Failed? {
          DrawFromFrame(ctx, x, z, scale, cx, cz + scale, s.b, k);
          SameAtTrans(b, s.b, DrawFrom(ctx, x, z, scale, cx, cz + scale, s.b).0, k);
        }
      }
    }
  }

  /** A column that does not map to `k` keeps index `k`, and outside water mode the water buffers. */
  lemma ColumnFrame(ctx: Surface, x: int32, z: int32, scale: int32, cx: int, cz: int, b: Buffers, k: int)
    requires scale >= 1 && 0 <= cx < 16 && 0 <= cz < 16 && Unmapped(x, z, scale, k)
    ensures var s := Column(ctx, cx, cz, PixelIndex(x, z, ScaleBits(scale), cx, cz), b);
            SameAt(b, s.b, k) && (!ctx.water ==> s.b.waterPixels == b.waterPixels && s.b.waterHeights == b.waterHeights)
  {
    var j := PixelIndex(x, z, ScaleBits(scale), cx, cz);
    ColumnKept(ctx, cx, cz, j, b);
    UnmappedAt(x, z, scale, k, cx, cz);
    KeptSameAt(b, Column(ctx, cx, cz, j, b).b, j, k, ctx.water);
  }

  /** No sampled column of the chunk at `(x, z)` maps to pixel index `k`. */
  predicate Unmapped(x: int32, z: int32, scale: int32, k: int)
    requires scale >= 1
  {
    forall cx1, cz1 :: 0 <= cx1 < 16 && 0 <= cz1 < 16 ==> PixelIndex(x, z, ScaleBits(scale), cx1, cz1) != k
  }

  lemma UnmappedAt(x: int32, z: int32, scale: int32, k: int, cx: int, cz: int)
    requires scale >= 1 && Unmapped(x, z, scale, k) && 0 <= cx < 16 && 0 <= cz < 16
    ensures PixelIndex(x, z, ScaleBits(scale), cx, cz) != k
  {
  }

  /** A store at another index keeps index `k`. */
  lemma KeptSameAt(b: Buffers, b1: Buffers, j: int, k: int, water: bool)
    requires Kept(b, b1, j, water) && j != k
    ensures SameAt(b, b1, k)
  {
  }

  lemma SameAtTrans(b0: Buffers, b1: Buffers, b2: Buffers, k: int)
    requires SameAt(b0, b1, k) && SameAt(b1, b2, k)
    ensures SameAt(b0, b2, k)
  {
  }

  /** The four buffers have the same lengths. */
  predicate SameShape(b: Buffers, b1: Buffers)
  {
    |b1.pixels| == |b.pixels| && |b1.waterPixels| == |b.waterPixels| &&
    |b1.terrain| == |b.terrain| && |b1.waterHeights| == |b.waterHeights|
  }

  /** Stores never resize a buffer. */
  lemma {:induction false} DrawFromShape(ctx: Surface, x: int32, z: int32, scale: int32, cx: int, cz: int, b: Buffers)
    requires scale >= 1 && 0 <= cx && 0 <= cz
    ensures SameShape(b, DrawFrom(ctx, x, z, scale, cx, cz, b).0)
    decreases 16 - cx, 16 - cz
  {
    if cx < 16 {
      if cz >= 16 {
        DrawFromShape(ctx, x, z, scale, cx + scale, 0, b);
      } else {
        var s := Column(ctx, cx, cz, PixelIndex(x, z, ScaleBits(scale), cx, cz), b);
        DrawFromColumn(ctx, x, z, scale, cx, cz, b);
        ColumnShape(ctx, cx, cz, PixelIndex(x, z, ScaleBits(scale), cx, cz), b);
        if !s.state.Failed? {
          DrawFromShape(ctx, x, z, scale, cx, cz + scale, s.b);
        }
      }
    }
  }

  lemma ColumnShape(ctx: Surface, cx: int, cz: int, j: int, b: Buffers)
    requires 0 <= cx < 16 && 0 <= cz < 16
    ensures SameShape(b, Column(ctx, cx, cz, j, b).b)
  {
    ColumnKept(ctx, cx, cz, j, b);
  }

  /** `drawChunk` never resizes a buffer. */
  lemma DrawChunkShape(root: ChunkRoot, cm: ColorMapping, x: int32, z: int32, scale: int32, b: Buffers,
                       water: bool, height: int32)
    requires scale >= 1
    ensures SameShape(b, DrawChunkSpec(root, cm, x, z, scale, b, water, height).0)
  {
    if root.sections.Some? {
      var g := GeometryOf(root, height);
      if g.sMax >= 0 {
        GeometryValid(root, height);
        DrawFromShape(Surface(cm, g, IndexSections(root.sections.value, g), water), x, z, scale, 0, 0, b);
      }
    }
  }

  /** `drawChunk` changes only the pixels its sampled columns map to, and outside water mode no water buffer. */
  lemma DrawChunkFrame(root: ChunkRoot, cm: ColorMapping, x: int32, z: int32, scale: int32, b: Buffers,
                       water: bool, height: int32, k: int)
    requires scale >= 1
    requires forall cx1, cz1 :: 0 <= cx1 < 16 && 0 <= cz1 < 16 ==> PixelIndex(x, z, ScaleBits(scale), cx1, cz1) != k
    ensures SameAt(b, DrawChunkSpec(root, cm, x, z, scale, b, water, height).0, k)
    ensures !water ==> DrawChunkSpec(root, cm, x, z, scale, b, water, height).0.waterPixels == b.waterPixels
    ensures !water ==> DrawChunkSpec(root, cm, x, z, scale, b, water, height).0.waterHeights == b.waterHeights
  {
    if root.sections.Some? {
      var g := GeometryOf(root, height);
      if g.sMax >= 0 {
        GeometryValid(root, height);
        DrawFromFrame(Surface(cm, g, IndexSections(root.sections.value, g), water), x, z, scale, 0, 0, b, k);
      }
    }
  }

  /** Missing and transparent blocks are passed over: the scan from `cy`
      reaches `lo` with the column's state unchanged. */
  lemma {:induction false} PassCells(ctx: Surface, v: SectionView, cx: int, cz: int, j: int, cy: int, lo: int, s: Scan)
    requires 0 <= cx < 16 && 0 <= cz < 16 && -1 <= lo <= cy < 16 && s.state.Scanning?
    requires forall c :: lo < c <= cy ==> Cell(ctx.cm, ctx.water, v, cx, cz, c, s.state.waterDepth).Pass?
    ensures ScanCells(ctx, v, cx, cz, j, cy, s) == ScanCells(ctx, v, cx, cz, j, lo, s)
    decreases cy - lo
  {
    if lo < cy {
      assert Cell(ctx.cm, ctx.water, v, cx, cz, cy, s.state.waterDepth).Pass?;
      PassCells(ctx, v, cx, cz, j, cy - 1, lo, s);
    }
  }

  /** An opaque block whose biome is found is a hit with `HitOf`'s stores. */
  lemma CellHit(cm: ColorMapping, water: bool, v: SectionView, cx: int, cz: int, cy: int, d: bool,
                blk: BlockState, biome: string)
    requires 0 <= cx < 16 && 0 <= cz < 16 && 0 <= cy < 16
    requires GetBlock(cx, cy, cz, v.blocks, v.bits, v.bits % 32, IndicesPerLong(v.bits), v.palette) == Done(Some(blk))
    requires !cm.isTransparent(blk)
    requires GetBiome(cx, cy, cz, v.biomes, v.biomeBits, v.biomeBits % 32, IndicesPerLong(v.biomeBits), v.biomePalette) == Done(biome)
    ensures Cell(cm, water, v, cx, cz, cy, d) == HitOf(cm, water, blk, biome, ToInt32(v.sectionHeight + cy), d)
  {
  }

  /** Outside water mode the first opaque block going down decides the
      column: its colour and height are stored and the column stops. */
  lemma FirstOpaqueDry(ctx: Surface, v: SectionView, cx: int, cz: int, j: int, cy: int, lo: int, b: Buffers, d: bool,
                       blk: BlockState, biome: string)
    requires 0 <= cx < 16 && 0 <= cz < 16 && 0 <= lo <= cy < 16 && !ctx.water
    requires forall c :: lo < c <= cy ==> Cell(ctx.cm, ctx.water, v, cx, cz, c, d).Pass?
    requires GetBlock(cx, lo, cz, v.blocks, v.bits, v.bits % 32, IndicesPerLong(v.bits), v.palette) == Done(Some(blk))
    requires !ctx.cm.isTransparent(blk)
    requires GetBiome(cx, lo, cz, v.biomes, v.biomeBits, v.biomeBits % 32, IndicesPerLong(v.biomeBits), v.biomePalette) == Done(biome)
    requires 0 <= j < |b.pixels| && j < |b.terrain|
    ensures ScanCells(ctx, v, cx, cz, j, cy, Scan(b, Scanning(d))) ==
            Scan(b.(pixels := b.pixels[j := ctx.cm.rgb(blk, biome)],
                    terrain := b.terrain[j := ToShort(ToInt32(v.sectionHeight + lo))]), Stopped)
  {
    var s := Scan(b, Scanning(d));
    PassCells(ctx, v, cx, cz, j, cy, lo, s);
    var o := Cell(ctx.cm, ctx.water, v, cx, cz, lo, d);
    CellHit(ctx.cm, ctx.water, v, cx, cz, lo, d, blk, biome);
    var h := ToShort(ToInt32(v.sectionHeight + lo));
    assert o.writes == [SetPixel(ctx.cm.rgb(blk, biome)), SetTerrain(h)] && o.stop;
    var b1 := b.(pixels := b.pixels[j := ctx.cm.rgb(blk, biome)]);
    var b2 := b1.(terrain := b.terrain[j := h]);
    assert Written(b, j, o.writes) == Written(b1, j, [SetTerrain(h)]);
    assert Written(b1, j, [SetTerrain(h)]) == Written(b2, j, []);
    assert StepScan(s, o, j) == Scan(b2, Stopped);
    ScanCellsStep(ctx, v, cx, cz, j, lo, s, o);
  }

  /** In water mode a waterlogged block met first shows the water colour
      over the block's own, with the water one above the terrain. */
  lemma FirstWaterlogged(ctx: Surface, v: SectionView, cx: int, cz: int, j: int, cy: int, lo: int, b: Buffers,
                         blk: BlockState, biome: string)
    requires 0 <= cx < 16 && 0 <= cz < 16 && 0 <= lo <= cy < 16 && ctx.water
    requires forall c :: lo < c <= cy ==> Cell(ctx.cm, ctx.water, v, cx, cz, c, false).Pass?
    requires GetBlock(cx, lo, cz, v.blocks, v.bits, v.bits % 32, IndicesPerLong(v.bits), v.palette) == Done(Some(blk))
    requires !ctx.cm.isTransparent(blk) && !ctx.cm.isWater(blk) && ctx.cm.isWaterlogged(blk)
    requires GetBiome(cx, lo, cz, v.biomes, v.biomeBits, v.biomeBits % 32, IndicesPerLong(v.biomeBits), v.biomePalette) == Done(biome)
    requires 0 <= j < |b.pixels| && j < |b.waterPixels| && j < |b.terrain| && j < |b.waterHeights|
    ensures var h := ToInt32(v.sectionHeight + lo);
            ScanCells(ctx, v, cx, cz, j, cy, Scan(b, Scanning(false))) ==
            Scan(b.(pixels := b.pixels[j := ctx.cm.rgb(WaterDummy, biome)],
                    waterPixels := b.waterPixels[j := ctx.cm.rgb(blk, biome)],
                    waterHeights := b.waterHeights[j := ToShort(h)],
                    terrain := b.terrain[j := ToShort(ToInt32(h - 1))]), Stopped)
  {
    var s := Scan(b, Scanning(false));
    PassCells(ctx, v, cx, cz, j, cy, lo, s);
    var o := Cell(ctx.cm, ctx.water, v, cx, cz, lo, false);
    CellHit(ctx.cm, ctx.water, v, cx, cz, lo, false, blk, biome);
    var h := ToInt32(v.sectionHeight + lo);
    var rgb := ctx.cm.rgb(blk, biome);
    var dummy := ctx.cm.rgb(WaterDummy, biome);
    WaterloggedHit(ctx.cm, blk, biome, h);
    var b6 := WaterloggedStores(b, j, rgb, dummy, h);
    assert StepScan(s, o, j) == Scan(b6, Stopped);
    ScanCellsStep(ctx, v, cx, cz, j, lo, s, o);
  }

  lemma WaterloggedHit(cm: ColorMapping, blk: BlockState, biome: string, h: int32)
    requires !cm.isWater(blk) && cm.isWaterlogged(blk)
    ensures HitOf(cm, true, blk, biome, h, false) ==
            Hit([SetPixel(cm.rgb(blk, biome)), SetWaterHeight(ToShort(h)), SetPixel(cm.rgb(WaterDummy, biome)),
                 SetWaterPixel(cm.rgb(blk, biome)), SetWaterHeight(ToShort(h)), SetTerrain(ToShort(ToInt32(h - 1)))], true)
  {
  }

  /** The six stores of a waterlogged block met first, in order. */
  function WaterloggedStores(b: Buffers, j: int, rgb: int32, dummy: int32, h: int32): (b6: Buffers)
    requires 0 <= j < |b.pixels| && j < |b.waterPixels| && j < |b.terrain| && j < |b.waterHeights|
    ensures Written(b, j, [SetPixel(rgb), SetWaterHeight(ToShort(h)), SetPixel(dummy), SetWaterPixel(rgb),
                           SetWaterHeight(ToShort(h)), SetTerrain(ToShort(ToInt32(h - 1)))]) == (b6, false)
    ensures b6 == b.(pixels := b.pixels[j := dummy], waterPixels := b.waterPixels[j := rgb],
                     waterHeights := b.waterHeights[j := ToShort(h)], terrain := b.terrain[j := ToShort(ToInt32(h - 1))])
  {
    var ws := [SetPixel(rgb), SetWaterHeight(ToShort(h)), SetPixel(dummy), SetWaterPixel(rgb), SetWaterHeight(ToShort(h)),
               SetTerrain(ToShort(ToInt32(h - 1)))];
    var b1 := b.(pixels := b.pixels[j := rgb]);
    var b2 := b1.(waterHeights := b.waterHeights[j := ToShort(h)]);
    var b3 := b2.(pixels := b2.pixels[j := dummy]);
    var b4 := b3.(waterPixels := b.waterPixels[j := rgb]);
    var b5 := b4.(waterHeights := b4.waterHeights[j := ToShort(h)]);
    assert b3.pixels == b.pixels[j := dummy];
    assert b5.waterHeights == b.waterHeights[j := ToShort(h)];
    var b6 := b5.(terrain := b.terrain[j := ToShort(ToInt32(h - 1))]);
    assert Written(b, j, ws) == Written(b1, j, ws[1..]);
    assert Written(b1, j, ws[1..]) == Written(b2, j, ws[2..]);
    assert Written(b2, j, ws[2..]) == Written(b3, j, ws[3..]);
    assert Written(b3, j, ws[3..]) == Written(b4, j, ws[4..]);
    assert Written(b4, j, ws[4..]) == Written(b5, j, ws[5..]);
    assert Written(b5, j, ws[5..]) == Written(b6, j, []);
    b6
  }

  /** In water mode the first water block sets the surface colour and water
      height and the scan goes on below it with `waterDepth` set. */
  lemma WaterSurface(ctx: Surface, v: SectionView, cx: int, cz: int, j: int, cy: int, lo: int, b: Buffers,
                     blk: BlockState, biome: string)
    requires 0 <= cx < 16 && 0 <= cz < 16 && 0 <= lo <= cy < 16 && ctx.water
    requires forall c :: lo < c <= cy ==> Cell(ctx.cm, ctx.water, v, cx, cz, c, false).Pass?
    requires GetBlock(cx, lo, cz, v.blocks, v.bits, v.bits % 32, IndicesPerLong(v.bits), v.palette) == Done(Some(blk))
    requires !ctx.cm.isTransparent(blk) && ctx.cm.isWater(blk)
    requires GetBiome(cx, lo, cz, v.biomes, v.biomeBits, v.biomeBits % 32, IndicesPerLong(v.biomeBits), v.biomePalette) == Done(biome)
    requires 0 <= j < |b.pixels| && j < |b.waterHeights|
    ensures ScanCells(ctx, v, cx, cz, j, cy, Scan(b, Scanning(false))) ==
            ScanCells(ctx, v, cx, cz, j, lo - 1,
                      Scan(b.(pixels := b.pixels[j := ctx.cm.rgb(blk, biome)],
                              waterHeights := b.waterHeights[j := ToShort(ToInt32(v.sectionHeight + lo))]), Scanning(true)))
  {
    var s := Scan(b, Scanning(false));
    PassCells(ctx, v, cx, cz, j, cy, lo, s);
    var o := Cell(ctx.cm, ctx.water, v, cx, cz, lo, false);
    CellHit(ctx.cm, ctx.water, v, cx, cz, lo, false, blk, biome);
    var h := ToShort(ToInt32(v.sectionHeight + lo));
    var rgb := ctx.cm.rgb(blk, biome);
    assert o.writes == [SetPixel(rgb), SetWaterHeight(h)] && !o.stop;
    var b1 := b.(pixels := b.pixels[j := rgb]);
    var b2 := b1.(waterHeights := b.waterHeights[j := h]);
    assert Written(b, j, o.writes) == Written(b1, j, [SetWaterHeight(h)]);
    assert Written(b1, j, [SetWaterHeight(h)]) == Written(b2, j, []);
    assert StepScan(s, o, j) == Scan(b2, Scanning(true));
    ScanCellsStep(ctx, v, cx, cz, j, lo, s, o);
  }

  /** Below water the first block that is neither water nor waterlogged is
      the bottom: its colour goes to `waterPixels` and its height to the
      terrain, while the surface colour and water height stay. */
  lemma WaterBottom(ctx: Surface, v: SectionView, cx: int, cz: int, j: int, cy: int, lo: int, b: Buffers,
                    blk: BlockState, biome: string)
    requires 0 <= cx < 16 && 0 <= cz < 16 && 0 <= lo <= cy < 16 && ctx.water
    requires forall c :: lo < c <= cy ==> Cell(ctx.cm, ctx.water, v, cx, cz, c, true).Pass?
    requires GetBlock(cx, lo, cz, v.blocks, v.bits, v.bits % 32, IndicesPerLong(v.bits), v.palette) == Done(Some(blk))
    requires !ctx.cm.isTransparent(blk) && !ctx.cm.isWater(blk) && !ctx.cm.isWaterlogged(blk)
    requires GetBiome(cx, lo, cz, v.biomes, v.biomeBits, v.biomeBits % 32, IndicesPerLong(v.biomeBits), v.biomePalette) == Done(biome)
    requires 0 <= j < |b.waterPixels| && j < |b.terrain|
    ensures ScanCells(ctx, v, cx, cz, j, cy, Scan(b, Scanning(true))) ==
            Scan(b.(waterPixels := b.waterPixels[j := ctx.cm.rgb(blk, biome)],
                    terrain := b.terrain[j := ToShort(ToInt32(v.sectionHeight + lo))]), Stopped)
  {
    var s := Scan(b, Scanning(true));
    PassCells(ctx, v, cx, cz, j, cy, lo, s);
    var o := Cell(ctx.cm, ctx.water, v, cx, cz, lo, true);
    CellHit(ctx.cm, ctx.water, v, cx, cz, lo, true, blk, biome);
    var h := ToShort(ToInt32(v.sectionHeight + lo));
    var rgb := ctx.cm.rgb(blk, biome);
    assert o == Hit([SetWaterPixel(rgb), SetTerrain(h)], true);
    BottomWritten(b, j, rgb, h);
    ScanCellsStep(ctx, v, cx, cz, j, lo, s, o);
  }

  /** Storing the bottom's colour and height stops the column. */
  lemma BottomWritten(b: Buffers, j: int, rgb: int32, h: int16)
    requires 0 <= j < |b.waterPixels| && j < |b.terrain|
    ensures StepScan(Scan(b, Scanning(true)), Hit([SetWaterPixel(rgb), SetTerrain(h)], true), j) ==
            Scan(b.(waterPixels := b.waterPixels[j := rgb], terrain := b.terrain[j := h]), Stopped)
  {
    var b1 := b.(waterPixels := b.waterPixels[j := rgb]);
    var b2 := b1.(terrain := b.terrain[j := h]);
    assert Written(b, j, [SetWaterPixel(rgb), SetTerrain(h)]) == Written(b1, j, [SetTerrain(h)]);
    assert Written(b1, j, [SetTerrain(h)]) == Written(b2, j, []);
  }

  /** Section `i` of the table is empty or holds no opaque block in column `(cx, cz)`. */
  predicate SectionClear(ctx: Surface, i: int, cx: int, cz: int)
    requires 0 <= i < |ctx.indexed| && 0 <= cx < 16 && 0 <= cz < 16
  {
    ctx.indexed[i].None? ||
    var v := ViewOf(ctx.indexed[i].value, ctx.g, i);
    forall c :: 0 <= c <= v.startHeight ==> Cell(ctx.cm, ctx.water, v, cx, cz, c, false).Pass?
  }

  /** A column without any opaque block stores nothing and does not throw. */
  lemma {:induction false} ClearSections(ctx: Surface, cx: int, cz: int, j: int, i: int, b: Buffers)
    requires 0 <= cx < 16 && 0 <= cz < 16 && i < |ctx.indexed|
    requires forall i1 :: 0 <= i1 <= i ==> SectionClear(ctx, i1, cx, cz)
    ensures ScanSections(ctx, cx, cz, j, i, Scan(b, Scanning(false))) == Scan(b, Scanning(false))
    decreases i + 1
  {
    if i >= 0 {
      var s := Scan(b, Scanning(false));
      assert SectionClear(ctx, i, cx, cz);
      if ctx.indexed[i].Some? {
        var v := ViewOf(ctx.indexed[i].value, ctx.g, i);
        PassCells(ctx, v, cx, cz, j, v.startHeight, -1, s);
      }
      ClearSections(ctx, cx, cz, j, i - 1, b);
    }
  }

  lemma ColumnClear(ctx: Surface, cx: int, cz: int, j: int, b: Buffers)
    requires 0 <= cx < 16 && 0 <= cz < 16 && ctx.g.top < |ctx.indexed|
    requires forall i1 :: 0 <= i1 <= ctx.g.top ==> SectionClear(ctx, i1, cx, cz)
    ensures Column(ctx, cx, cz, j, b) == Scan(b, Scanning(false))
  {
    ClearSections(ctx, cx, cz, j, ctx.g.top, b);
  }

  /** A render height above the table makes the first column throw before storing anything. */
  lemma ColumnAboveTable(ctx: Surface, cx: int, cz: int, j: int, b: Buffers)
    requires 0 <= cx < 16 && 0 <= cz < 16 && ctx.g.top >= |ctx.indexed|
    ensures Column(ctx, cx, cz, j, b) == Scan(b, Failed)
  {
  }
}
