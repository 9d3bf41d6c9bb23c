/** Reading one block state or one biome name out of a section, the way
    `getBlock` and `getBiome` of the 1.21 chunk renderer do: a missing buffer
    or palette gives nothing, a zero width gives the first palette entry, and
    otherwise the packed index picks the entry, with the fallback each of
    them uses for an index past the palette's end. */
module SectionReader {
  import opened JavaInts
  import opened Results
  import opened PackedIndices
  import opened ChunkNbt

  /** `y * 256 + z * 16 + x`: the position of a block among a section's 4096 indices. */
  function BlockIndex(x: int, y: int, z: int): (r: int)
    requires 0 <= x < 16 && 0 <= y < 16 && 0 <= z < 16
    ensures 0 <= r < 4096
  {
    y * 256 + z * 16 + x
  }

  /** `(y >> 2 & 0xF) * 16 + (z >> 2 & 0xF) * 4 + (x >> 2 & 0xF)`: the 4x4x4 biome cell of a block. */
  function BiomeIndex(x: int, y: int, z: int): (r: int)
    ensures 0 <= x < 16 && 0 <= y < 16 && 0 <= z < 16 ==> 0 <= r < 64
  {
    assert Pow2(2) == 4;
    (ShiftRight(y, 2) % 16) * 16 + (ShiftRight(z, 2) % 16) * 4 + ShiftRight(x, 2) % 16
  }

  /** For a block inside the section the biome cell is one of 64, found by dividing each coordinate by 4. */
  lemma BiomeIndexInSection(x: int, y: int, z: int)
    requires 0 <= x < 16 && 0 <= y < 16 && 0 <= z < 16
    ensures BiomeIndex(x, y, z) == (y / 4) * 16 + (z / 4) * 4 + x / 4
    ensures 0 <= BiomeIndex(x, y, z) < 64
  {
  }

  /** `getBlock`: `Done(None)` is the `null` result, `Threw` an exception
      (a word index outside the buffer, a zero `indexesPerLong`, or a negative
      palette index, which only a 32-bit mask can produce). */
  function GetBlock(x: int, y: int, z: int, words: Option<seq<int>>, bits: int, w: nat,
                    perLong: int, palette: Option<seq<BlockState>>): (r: Attempt<Option<BlockState>>)
    requires 0 <= x < 16 && 0 <= y < 16 && 0 <= z < 16 && w <= 32
    ensures r == Done(None) <==> words.None? || palette.None? || |palette.value| == 0
    ensures r.Done? && r.value.Some? ==> palette.Some? && r.value.value in palette.value
    ensures bits == 0 && r.Done? && r.value.Some? ==> r.value.value == palette.value[0]
  {
    if words.None? || palette.None? || |palette.value| == 0 then Done(None)
    else if bits == 0 then Done(Some(palette.value[0]))
    else
      match ReadIndex(words.value, BlockIndex(x, y, z), bits, w, perLong)
      case Threw => Threw
      case Done(p) =>
        if p >= |palette.value| then Done(Some(palette.value[0]))
        else if p < 0 then Threw
        else Done(Some(palette.value[p]))
  }

  /** `palette.getString(i)`: the name of a string tag; taken to throw for any other tag kind. */
  function BiomeString(e: BiomeEntry): Attempt<string>
  {
    if e.BiomeName? then Done(e.name) else Threw
  }

  /** `getBiome`: as `getBlock`, but a missing buffer or palette and an index
      past the palette's end give the empty name instead of `null` or entry 0. */
  function GetBiome(x: int, y: int, z: int, words: Option<seq<int>>, bits: int, w: nat,
                    perLong: int, palette: Option<seq<BiomeEntry>>): (r: Attempt<string>)
    requires w <= 32
    ensures words.None? || palette.None? || |palette.value| == 0 ==> r == Done("")
    ensures r.Done? && r.value != "" ==> palette.Some? && BiomeName(r.value) in palette.value
  {
    if words.None? || palette.None? || |palette.value| == 0 then Done("")
    else if bits == 0 then BiomeString(palette.value[0])
    else
      match ReadIndex(words.value, BiomeIndex(x, y, z), bits, w, perLong)
      case Threw => Threw
      case Done(p) =>
        if p >= |palette.value| then Done("")
        else if p < 0 then Threw
        else BiomeString(palette.value[p])
  }

  /** An index read at or past the palette's end falls back differently:
      `getBlock` gives palette entry 0, `getBiome` the empty name. */
  lemma PastPaletteFallbacks(x: int, y: int, z: int, words: seq<int>, bits: int, w: nat, perLong: int,
                             blocks: seq<BlockState>, biomes: seq<BiomeEntry>, p: int, q: int)
    requires 0 <= x < 16 && 0 <= y < 16 && 0 <= z < 16 && w <= 32 && bits != 0
    requires 0 < |blocks| && 0 < |biomes|
    requires ReadIndex(words, BlockIndex(x, y, z), bits, w, perLong) == Done(p) && p >= |blocks|
    requires ReadIndex(words, BiomeIndex(x, y, z), bits, w, perLong) == Done(q) && q >= |biomes|
    ensures GetBlock(x, y, z, Some(words), bits, w, perLong, Some(blocks)) == Done(Some(blocks[0]))
    ensures GetBiome(x, y, z, Some(words), bits, w, perLong, Some(biomes)) == Done("")
  {
  }

  /** A palette an int-sized list can hold needs at most 31 bits per index. */
  lemma BitsOfIntList(n: nat)
    requires 2 <= n <= INT_MAX
    ensures 4 <= BlockBits(n) <= 31 && 1 <= BiomeBits(n) <= 31
  {
    var l := BitLength(n - 1);
    if l > 31 {
      Pow2Monotone(31, l - 1);
      Pow2Value31();
    }
  }

  /** With a buffer long enough for all 4096 indices and the surface
      renderer's widths, `getBlock` never throws: an index read past the
      palette's end falls back to entry 0. */
  lemma GetBlockTotal(x: int, y: int, z: int, words: seq<int>, palette: seq<BlockState>)
    requires 0 <= x < 16 && 0 <= y < 16 && 0 <= z < 16 && 0 < |palette| <= INT_MAX
    requires 4096 <= |words| * IndicesPerLong(BlockBits(|palette|))
    ensures GetBlock(x, y, z, Some(words), BlockBits(|palette|), BlockBits(|palette|) % 32,
                     IndicesPerLong(BlockBits(|palette|)), Some(palette)).Done?
  {
    var b := BlockBits(|palette|);
    if b > 0 {
      BitsOfIntList(|palette|);
      ReadIndexInRange(words, BlockIndex(x, y, z), b, b % 32, IndicesPerLong(b));
    }
  }

  /** When the packed index is a palette position, `getBlock` returns that entry. */
  lemma GetBlockOfIndex(x: int, y: int, z: int, words: seq<int>, bits: int, w: nat, perLong: int,
                        palette: seq<BlockState>, v: nat)
    requires 0 <= x < 16 && 0 <= y < 16 && 0 <= z < 16 && w <= 32 && bits != 0 && v < |palette|
    requires ReadIndex(words, BlockIndex(x, y, z), bits, w, perLong) == Done(v)
    ensures GetBlock(x, y, z, Some(words), bits, w, perLong, Some(palette)) == Done(Some(palette[v]))
  {
  }

  lemma GetBiomeOfIndex(x: int, y: int, z: int, words: seq<int>, bits: int, w: nat, perLong: int,
                        palette: seq<BiomeEntry>, v: nat)
    requires w <= 32 && bits != 0 && v < |palette|
    requires ReadIndex(words, BiomeIndex(x, y, z), bits, w, perLong) == Done(v)
    ensures GetBiome(x, y, z, Some(words), bits, w, perLong, Some(palette)) == BiomeString(palette[v])
  {
  }

  /** With no index bits every block of a section with a buffer is the first palette entry. */
  lemma GetBlockWidthZero(x: int, y: int, z: int, words: seq<int>, perLong: int, palette: seq<BlockState>)
    requires 0 <= x < 16 && 0 <= y < 16 && 0 <= z < 16 && |palette| > 0
    ensures GetBlock(x, y, z, Some(words), 0, 0, perLong, Some(palette)) == Done(Some(palette[0]))
  {
  }

  lemma GetBiomeWidthZero(x: int, y: int, z: int, words: seq<int>, perLong: int, palette: seq<BiomeEntry>)
    requires |palette| > 0
    ensures GetBiome(x, y, z, Some(words), 0, 0, perLong, Some(palette)) == BiomeString(palette[0])
  {
  }

  /** A section written with the format's widths reads back block by block:
      the block at `(x, y, z)` is the palette entry its packed index names. */
  lemma GetBlockOfPacked(ids: seq<nat>, palette: seq<BlockState>, x: int, y: int, z: int)
    requires 0 <= x < 16 && 0 <= y < 16 && 0 <= z < 16
    requires 0 < |palette| <= INT_MAX && |ids| == 4096
    requires forall i :: 0 <= i < |ids| ==> ids[i] < |palette|
    ensures var b := BlockBits(|palette|);
            b <= 31 &&
            GetBlock(x, y, z, Some(Pack(ids, b, IndicesPerLong(b))), b, b % 32, IndicesPerLong(b), Some(palette))
              == Done(Some(palette[ids[BlockIndex(x, y, z)]]))
  {
    var b := BlockBits(|palette|);
    var k := BlockIndex(x, y, z);
    if b > 0 {
      BitsOfIntList(|palette|);
      GetBlockOfPackedWide(ids, palette, x, y, z, b);
    } else {
      assert ids[k] == 0;
      GetBlockWidthZero(x, y, z, Pack(ids, b, IndicesPerLong(b)), IndicesPerLong(b), palette);
    }
  }

  lemma GetBlockOfPackedWide(ids: seq<nat>, palette: seq<BlockState>, x: int, y: int, z: int, b: nat)
    requires 0 <= x < 16 && 0 <= y < 16 && 0 <= z < 16
    requires 1 <= b <= 31 && |palette| <= Pow2(b) && |ids| == 4096
    requires forall i :: 0 <= i < |ids| ==> ids[i] < |palette|
    ensures GetBlock(x, y, z, Some(Pack(ids, b, IndicesPerLong(b))), b, b % 32, IndicesPerLong(b), Some(palette))
              == Done(Some(palette[ids[BlockIndex(x, y, z)]]))
  {
    var k := BlockIndex(x, y, z);
    assert Fits(ids, b) by {
      forall i | 0 <= i < |ids| ensures ids[i] < Pow2(b) { }
    }
    var words := Pack(ids, b, IndicesPerLong(b));
    PackReadBack(ids, b, b % 32, k);
    GetBlockOfIndex(x, y, z, words, b, b % 32, IndicesPerLong(b), palette, ids[k]);
  }

  /** The same for a biome section of 64 cells and its at-least-one-bit widths. */
  lemma GetBiomeOfPacked(ids: seq<nat>, names: seq<string>, palette: seq<BiomeEntry>, x: int, y: int, z: int)
    requires 0 <= x < 16 && 0 <= y < 16 && 0 <= z < 16
    requires 0 < |names| <= INT_MAX && |ids| == 64
    requires forall i :: 0 <= i < |ids| ==> ids[i] < |names|
    requires |palette| == |names| && forall i :: 0 <= i < |palette| ==> palette[i] == BiomeName(names[i])
    ensures var b := BiomeBits(|names|);
            b <= 31 &&
            GetBiome(x, y, z, Some(Pack(ids, b, IndicesPerLong(b))), b, b % 32, IndicesPerLong(b), Some(palette))
              == Done(names[ids[BiomeIndex(x, y, z)]])
  {
    var b := BiomeBits(|names|);
    var k := BiomeIndex(x, y, z);
    assert palette[ids[k]] == BiomeName(names[ids[k]]);
    if b > 0 {
      BitsOfIntList(|names|);
      GetBiomeOfPackedWide(ids, palette, x, y, z, b);
    } else {
      assert ids[k] == 0;
      GetBiomeWidthZero(x, y, z, Pack(ids, b, IndicesPerLong(b)), IndicesPerLong(b), palette);
    }
  }

  lemma GetBiomeOfPackedWide(ids: seq<nat>, palette: seq<BiomeEntry>, x: int, y: int, z: int, b: nat)
    requires 0 <= x < 16 && 0 <= y < 16 && 0 <= z < 16
    requires 1 <= b <= 31 && |palette| <= Pow2(b) && |ids| == 64
    requires forall i :: 0 <= i < |ids| ==> ids[i] < |palette|
    ensures GetBiome(x, y, z, Some(Pack(ids, b, IndicesPerLong(b))), b, b % 32, IndicesPerLong(b), Some(palette))
              == BiomeString(palette[ids[BiomeIndex(x, y, z)]])
  {
    var k := BiomeIndex(x, y, z);
    assert Fits(ids, b) by {
      forall i | 0 <= i < |ids| ensures ids[i] < Pow2(b) { }
    }
    var words := Pack(ids, b, IndicesPerLong(b));
    PackReadBack(ids, b, b % 32, k);
    GetBiomeOfIndex(x, y, z, words, b, b % 32, IndicesPerLong(b), palette, ids[k]);
  }
}
