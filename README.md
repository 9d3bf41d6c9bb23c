# Explora exploration and tile pipeline, in Dafny

Explora is a Minecraft server plugin with a map website. The plugin records
which chunks players have explored. It renders each region file (32 by 32
chunks) into a PNG tile, and it sends tiles and explored chunks to a backend.
The map frontend turns pixels back into block coordinates.

This project models the core of that pipeline and proves what it promises.
There is one module per source file or concern, and all modules sit flat in
the project directory:

- `JavaInts`, `Results`, `JavaStrings` (`ints.dfy`, `strings.dfy`): Java and
  JavaScript integer semantics. This covers 32- and 64-bit wrap-around,
  truncating `/` and `%`, and shifts. It also covers the parts of
  `String`/`Integer` the plugin uses: decimal text, `replace`, `indexOf`,
  ASCII case folding.
- `Coords`: `RegionCoord`, `ChunkCoord`, `BlockCoord` and their shifts,
  equality, hash codes and text forms.
- `ChunkNbt`, `PackedIndices`, `SectionReader`: the parts of a chunk's NBT
  tree the renderer reads. Also the palette-packed index arrays of data
  version 4325, and `getBlock`/`getBiome`/`getLongBufferFromTag`.
- `SurfaceRenderer`, `CaveRenderer`, `ImageZoom`: `drawChunk`, `drawCaves` and
  `generateZoomedImage`. These are methods over the caller's arrays, proved
  against column-scan functions.
- `TileImage`, `TileShade`, `TileGenerate`: `HeadlessTileImage`. It places
  the chunks, falls back to the overlay on a failed chunk, runs the
  `flatShade`/`shade` post-passes, and builds the plain and zoomed tiles.
  Cave mode decodes with the width rule the world configuration carries:
  `LengthWidths` is the program as written, and `PaletteWidths` is the
  correction described under "## Findings".
- `VersionRegistry`: `VersionHandler`'s floor lookup by data version.
- `ExplorationStore`: `ChunkManager`. This is the explored set and the delta,
  the merge on save, loading, region derivation, batch counting and the
  "sent" flag.
- `ChunkEvents`: `ChunkTracker`. This is the move, place and break handlers
  and the threshold that promotes an edited chunk.
- `RegionScan`, `RegionRendering`: `ChunkUtils` and `TileImageGenerator`.
  They cover region-folder discovery, dimension names, chunk discovery and
  the JSON layout. They also cover region-file names, missing-tile
  detection, biome metadata, the worker count and `formatDuration`.
- `BackendHttp`: `HttpUtil`'s batch stream, URL building and callback
  outcomes.
- `MinecraftUtils`, `ServerStatusStore`: the frontend's coordinate and time
  conversions, and the backend's online/stale status store.

Files are maps from names to contents. NBT tags are datatypes. `ColorMapping`
and the colour arithmetic are records of functions passed as parameters.
Time is an explicit argument. An exception is a `Threw` result.

## Model

| member | source | states |
|---|---|---|
| JavaInts.ShiftRight | plugin/Explora/src/com/jvallejoromero/explora/util/RegionCoord.java:22 | Java's `>>` on an int keeps its sign and never moves away from zero past the operand |
| JavaInts.ToInt32 | plugin/Explora/src/com/jvallejoromero/explora/util/RegionCoord.java:38 | int overflow wraps: the result is congruent to the exact value modulo 2^32 and equals it when it fits |
| JavaInts.ToShort | plugin/Explora/src/com/jvallejoromero/explora/util/mcaselector/ChunkRenderer_1_21.java:105 | the `(short)` cast is congruent modulo 2^16 and the identity on values that fit |
| JavaInts.JavaDivRem | plugin/Explora/src/com/jvallejoromero/explora/util/mcaselector/HeadlessTileImage.java:128 | Java's `/` and `%` satisfy `a == b*q + r` with `|r| < |b|` and the remainder's sign that of the dividend |
| JavaInts.Clamp | plugin/Explora/src/com/jvallejoromero/explora/util/mcaselector/HeadlessTileImage.java:128 | `MathUtil.clamp` lands in `[lo, hi]` and leaves values already there unchanged |
| JavaStrings.NatToStringValue | plugin/Explora/src/com/jvallejoromero/explora/util/RegionCoord.java:43 | the decimal digits of a natural number read back that number |
| JavaStrings.ParseIntToString | plugin/Explora/src/com/jvallejoromero/explora/util/TileImageGenerator.java:230-231 | `Integer.parseInt` reads back every int's decimal text |
| JavaStrings.IntToStringInjective | plugin/Explora/src/com/jvallejoromero/explora/util/RegionCoord.java:43 | different ints print differently |
| JavaStrings.IndexOf | plugin/Explora/src/com/jvallejoromero/explora/util/TileImageGenerator.java:134 | the first position of a character, or the length when it is absent |
| JavaStrings.ReplaceAbsent | plugin/Explora/src/com/jvallejoromero/explora/util/TileImageGenerator.java:134 | `replace` leaves text without the target unchanged |
| JavaStrings.ReplaceAtEnd | plugin/Explora/src/com/jvallejoromero/explora/util/TileImageGenerator.java:134 | a target occurring once, at the end, is replaced there and nowhere else |
| JavaStrings.ReplaceOnce | plugin/Explora/src/com/jvallejoromero/explora/util/TileImageGenerator.java:134 | a target occurring exactly once is replaced in place, the rest kept |
| JavaStrings.ToLower | plugin/Explora/src/com/jvallejoromero/explora/util/TileImageGenerator.java:224 | lower-casing keeps the length and lower-cases each ASCII letter |
| JavaStrings.ToLowerIdentity | plugin/Explora/src/com/jvallejoromero/explora/util/TileImageGenerator.java:224 | text without upper-case letters is its own lower-case form |
| Coords.RegionOfChunk | plugin/Explora/src/com/jvallejoromero/explora/util/RegionCoord.java:21-24 | the region built from a chunk is the one whose 32x32 chunk square contains it (`32*r.x <= chunkX < 32*r.x + 32`, likewise for z) |
| Coords.RegionOfChunkExample | plugin/Explora/src/com/jvallejoromero/explora/util/RegionCoord.java:21-24 | `>> 5` rounds toward negative infinity: chunk (47, -3) is in region (1, -1) |
| Coords.RegionMembership | plugin/Explora/src/com/jvallejoromero/explora/util/RegionCoord.java:21-24 | a chunk maps to region r if and only if it lies in r's 32x32 square |
| Coords.FromRegionCoords | plugin/Explora/src/com/jvallejoromero/explora/util/RegionCoord.java:53-58 | the result holds exactly the given region coordinates, whatever the (0, 0) construction put there first |
| Coords.FromRegionCoordsOfShift | plugin/Explora/src/com/jvallejoromero/explora/util/RegionCoord.java:53-58 | building from shifted chunk coordinates gives the same value as the chunk constructor |
| Coords.ChunkOfBlock | plugin/Explora/src/com/jvallejoromero/explora/util/BlockCoord.java:44-46 | the chunk of a block is the one whose 16x16 column contains the block's x and z |
| Coords.ChunkOfBlockIgnoresY | plugin/Explora/src/com/jvallejoromero/explora/util/BlockCoord.java:44-46 | the block's y plays no part in its chunk |
| Coords.RegionOfBlock | plugin/Explora/src/com/jvallejoromero/explora/util/BlockCoord.java:44-46 | block to chunk to region is one floor division of x and z by 512 |
| Coords.ChunkEquals | plugin/Explora/src/com/jvallejoromero/explora/util/ChunkCoord.java:33-38 | `equals` holds exactly when both fields agree, i.e. value equality |
| Coords.ChunkEqualsReflexiveSymmetric | plugin/Explora/src/com/jvallejoromero/explora/util/ChunkCoord.java:33-38 | `equals` is reflexive and symmetric |
| Coords.BlockEquals | plugin/Explora/src/com/jvallejoromero/explora/util/BlockCoord.java:49-54 | `equals` holds exactly when x, y and z agree |
| Coords.RegionEquals | plugin/Explora/src/com/jvallejoromero/explora/util/RegionCoord.java:30-34 | `equals` holds exactly when both region fields agree |
| Coords.Hash2 | plugin/Explora/src/com/jvallejoromero/explora/util/ChunkCoord.java:41-43 | `Objects.hash(x, z)` is `961 + 31*x + z` wrapped to 32 bits, however the steps wrap |
| Coords.Hash3 | plugin/Explora/src/com/jvallejoromero/explora/util/BlockCoord.java:57-59 | `Objects.hash(x, y, z)` is `29791 + 961*x + 31*y + z` wrapped to 32 bits |
| Coords.HashConsistentWithEquals | plugin/Explora/src/com/jvallejoromero/explora/util/ChunkCoord.java:40-43 | equal coordinates of each of the three types have equal hash codes |
| Coords.ChunkToStringInjective | plugin/Explora/src/com/jvallejoromero/explora/util/ChunkCoord.java:46-48 | two chunks with the same `x,z` text are the same chunk |
| Coords.BlockToStringInjective | plugin/Explora/src/com/jvallejoromero/explora/util/BlockCoord.java:62-64 | two blocks with the same `x,y,z` text are the same block |
| Coords.RegionToStringInjective | plugin/Explora/src/com/jvallejoromero/explora/util/RegionCoord.java:42-44 | two regions with the same `r.x.z` stem are the same region |
| ChunkNbt.Unsigned | plugin/Explora/src/com/jvallejoromero/explora/util/mcaselector/ChunkRenderer_1_21.java:279 | a byte's unsigned value is below 256 and congruent to it modulo 256 |
| ChunkNbt.ToByte | plugin/Explora/src/com/jvallejoromero/explora/util/mcaselector/ChunkRenderer_1_21.java:279 | the `(byte)` cast is congruent modulo 256 |
| ChunkNbt.BytesToLongs | plugin/Explora/src/com/jvallejoromero/explora/util/mcaselector/ChunkRenderer_1_21.java:279 | a byte array viewed as a long buffer holds one long per whole group of eight bytes |
| ChunkNbt.LongsToBytes | plugin/Explora/src/com/jvallejoromero/explora/util/mcaselector/ChunkRenderer_1_21.java:279 | a long array written as bytes takes eight bytes per long |
| ChunkNbt.LongBufferOf | plugin/Explora/src/com/jvallejoromero/explora/util/mcaselector/ChunkRenderer_1_21.java:277-284 | a buffer exists exactly for byte- and long-array tags (null otherwise), and a long array is wrapped unchanged |
| ChunkNbt.BigEndianRoundTrip | plugin/Explora/src/com/jvallejoromero/explora/util/mcaselector/ChunkRenderer_1_21.java:279 | the n big-endian bytes of a number read back that number modulo 256^n |
| ChunkNbt.LongRoundTrip | plugin/Explora/src/com/jvallejoromero/explora/util/mcaselector/ChunkRenderer_1_21.java:279 | one long written as eight big-endian bytes reads back as itself, negative values included |
| ChunkNbt.LongBufferRoundTrip | plugin/Explora/src/com/jvallejoromero/explora/util/mcaselector/ChunkRenderer_1_21.java:277-284 | the byte-array path and the long-array path of `getLongBufferFromTag` agree: bytes written from longs read back as those longs |
| PackedIndices.BitLength | plugin/Explora/src/com/jvallejoromero/explora/util/mcaselector/ChunkRenderer_1_21.java:68 | `32 - numberOfLeadingZeros(v)` is the least r with `v < 2^r`, zero only for v = 0 |
| PackedIndices.BlockBits | plugin/Explora/src/com/jvallejoromero/explora/util/mcaselector/ChunkRenderer_1_21.java:68 | a palette of n > 1 entries gets the least width of at least 4 bits that can index it, and 0 bits otherwise |
| PackedIndices.BiomeBits | plugin/Explora/src/com/jvallejoromero/explora/util/mcaselector/ChunkRenderer_1_21.java:72 | a biome palette of n > 1 entries gets the least width of at least 1 bit that can index it, and 0 bits otherwise |
| PackedIndices.BitWidthExamples | plugin/Explora/src/com/jvallejoromero/explora/util/mcaselector/ChunkRenderer_1_21.java:68-72 | 17 states need 5 bits, 16 and 2 states 4, one state none; 2 biomes 1 bit, 5 biomes 3 |
| PackedIndices.IndicesPerLong | plugin/Explora/src/com/jvallejoromero/explora/util/mcaselector/ChunkRenderer_1_21.java:70 | `64 / bits` is the largest number of whole indices that fit in 64 bits, and 1 for width 0 |
| PackedIndices.BlockMaskExpression | plugin/Explora/src/com/jvallejoromero/explora/util/mcaselector/ChunkRenderer_1_21.java:69 | `(1 << bits) - 1` is the mask of the low `bits mod 32` bits (0 at `bits = 32`, since any multiple of 32 gives width 0) |
| PackedIndices.CaveMaskExpression | plugin/Explora/src/com/jvallejoromero/explora/util/mcaselector/ChunkRenderer_1_21.java:207 | `(2 << (bits - 1)) - 1` is the mask of the low `((bits - 1) mod 32) + 1` bits, so width 0 gives -1 |
| PackedIndices.PackLength | plugin/Explora/src/com/jvallejoromero/explora/util/mcaselector/ChunkRenderer_1_21.java:257 | a buffer of n indices at perLong per word takes n / perLong words, rounded up |
| PackedIndices.PackWordBound | plugin/Explora/src/com/jvallejoromero/explora/util/mcaselector/ChunkRenderer_1_21.java:259 | a word packing k indices of b bits is below 2^(k*b) |
| PackedIndices.PackWordShift | plugin/Explora/src/com/jvallejoromero/explora/util/mcaselector/ChunkRenderer_1_21.java:259 | shifting a packed word right by t digits leaves the indices from t on |
| PackedIndices.PackGroup | plugin/Explora/src/com/jvallejoromero/explora/util/mcaselector/ChunkRenderer_1_21.java:257-258 | index k lives in word `k / perLong` at digit `k % perLong` |
| PackedIndices.SignedShiftLowBits | plugin/Explora/src/com/jvallejoromero/explora/util/mcaselector/ChunkRenderer_1_21.java:259 | `>>` on the signed long and on the unsigned word agree on the low bits read |
| PackedIndices.CastLowBits | plugin/Explora/src/com/jvallejoromero/explora/util/mcaselector/ChunkRenderer_1_21.java:260 | the `(int)` cast keeps every low bit a mask of at most 32 bits selects |
| PackedIndices.WordReadBack | plugin/Explora/src/com/jvallejoromero/explora/util/mcaselector/ChunkRenderer_1_21.java:259-260 | every index of a fully packed word reads back, whatever the word's sign as a long |
| PackedIndices.ReadIndexInRange | plugin/Explora/src/com/jvallejoromero/explora/util/mcaselector/ChunkRenderer_1_21.java:257-260 | a non-negative index inside the buffer reads without an exception and below the mask |
| PackedIndices.PackReadBack | plugin/Explora/src/com/jvallejoromero/explora/util/mcaselector/ChunkRenderer_1_21.java:256-260 | every index written with the palette's width is read back by `getBlock`'s arithmetic |
| SectionReader.BlockIndex | plugin/Explora/src/com/jvallejoromero/explora/util/mcaselector/ChunkRenderer_1_21.java:256 | `y*256 + z*16 + x` is one of a section's 4096 positions |
| SectionReader.BiomeIndex | plugin/Explora/src/com/jvallejoromero/explora/util/mcaselector/ChunkRenderer_1_21.java:268 | a block inside the section falls in one of its 64 biome cells |
| SectionReader.BiomeIndexInSection | plugin/Explora/src/com/jvallejoromero/explora/util/mcaselector/ChunkRenderer_1_21.java:268 | the masked shifts are plain division of each coordinate by 4 |
| SectionReader.GetBlock | plugin/Explora/src/com/jvallejoromero/explora/util/mcaselector/ChunkRenderer_1_21.java:253-263 | `null` exactly when the buffer or palette is missing or empty; any block returned is a palette entry, entry 0 at width 0 |
| SectionReader.GetBiome | plugin/Explora/src/com/jvallejoromero/explora/util/mcaselector/ChunkRenderer_1_21.java:265-275 | the empty name when the buffer or palette is missing or empty; any non-empty name returned is in the palette |
| SectionReader.BitsOfIntList | plugin/Explora/src/com/jvallejoromero/explora/util/mcaselector/ChunkRenderer_1_21.java:68-72 | any palette an int-sized list can hold gets a width of 4..31 bits (blocks) and 1..31 bits (biomes) |
| SectionReader.GetBlockTotal | plugin/Explora/src/com/jvallejoromero/explora/util/mcaselector/ChunkRenderer_1_21.java:253-263 | with a buffer holding all 4096 indices and the palette's width, `getBlock` never throws |
| SectionReader.GetBlockOfIndex | plugin/Explora/src/com/jvallejoromero/explora/util/mcaselector/ChunkRenderer_1_21.java:259-262 | when the packed index is a palette position, that entry is returned |
| SectionReader.GetBiomeOfIndex | plugin/Explora/src/com/jvallejoromero/explora/util/mcaselector/ChunkRenderer_1_21.java:271-274 | when the packed biome index is a palette position, that entry's name is returned |
| SectionReader.GetBlockWidthZero | plugin/Explora/src/com/jvallejoromero/explora/util/mcaselector/ChunkRenderer_1_21.java:255 | width 0 reads palette entry 0 for every block |
| SectionReader.GetBiomeWidthZero | plugin/Explora/src/com/jvallejoromero/explora/util/mcaselector/ChunkRenderer_1_21.java:267 | width 0 reads biome entry 0 for every block |
| SectionReader.GetBlockOfPacked | plugin/Explora/src/com/jvallejoromero/explora/util/mcaselector/ChunkRenderer_1_21.java:253-263 | a section written with its palette's width reads back, block by block, the palette entry its index names |
| SectionReader.GetBlockOfPackedWide | plugin/Explora/src/com/jvallejoromero/explora/util/mcaselector/ChunkRenderer_1_21.java:256-262 | the same for any width of 1..31 bits wide enough for the palette |
| SectionReader.GetBiomeOfPacked | plugin/Explora/src/com/jvallejoromero/explora/util/mcaselector/ChunkRenderer_1_21.java:265-275 | a biome section written with its palette's width reads back, cell by cell, the name its index names |
| SectionReader.GetBiomeOfPackedWide | plugin/Explora/src/com/jvallejoromero/explora/util/mcaselector/ChunkRenderer_1_21.java:268-274 | the same for any biome width of 1..31 bits wide enough for the palette |
| SectionReader.PastPaletteFallbacks | plugin/Explora/src/com/jvallejoromero/explora/util/mcaselector/ChunkRenderer_1_21.java:261-273 | a packed index at or past the palette's end makes `getBlock` return palette entry 0 but `getBiome` the empty name |
| SurfaceRenderer.GeometryTop | plugin/Explora/src/com/jvallejoromero/explora/util/mcaselector/ChunkRenderer_1_21.java:53 | the scan starts at section `absHeight >> 4` (even when `sMax - (sMax - t)` wraps), the section whose 16 blocks hold the render height |
| SurfaceRenderer.ScaleBits | plugin/Explora/src/com/jvallejoromero/explora/util/mcaselector/ChunkRenderer_1_21.java:34 | `31 - numberOfLeadingZeros(scale)` is the position of scale's highest set bit |
| SurfaceRenderer.ScaleBitsOfPowers | plugin/Explora/src/com/jvallejoromero/explora/util/mcaselector/ChunkRenderer_1_21.java:34 | scales 1, 2, 4, 8 and 16 give shifts 0 to 4 |
| SurfaceRenderer.GeometryValid | plugin/Explora/src/com/jvallejoromero/explora/util/mcaselector/ChunkRenderer_1_21.java:33-37 | `sMax` is `yMax - yMin` and the table has a slot for every `Y` in `[yMin, yMax)` |
| SurfaceRenderer.IndexSections | plugin/Explora/src/com/jvallejoromero/explora/util/mcaselector/ChunkRenderer_1_21.java:39-45 | the section table has `sMax` slots |
| SurfaceRenderer.IndexSectionsLastWins | plugin/Explora/src/com/jvallejoromero/explora/util/mcaselector/ChunkRenderer_1_21.java:39-45 | slot j is empty exactly when no section has `Y == yMin + j`, and otherwise holds the last section that has |
| SurfaceRenderer.IndexSectionsStep | plugin/Explora/src/com/jvallejoromero/explora/util/mcaselector/ChunkRenderer_1_21.java:42-44 | a section with `Y` in range takes its slot, any other leaves the table alone |
| SurfaceRenderer.IndexSectionsInto | plugin/Explora/src/com/jvallejoromero/explora/util/mcaselector/ChunkRenderer_1_21.java:39-45 | the array filled by the sections loop is the table `IndexSections` describes |
| SurfaceRenderer.ViewOf | plugin/Explora/src/com/jvallejoromero/explora/util/mcaselector/ChunkRenderer_1_21.java:76-77 | `startHeight` is 0..15, and below 15 only in the section holding the render height |
| SurfaceRenderer.HitOf | plugin/Explora/src/com/jvallejoromero/explora/util/mcaselector/ChunkRenderer_1_21.java:85-106 | every opaque block met produces stores |
| SurfaceRenderer.WriteAll | plugin/Explora/src/com/jvallejoromero/explora/util/mcaselector/ChunkRenderer_1_21.java:87-105 | the stores of one step, made in place on the caller's arrays, are those the step describes, stopping at the first out-of-range index |
| SurfaceRenderer.DrawSection | plugin/Explora/src/com/jvallejoromero/explora/util/mcaselector/ChunkRenderer_1_21.java:79-107 | the `cy` loop of one section leaves the buffers and the scan state its specification gives |
| SurfaceRenderer.ScanCellsStep | plugin/Explora/src/com/jvallejoromero/explora/util/mcaselector/ChunkRenderer_1_21.java:79-107 | one `cy` step, and after `continue zLoop` or an exception nothing more happens in the column |
| SurfaceRenderer.DrawColumn | plugin/Explora/src/com/jvallejoromero/explora/util/mcaselector/ChunkRenderer_1_21.java:51-108 | one sampled column, run in place, matches the column specification and reports whether it threw |
| SurfaceRenderer.DrawSectionAt | plugin/Explora/src/com/jvallejoromero/explora/util/mcaselector/ChunkRenderer_1_21.java:53-55 | an empty slot is skipped; a present section is scanned |
| SurfaceRenderer.DrawFromColumn | plugin/Explora/src/com/jvallejoromero/explora/util/mcaselector/ChunkRenderer_1_21.java:49-50 | one `cz` step draws the column at its pixel index and moves on unless it threw |
| SurfaceRenderer.DrawFromRow | plugin/Explora/src/com/jvallejoromero/explora/util/mcaselector/ChunkRenderer_1_21.java:47-49 | the end of a `cz` loop moves to the next `cx` |
| SurfaceRenderer.DrawRow | plugin/Explora/src/com/jvallejoromero/explora/util/mcaselector/ChunkRenderer_1_21.java:49-109 | the `cz` loop for one `cx`, run in place, matches the loop specification |
| SurfaceRenderer.DrawRows | plugin/Explora/src/com/jvallejoromero/explora/util/mcaselector/ChunkRenderer_1_21.java:47-110 | the `cx` loop, run in place, matches the loop specification |
| SurfaceRenderer.DrawChunk | plugin/Explora/src/com/jvallejoromero/explora/util/mcaselector/ChunkRenderer_1_21.java:28-111 | `drawChunk` on the caller's arrays leaves them as `DrawChunkSpec` gives and reports whether it threw |
| SurfaceRenderer.SpecOfTable | plugin/Explora/src/com/jvallejoromero/explora/util/mcaselector/ChunkRenderer_1_21.java:30-47 | with a section list and a table allocated, `drawChunk` is the `cx` loop over that table |
| SurfaceRenderer.WrittenKept | plugin/Explora/src/com/jvallejoromero/explora/util/mcaselector/ChunkRenderer_1_21.java:87-105 | a step's stores touch only its own pixel index, and dry stores no water buffer |
| SurfaceRenderer.CellDry | plugin/Explora/src/com/jvallejoromero/explora/util/mcaselector/ChunkRenderer_1_21.java:102-105 | outside water mode an opaque block stores only the pixel and the terrain height |
| SurfaceRenderer.CellsKept | plugin/Explora/src/com/jvallejoromero/explora/util/mcaselector/ChunkRenderer_1_21.java:79-107 | the `cy` loop stores only at the column's pixel index |
| SurfaceRenderer.SectionsKept | plugin/Explora/src/com/jvallejoromero/explora/util/mcaselector/ChunkRenderer_1_21.java:53-108 | the section loop stores only at the column's pixel index |
| SurfaceRenderer.ColumnKept | plugin/Explora/src/com/jvallejoromero/explora/util/mcaselector/ChunkRenderer_1_21.java:50-108 | a column stores only at its own pixel index, and outside water mode never into the water buffers |
| SurfaceRenderer.DrawFromFrame | plugin/Explora/src/com/jvallejoromero/explora/util/mcaselector/ChunkRenderer_1_21.java:47-110 | a pixel index no remaining column maps to is left unchanged, and outside water mode the water buffers are untouched |
| SurfaceRenderer.ColumnFrame | plugin/Explora/src/com/jvallejoromero/explora/util/mcaselector/ChunkRenderer_1_21.java:50 | a column that does not map to index k keeps it |
| SurfaceRenderer.DrawFromShape | plugin/Explora/src/com/jvallejoromero/explora/util/mcaselector/ChunkRenderer_1_21.java:47-110 | the loops never resize a buffer |
| SurfaceRenderer.ColumnShape | plugin/Explora/src/com/jvallejoromero/explora/util/mcaselector/ChunkRenderer_1_21.java:50-108 | one column never resizes a buffer |
| SurfaceRenderer.DrawChunkShape | plugin/Explora/src/com/jvallejoromero/explora/util/mcaselector/ChunkRenderer_1_21.java:28-111 | `drawChunk` never resizes a buffer |
| SurfaceRenderer.DrawChunkFrame | plugin/Explora/src/com/jvallejoromero/explora/util/mcaselector/ChunkRenderer_1_21.java:28-111 | `drawChunk` changes only the pixels its sampled columns map to, and outside water mode no water buffer |
| SurfaceRenderer.PassCells | plugin/Explora/src/com/jvallejoromero/explora/util/mcaselector/ChunkRenderer_1_21.java:80-81 | missing and transparent blocks are passed over |
| SurfaceRenderer.CellHit | plugin/Explora/src/com/jvallejoromero/explora/util/mcaselector/ChunkRenderer_1_21.java:80-83 | an opaque block whose biome is read gives the stores for that block, biome and height |
| SurfaceRenderer.FirstOpaqueDry | plugin/Explora/src/com/jvallejoromero/explora/util/mcaselector/ChunkRenderer_1_21.java:102-106 | outside water mode the first opaque block going down sets the pixel to its colour and the terrain to its height, and the column stops |
| SurfaceRenderer.FirstWaterlogged | plugin/Explora/src/com/jvallejoromero/explora/util/mcaselector/ChunkRenderer_1_21.java:93-98 | in water mode a waterlogged block met first shows the water colour, keeps its own colour as the water pixel, and puts the terrain one below the water |
| SurfaceRenderer.WaterloggedHit | plugin/Explora/src/com/jvallejoromero/explora/util/mcaselector/ChunkRenderer_1_21.java:85-98 | the stores of a waterlogged block met first, in the source's order |
| SurfaceRenderer.WaterloggedStores | plugin/Explora/src/com/jvallejoromero/explora/util/mcaselector/ChunkRenderer_1_21.java:86-97 | the six stores of a waterlogged block leave exactly the four final values |
| SurfaceRenderer.WaterSurface | plugin/Explora/src/com/jvallejoromero/explora/util/mcaselector/ChunkRenderer_1_21.java:85-92 | in water mode the first water block sets the pixel and the water height, and the scan goes on with `waterDepth` set |
| SurfaceRenderer.WaterBottom | plugin/Explora/src/com/jvallejoromero/explora/util/mcaselector/ChunkRenderer_1_21.java:99-106 | below water the first solid block sets the water pixel and the terrain height and stops the column |
| SurfaceRenderer.BottomWritten | plugin/Explora/src/com/jvallejoromero/explora/util/mcaselector/ChunkRenderer_1_21.java:100-106 | storing the bottom's colour and height stops the column |
| SurfaceRenderer.ClearSections | plugin/Explora/src/com/jvallejoromero/explora/util/mcaselector/ChunkRenderer_1_21.java:53-108 | sections without an opaque block in the column store nothing |
| SurfaceRenderer.ColumnClear | plugin/Explora/src/com/jvallejoromero/explora/util/mcaselector/ChunkRenderer_1_21.java:51-108 | a column without any opaque block leaves the buffers as they were |
| SurfaceRenderer.ColumnAboveTable | plugin/Explora/src/com/jvallejoromero/explora/util/mcaselector/ChunkRenderer_1_21.java:53-54 | a render height above the table makes the column throw before storing anything |
| CaveRenderer.CaveWords | plugin/Explora/src/com/jvallejoromero/explora/util/mcaselector/ChunkRenderer_1_21.java:180-191 | a buffer exists exactly when `data` is a long array |
| CaveRenderer.CaveMaskWidth | plugin/Explora/src/com/jvallejoromero/explora/util/mcaselector/ChunkRenderer_1_21.java:207 | `(2 << (bits - 1)) - 1` is a mask of 1..32 low bits, exactly `bits` of them for widths 1..32 |
| CaveRenderer.CavePerLong | plugin/Explora/src/com/jvallejoromero/explora/util/mcaselector/ChunkRenderer_1_21.java:208 | `(int) (64D / bits)` is `64 / bits` for a positive width and at least 1 (`Integer.MAX_VALUE` for width 0) |
| CaveRenderer.CaveInfoOf | plugin/Explora/src/com/jvallejoromero/explora/util/mcaselector/ChunkRenderer_1_21.java:174-214 | filling a cache entry throws exactly when the section lacks `block_states` or `biomes`; otherwise `startHeight` is 0..15 and the palette is the section's |
| CaveRenderer.SectionInfo | plugin/Explora/src/com/jvallejoromero/explora/util/mcaselector/ChunkRenderer_1_21.java:174-214 | under either width rule, filling the cache throws exactly when the section lacks block states or biomes; a filled entry starts at height 0..15 and keeps the section's block palette |
| CaveRenderer.CaveSection | plugin/Explora/src/com/jvallejoromero/explora/util/mcaselector/ChunkRenderer_1_21.java:223-238 | the `cy` loop of one section, in place, matches its specification |
| CaveRenderer.CaveStepDraws | plugin/Explora/src/com/jvallejoromero/explora/util/mcaselector/ChunkRenderer_1_21.java:227-232 | a solid block met once skipping is done stores its colour and height and ends the column |
| CaveRenderer.CaveCellsStep | plugin/Explora/src/com/jvallejoromero/explora/util/mcaselector/ChunkRenderer_1_21.java:223-238 | one `cy` step, and nothing happens after the column has ended or thrown |
| CaveRenderer.CaveColumnInPlace | plugin/Explora/src/com/jvallejoromero/explora/util/mcaselector/ChunkRenderer_1_21.java:167-240 | one column, in place and filling the cache on the way, matches the column specification and keeps every cache entry equal to its section's info |
| CaveRenderer.CaveSectionAt | plugin/Explora/src/com/jvallejoromero/explora/util/mcaselector/ChunkRenderer_1_21.java:172-221 | an empty slot is skipped; a section's info is computed once and cached; a section without a palette is passed over |
| CaveRenderer.CavesFromColumn | plugin/Explora/src/com/jvallejoromero/explora/util/mcaselector/ChunkRenderer_1_21.java:166-167 | one `cz` step draws the column at its pixel index and moves on unless it threw |
| CaveRenderer.CavesFromRow | plugin/Explora/src/com/jvallejoromero/explora/util/mcaselector/ChunkRenderer_1_21.java:164-166 | the end of a `cz` loop moves to the next `cx` |
| CaveRenderer.CaveRow | plugin/Explora/src/com/jvallejoromero/explora/util/mcaselector/ChunkRenderer_1_21.java:166-240 | the `cz` loop for one `cx`, in place, matches the loop specification |
| CaveRenderer.CaveRows | plugin/Explora/src/com/jvallejoromero/explora/util/mcaselector/ChunkRenderer_1_21.java:164-241 | the `cx` loop, in place, matches the loop specification |
| CaveRenderer.DrawCaves | plugin/Explora/src/com/jvallejoromero/explora/util/mcaselector/ChunkRenderer_1_21.java:132-242 | `drawCaves` on the caller's pixel and terrain arrays leaves them as `DrawCavesSpec` gives and reports whether it threw |
| CaveRenderer.CaveStepKept | plugin/Explora/src/com/jvallejoromero/explora/util/mcaselector/ChunkRenderer_1_21.java:227-237 | a step stores only at the column's pixel index and never into a water buffer |
| CaveRenderer.CaveCellsKept | plugin/Explora/src/com/jvallejoromero/explora/util/mcaselector/ChunkRenderer_1_21.java:223-238 | the `cy` loop stores only at the column's pixel index |
| CaveRenderer.CaveSectionsKept | plugin/Explora/src/com/jvallejoromero/explora/util/mcaselector/ChunkRenderer_1_21.java:171-239 | the section loop stores only at the column's pixel index |
| CaveRenderer.CaveColumnKept | plugin/Explora/src/com/jvallejoromero/explora/util/mcaselector/ChunkRenderer_1_21.java:167-240 | a column stores only at its own pixel index and never into a water buffer |
| CaveRenderer.CavesFromFrame | plugin/Explora/src/com/jvallejoromero/explora/util/mcaselector/ChunkRenderer_1_21.java:164-241 | a pixel index no remaining column maps to is left unchanged, and so are the water buffers |
| CaveRenderer.CaveColumnShape | plugin/Explora/src/com/jvallejoromero/explora/util/mcaselector/ChunkRenderer_1_21.java:167-240 | one column never resizes a buffer |
| CaveRenderer.CaveColumnFrame | plugin/Explora/src/com/jvallejoromero/explora/util/mcaselector/ChunkRenderer_1_21.java:167 | a column that does not map to index k keeps it |
| CaveRenderer.CavesFromShape | plugin/Explora/src/com/jvallejoromero/explora/util/mcaselector/ChunkRenderer_1_21.java:164-241 | the loops never resize a buffer |
| CaveRenderer.DrawCavesShape | plugin/Explora/src/com/jvallejoromero/explora/util/mcaselector/ChunkRenderer_1_21.java:132-242 | `drawCaves` never resizes a buffer |
| CaveRenderer.DrawCavesFrame | plugin/Explora/src/com/jvallejoromero/explora/util/mcaselector/ChunkRenderer_1_21.java:132-242 | `drawCaves` changes only the pixels its sampled columns map to, and no water buffer |
| CaveRenderer.SolidRunDrawsNothing | plugin/Explora/src/com/jvallejoromero/explora/util/mcaselector/ChunkRenderer_1_21.java:227-234 | until an open block has been met, solid blocks are only counted and nothing is drawn |
| CaveRenderer.OpenCellsPass | plugin/Explora/src/com/jvallejoromero/explora/util/mcaselector/ChunkRenderer_1_21.java:225-236 | once skipping is done, open and empty cells leave the scan as it is |
| CaveRenderer.CaveFloor | plugin/Explora/src/com/jvallejoromero/explora/util/mcaselector/ChunkRenderer_1_21.java:227-232 | after the opening, the next solid block is the cave floor: its colour and height are stored and the column is done |
| CaveRenderer.OpeningEndsSkip | plugin/Explora/src/com/jvallejoromero/explora/util/mcaselector/ChunkRenderer_1_21.java:235-236 | an open block ends the skipping only after at least one solid block |
| CaveRenderer.CaveBlockWidthMismatch | plugin/Explora/src/com/jvallejoromero/explora/util/mcaselector/ChunkRenderer_1_21.java:188 | `data.length >> 6` gives width 12 for an 11-bit buffer of a 1025-entry palette, so block 1 reads entry 0 where `getBlock` with the palette's width reads the entry 1 written there |
| CaveRenderer.CaveBiomeWidthMismatch | plugin/Explora/src/com/jvallejoromero/explora/util/mcaselector/ChunkRenderer_1_21.java:202 | `biomes.length >> 3` gives width 0 for a two-biome section, so every block of the first cell reads entry 0 where the palette's width reads the entry 1 written there |
| CaveRenderer.CorrectedCaveInfo | plugin/Explora/src/com/jvallejoromero/explora/util/mcaselector/ChunkRenderer_1_21.java:174-214 | the cache entry with the widths taken from the palette sizes, as `drawChunk` takes them |
| CaveRenderer.CaveBlockAsDrawn | plugin/Explora/src/com/jvallejoromero/explora/util/mcaselector/ChunkRenderer_1_21.java:207-208 | for widths 1..31 the cave mask and indices per long are `getBlock`'s own |
| CaveRenderer.CorrectedCaveBlock | plugin/Explora/src/com/jvallejoromero/explora/util/mcaselector/ChunkRenderer_1_21.java:224 | with the palette's width the cave scan reads every block a writer of the format stored |
| CaveRenderer.CaveBiomeAsDrawn | plugin/Explora/src/com/jvallejoromero/explora/util/mcaselector/ChunkRenderer_1_21.java:209-210 | for widths 1..31 the cave biome mask and indices per long are `getBiome`'s own |
| CaveRenderer.CorrectedCaveBiome | plugin/Explora/src/com/jvallejoromero/explora/util/mcaselector/ChunkRenderer_1_21.java:229 | with the palette's width the cave scan reads every biome a writer of the format stored |
| ImageZoom.BlockDiv | plugin/Explora/src/com/jvallejoromero/explora/util/mcaselector/ChunkRenderer_1_21.java:294 | a pixel inside block y maps back to row y |
| ImageZoom.SourceOfBlock | plugin/Explora/src/com/jvallejoromero/explora/util/mcaselector/ChunkRenderer_1_21.java:291-294 | pixel `(dx, dy)` of block `(x, y)` shows buffer pixel `y*width + x` |
| ImageZoom.FillBlock | plugin/Explora/src/com/jvallejoromero/explora/util/mcaselector/ChunkRenderer_1_21.java:292-296 | the `dy`/`dx` loops set exactly the f-by-f block to the colour and leave every other pixel unchanged |
| ImageZoom.ZoomRow | plugin/Explora/src/com/jvallejoromero/explora/util/mcaselector/ChunkRenderer_1_21.java:290-297 | the `x` loop fills one row of blocks with their buffer pixels and leaves the rows outside it unchanged |
| ImageZoom.ZoomBuffer | plugin/Explora/src/com/jvallejoromero/explora/util/mcaselector/ChunkRenderer_1_21.java:286-301 | `generateZoomedImage` returns a `(w*f)` by `(h*f)` image whose every pixel is its block's buffer pixel |
| ImageZoom.ZoomBlock | plugin/Explora/src/com/jvallejoromero/explora/util/mcaselector/ChunkRenderer_1_21.java:289-297 | in a zoomed image pixel `(x*f + dx, y*f + dy)` is buffer pixel `(x, y)` for every `dx, dy < f` |
| TileImage.FallbackStep | plugin/Explora/src/com/jvallejoromero/explora/util/mcaselector/HeadlessTileImage.java:115-117 | one fallback store writes exactly the overlay colour and height 64 at its index (water height only when that buffer exists), or throws when the index is outside a buffer; `waterPixels` is never written |
| TileImage.Fallback | plugin/Explora/src/com/jvallejoromero/explora/util/mcaselector/HeadlessTileImage.java:111-119 | the fallback's `cx`/`cz` loops leave the buffers and the thrown flag as the fallback specification gives them |
| TileImage.FallbackColumn | plugin/Explora/src/com/jvallejoromero/explora/util/mcaselector/HeadlessTileImage.java:112-118 | the inner `cz` loop for one column either throws or hands over to the rest of the fallback at `cx + scale` |
| TileImage.FallbackFrame | plugin/Explora/src/com/jvallejoromero/explora/util/mcaselector/HeadlessTileImage.java:111-119 | an index no remaining column maps to keeps its values in every buffer; `waterPixels` is never written |
| TileImage.FallbackPaints | plugin/Explora/src/com/jvallejoromero/explora/util/mcaselector/HeadlessTileImage.java:111-117 | when the fallback completes, a visited column whose index no later column reuses shows overlay pixel `cz*16 + cx` at terrain (and water) height 64 |
| TileImage.PipelineIndex | plugin/Explora/src/com/jvallejoromero/explora/util/mcaselector/HeadlessTileImage.java:47-56 | at a power-of-two scale, column `(cx, cz)` of chunk slot `(X, Z)` lands on row `Z*cs + cz/s`, column `X*cs + cx/s` of the `32*cs` wide tile, inside it |
| TileImage.PixelLayout | plugin/Explora/src/com/jvallejoromero/explora/util/mcaselector/ChunkRenderer_1_21.java:34-50 | `drawChunk`'s shift-based index puts the same column at the same row and column of the tile |
| TileImage.PixelMatchesFallback | plugin/Explora/src/com/jvallejoromero/explora/util/mcaselector/HeadlessTileImage.java:114 | the fallback and `drawChunk` agree on every column's index |
| TileImage.ChunkLayout | plugin/Explora/src/com/jvallejoromero/explora/util/mcaselector/HeadlessTileImage.java:111-114 | at a power-of-two scale the fallback's visited columns get pairwise distinct indices, all inside the tile |
| TileImage.LaterDiffer | plugin/Explora/src/com/jvallejoromero/explora/util/mcaselector/HeadlessTileImage.java:111-114 | no column visited after a given one reuses its index |
| TileImage.SamplesVisited | plugin/Explora/src/com/jvallejoromero/explora/util/mcaselector/HeadlessTileImage.java:111-112 | every multiple of `scale` below 16, in both coordinates, is visited by the loops |
| TileImage.IndicesInside | plugin/Explora/src/com/jvallejoromero/explora/util/mcaselector/HeadlessTileImage.java:111-114 | when every visited column's index is below `n`, so is every index the remaining loops store into |
| TileImage.FallbackInside | plugin/Explora/src/com/jvallejoromero/explora/util/mcaselector/HeadlessTileImage.java:115-117 | with every index below `n` and buffers of at least `n` entries the fallback never throws |
| TileImage.FallbackOfLayout | plugin/Explora/src/com/jvallejoromero/explora/util/mcaselector/HeadlessTileImage.java:111-119 | for any placement that keeps visited columns apart and inside the buffers, the fallback completes and every visited column shows its overlay pixel at height 64 |
| TileImage.FallbackOfChunk | plugin/Explora/src/com/jvallejoromero/explora/util/mcaselector/HeadlessTileImage.java:109-119 | on whole-tile buffers at a power-of-two scale, the fallback of slot `(X, Z)` never throws and paints, at the index `drawChunk` would have used, the overlay pixel at height 64 |
| TileImage.DrawChunkImage | plugin/Explora/src/com/jvallejoromero/explora/util/mcaselector/HeadlessTileImage.java:99-121 | `drawChunkImage` leaves the buffers and the escaped-exception flag as `ChunkImage` gives them: nothing without chunk data, caves / layer / surface by the configuration, the fallback when the renderer throws; in cave mode `drawCaves` decodes with the configuration's width rule, `LengthWidths` being the program as written |
| TileImage.NoDataNoImage | plugin/Explora/src/com/jvallejoromero/explora/util/mcaselector/HeadlessTileImage.java:100 | a chunk without data changes nothing and throws nothing |
| TileImage.ChunkImageFallback | plugin/Explora/src/com/jvallejoromero/explora/util/mcaselector/HeadlessTileImage.java:101-119 | when the renderer throws, nothing escapes and every visited column shows the overlay pixel at height 64 where `drawChunk` would have drawn it |
| TileImage.PixelInBlock | plugin/Explora/src/com/jvallejoromero/explora/util/mcaselector/ChunkRenderer_1_21.java:50 | `drawChunk` writes chunk slot `(X, Z)` only inside that slot's `cs` by `cs` block of the tile |
| TileImage.FallbackInBlock | plugin/Explora/src/com/jvallejoromero/explora/util/mcaselector/HeadlessTileImage.java:114 | the fallback writes chunk slot `(X, Z)` only inside its block |
| TileImage.BlocksDisjoint | plugin/Explora/src/com/jvallejoromero/explora/util/mcaselector/HeadlessTileImage.java:54 | an index lies in the block of at most one chunk slot |
| TileImage.RenderedFrame | plugin/Explora/src/com/jvallejoromero/explora/util/mcaselector/HeadlessTileImage.java:102-108 | the renderer call for slot `(X, Z)` leaves every index outside its block unchanged |
| TileImage.FallbackOutsideBlock | plugin/Explora/src/com/jvallejoromero/explora/util/mcaselector/HeadlessTileImage.java:111-119 | the fallback for slot `(X, Z)` leaves every index outside its block unchanged |
| TileImage.ChunkImageFrame | plugin/Explora/src/com/jvallejoromero/explora/util/mcaselector/HeadlessTileImage.java:99-121 | `drawChunkImage` for slot `(X, Z)`, by renderer or fallback, leaves every index outside its block unchanged |
| TileImage.SlotFrame | plugin/Explora/src/com/jvallejoromero/explora/util/mcaselector/HeadlessTileImage.java:49-54 | drawing one slot leaves every index of another, blank slot's block unchanged |
| TileImage.BlankSlotUntouched | plugin/Explora/src/com/jvallejoromero/explora/util/mcaselector/HeadlessTileImage.java:47-56 | after the chunk loops, every index of the block of a slot without chunk data keeps its value |
| TileImage.DrawTile | plugin/Explora/src/com/jvallejoromero/explora/util/mcaselector/HeadlessTileImage.java:47-56 | the chunk loops of `generateBufferedImage` leave the buffers and the escaped flag as `TileFrom` gives them: empty slots skipped, the first throwing chunk ends the loops |
| TileImage.DrawTileColumn | plugin/Explora/src/com/jvallejoromero/explora/util/mcaselector/HeadlessTileImage.java:48-55 | the inner `cz` loop over one chunk column either throws or hands over to the loops at `cx + 1` |
| TileImage.DrawSlot | plugin/Explora/src/com/jvallejoromero/explora/util/mcaselector/HeadlessTileImage.java:49-54 | one slot: skipped when the region has no chunk at index `cz*32 + cx`, else drawn at offset `(cx*chunkSize, cz*chunkSize)` |
| TileImage.FallbackShape | plugin/Explora/src/com/jvallejoromero/explora/util/mcaselector/HeadlessTileImage.java:111-119 | the fallback never resizes a buffer |
| TileImage.ChunkImageShape | plugin/Explora/src/com/jvallejoromero/explora/util/mcaselector/HeadlessTileImage.java:99-121 | `drawChunkImage` never resizes a buffer |
| TileImage.TileShape | plugin/Explora/src/com/jvallejoromero/explora/util/mcaselector/HeadlessTileImage.java:47-56 | the chunk loops never resize a buffer |
| TileShade.FlatAmountRange | plugin/Explora/src/com/jvallejoromero/explora/util/mcaselector/HeadlessTileImage.java:128-129 | the altitude argument of `flatShade` is a multiple of 4 in `[-200, 200]`, equals the height truncated toward zero to a multiple of 4 for heights in `[-203, 203]`, and is monotone in the height |
| TileShade.FlatShaded | plugin/Explora/src/com/jvallejoromero/explora/util/mcaselector/HeadlessTileImage.java:123-132 | each of the first `size*size` pixels is shaded by its own terrain height; later pixels are untouched |
| TileShade.FlatShade | plugin/Explora/src/com/jvallejoromero/explora/util/mcaselector/HeadlessTileImage.java:123-132 | `flatShade` in place leaves the pixel buffer equal to `FlatShaded` of the old buffer at `size = 512 / scale` |
| TileShade.FlatShadeRows | plugin/Explora/src/com/jvallejoromero/explora/util/mcaselector/HeadlessTileImage.java:126-131 | the `z` loop leaves the buffer equal to `FlatShaded` of the old one |
| TileShade.FlatShadeRow | plugin/Explora/src/com/jvallejoromero/explora/util/mcaselector/HeadlessTileImage.java:127-130 | one row shades exactly pixels `index` to `index + size - 1` and leaves every other pixel unchanged |
| TileShade.Shade | plugin/Explora/src/com/jvallejoromero/explora/util/mcaselector/HeadlessTileImage.java:134-162 | `shade` in place leaves the pixels and the thrown flag as `ShadeFrom` gives them: zero pixels skipped, water blended by depth where the heights differ, otherwise relief from the edge-aware slopes; the terrain heights stand in for the water heights when water is not shaded |
| TileShade.ShadeRows | plugin/Explora/src/com/jvallejoromero/explora/util/mcaselector/HeadlessTileImage.java:142-161 | the `z` loop stops at the first read that throws and otherwise matches `ShadeFrom` |
| TileShade.ShadeRow | plugin/Explora/src/com/jvallejoromero/explora/util/mcaselector/HeadlessTileImage.java:143-160 | one row either throws or hands over to the next row, leaving the later pixels unchanged |
| TileShade.ShadeAt | plugin/Explora/src/com/jvallejoromero/explora/util/mcaselector/HeadlessTileImage.java:144-158 | the body of the loops at one pixel computes `ShadePixel`, or throws exactly when it reads outside a buffer |
| TileShade.SlopeAt | plugin/Explora/src/com/jvallejoromero/explora/util/mcaselector/HeadlessTileImage.java:150-155 | one-sided differences at either edge, twice the central difference inside, or a throw on an out-of-range read |
| TileShade.ShadeInside | plugin/Explora/src/com/jvallejoromero/explora/util/mcaselector/HeadlessTileImage.java:142-161 | with at least two pixels per row and buffers of a whole tile (a water-pixel buffer when water is shaded), `shade` never reads outside a buffer |
| TileShade.ShadeIndices | plugin/Explora/src/com/jvallejoromero/explora/util/mcaselector/HeadlessTileImage.java:150-155 | the neighbours a pixel's slopes read lie inside the raster |
| TileShade.ShadeKeeps | plugin/Explora/src/com/jvallejoromero/explora/util/mcaselector/HeadlessTileImage.java:144 | `shade` leaves every zero pixel zero and every pixel past `size*size` unchanged |
| VersionRegistry.Put | plugin/Explora/src/com/jvallejoromero/explora/util/mcaselector/VersionHandler.java:39-43 | `TreeMap.put` keeps the keys strictly ordered; the new entries are exactly the new pair plus the old entries at other keys |
| VersionRegistry.FloorEntry | plugin/Explora/src/com/jvallejoromero/explora/util/mcaselector/VersionHandler.java:54 | `floorEntry` returns an entry of the map whose key is at most the version, and none exists only when no key qualifies; its key is the greatest such key |
| VersionRegistry.Registered | plugin/Explora/src/com/jvallejoromero/explora/util/mcaselector/VersionHandler.java:38-46 | `init` keeps every map ordered and adds both interfaces' maps to those already present |
| VersionRegistry.GetImpl | plugin/Explora/src/com/jvallejoromero/explora/util/mcaselector/VersionHandler.java:49-62 | a result has the requested interface and is registered at a version at most the one asked for, no lower than any other such entry; "no implementation" exactly when the interface has no map, "no version" exactly when every key is above the version; a result comes back exactly when the floor entry exists and implements the requested interface, and it is that entry's value |
| VersionRegistry.GetColorMapping | plugin/Explora/src/com/jvallejoromero/explora/util/mcaselector/VersionHandler.java:92-101 | returns `null` exactly where `getImpl` would throw, and otherwise the same implementation |
| VersionRegistry.GetChunkRenderer | plugin/Explora/src/com/jvallejoromero/explora/util/mcaselector/VersionHandler.java:104-113 | returns `null` exactly where `getImpl` would throw, and otherwise the same implementation |
| VersionRegistry.GetImplOfChunk | plugin/Explora/src/com/jvallejoromero/explora/util/mcaselector/VersionHandler.java:64-77 | throws for `null` chunk data, and only then, before any lookup |
| VersionRegistry.InitLookup | plugin/Explora/src/com/jvallejoromero/explora/util/mcaselector/VersionHandler.java:38-62 | after `init`, each interface resolves to its 1.21 implementation exactly from data version 4325 up; below that the lookup throws "no version" |
| VersionRegistry.InitIdempotent | plugin/Explora/src/com/jvallejoromero/explora/util/mcaselector/VersionHandler.java:38-46 | calling `init` twice leaves the registry as one call does |
| VersionRegistry.PutTwice | plugin/Explora/src/com/jvallejoromero/explora/util/mcaselector/VersionHandler.java:40 | putting the same entry twice is putting it once |
| VersionRegistry.RegisteredVersions | plugin/Explora/src/com/jvallejoromero/explora/util/mcaselector/VersionHandler.java:39-43 | `init` leaves in each interface's map the old map with the 4325 entry put |
| VersionRegistry.EmptyChunkUnsupported | plugin/Explora/src/com/jvallejoromero/explora/util/mcaselector/VersionHandler.java:68-76 | a chunk with no data in any of its three files is looked up at version 0, which nothing `init` registers serves |
| VersionRegistry.RegionDataDecides | plugin/Explora/src/com/jvallejoromero/explora/util/mcaselector/VersionHandler.java:69-70 | once registered, the region data's version alone decides support, whatever the entities or poi files say |
| VersionRegistry.VersionHandler.constructor | plugin/Explora/src/com/jvallejoromero/explora/util/mcaselector/VersionHandler.java:36 | the registry starts empty |
| VersionRegistry.VersionHandler.Init | plugin/Explora/src/com/jvallejoromero/explora/util/mcaselector/VersionHandler.java:38-46 | `init` replaces the registry by `Registered` of the old one and keeps it ordered |
| ExplorationStore.AddChunk | plugin/Explora/src/com/jvallejoromero/explora/manager/ChunkManager.java:229-230 | `computeIfAbsent(world).add(c)` adds `c` to that world's set, creating it when absent, and changes no other world |
| ExplorationStore.RecordExplores | plugin/Explora/src/com/jvallejoromero/explora/manager/ChunkManager.java:225-232 | after recording, the chunk is explored; the delta gains it exactly when it was new; other worlds are unchanged |
| ExplorationStore.RecordIdempotent | plugin/Explora/src/com/jvallejoromero/explora/manager/ChunkManager.java:228 | recording the same chunk twice is recording it once |
| ExplorationStore.RecordKeepsDeltaExplored | plugin/Explora/src/com/jvallejoromero/explora/manager/ChunkManager.java:229-230 | recording keeps every chunk of the delta among the explored chunks of its world |
| ExplorationStore.RegionsCoverDelta | plugin/Explora/src/com/jvallejoromero/explora/manager/ChunkManager.java:365-380 | every world of the delta is a key (even with no chunks), and a region is listed exactly when a delta chunk lies in its 32 by 32 square |
| ExplorationStore.FileNameInjective | plugin/Explora/src/com/jvallejoromero/explora/manager/ChunkManager.java:154 | different worlds are saved to different `explored_chunks_<world>.json` files |
| ExplorationStore.Unique | plugin/Explora/src/com/jvallejoromero/explora/manager/ChunkManager.java:182-183 | the appended chunks are exactly the new chunks not already in the file, no more of them than new chunks |
| ExplorationStore.UniqueNoDuplicates | plugin/Explora/src/com/jvallejoromero/explora/manager/ChunkManager.java:182-193 | the appended chunks are distinct when the new set is |
| ExplorationStore.AppendUnique | plugin/Explora/src/com/jvallejoromero/explora/manager/ChunkManager.java:169-193 | the merge keeps the file's entries and appends the missing new chunks in iteration order, counting them in `uniqueChunks` |
| ExplorationStore.MergeProperties | plugin/Explora/src/com/jvallejoromero/explora/manager/ChunkManager.java:166-198 | the merged list starts with the old entries, holds exactly the old and new chunks, lists each once when the file did, and appends as many as new chunks were missing |
| ExplorationStore.MergeTwice | plugin/Explora/src/com/jvallejoromero/explora/manager/ChunkManager.java:168-193 | merging the same new chunks a second time appends nothing |
| ExplorationStore.SavedFileTwice | plugin/Explora/src/com/jvallejoromero/explora/manager/ChunkManager.java:160-202 | rewriting a merged file with the same chunks leaves it unchanged |
| ExplorationStore.SavedFolder | plugin/Explora/src/com/jvallejoromero/explora/manager/ChunkManager.java:144-217 | the save neither creates nor deletes files |
| ExplorationStore.SaveAppendsDelta | plugin/Explora/src/com/jvallejoromero/explora/manager/ChunkManager.java:147-198 | when the save iterates a world's new set, its rewritten file starts with the old entries, holds exactly the old chunks and the new ones, lists each once when the file did, and grows by the number of new chunks it lacked |
| ExplorationStore.RewrittenFile | plugin/Explora/src/com/jvallejoromero/explora/manager/ChunkManager.java:154-202 | a world with new chunks and a readable file gets that file rewritten with its world, dimension (default "unknown") and merged chunk list |
| ExplorationStore.RewritesKept | plugin/Explora/src/com/jvallejoromero/explora/manager/ChunkManager.java:151-160 | after the save, exactly the same worlds have a readable file to rewrite |
| ExplorationStore.SaveTwice | plugin/Explora/src/com/jvallejoromero/explora/manager/ChunkManager.java:144-217 | saving the same delta twice leaves the folder as one save does |
| ExplorationStore.BatchCount | plugin/Explora/src/com/jvallejoromero/explora/manager/ChunkManager.java:258 | for a positive batch size the count is the ceiling of size over batch size, at least 1 |
| ExplorationStore.TotalOfRemove | plugin/Explora/src/com/jvallejoromero/explora/manager/ChunkManager.java:245-264 | the batch total does not depend on the order the worlds are visited in |
| ExplorationStore.TotalZero | plugin/Explora/src/com/jvallejoromero/explora/manager/ChunkManager.java:245-266 | with a positive batch size the total is non-negative, and zero exactly when no loaded world has chunks |
| ExplorationStore.NothingToSend | plugin/Explora/src/com/jvallejoromero/explora/manager/ChunkManager.java:262-266 | with a positive batch size and no overflow, a send counts zero batches exactly when nothing is streamed |
| ExplorationStore.CountBatches | plugin/Explora/src/com/jvallejoromero/explora/manager/ChunkManager.java:242-264 | the counting loop yields the 32-bit wrapped total and the sets of the loaded, non-empty worlds |
| ExplorationStore.CountWorld | plugin/Explora/src/com/jvallejoromero/explora/manager/ChunkManager.java:245-264 | one world adds its batches to the wrapped total and its set to the streamed ones when it has any |
| ExplorationStore.CountStep | plugin/Explora/src/com/jvallejoromero/explora/manager/ChunkManager.java:262-263 | counting one more world adds its contribution to the wrapped total, and its set when it contributes |
| ExplorationStore.LastFileOf | plugin/Explora/src/com/jvallejoromero/explora/manager/ChunkManager.java:108-134 | the index found is the last readable file whose world is `w`; no later file belongs to `w` |
| ExplorationStore.LastFileWins | plugin/Explora/src/com/jvallejoromero/explora/manager/ChunkManager.java:108-134 | after loading, a world holds exactly the chunks of its last readable file; a world without a file keeps its set |
| ExplorationStore.SetOf | plugin/Explora/src/com/jvallejoromero/explora/manager/ChunkManager.java:117-125 | the loaded set is exactly the chunks the file lists |
| ExplorationStore.SaveWorld | plugin/Explora/src/com/jvallejoromero/explora/manager/ChunkManager.java:154-211 | a missing or unreadable file is left alone; a readable one is replaced by the merged file |
| ExplorationStore.SaveWorlds | plugin/Explora/src/com/jvallejoromero/explora/manager/ChunkManager.java:147-212 | iterating each world's new set, the save loop leaves the folder as `SavedFolder`, every rewritten file keeps its old entries in order and gains exactly the new chunks it lacked, each once, and the worlds with new chunks are counted |
| ExplorationStore.ChunkManager.constructor | plugin/Explora/src/com/jvallejoromero/explora/manager/ChunkManager.java:46-55 | both chunk maps start empty, the pending count at 0 and the sent flag down |
| ExplorationStore.ChunkManager.IsChunkExplored | plugin/Explora/src/com/jvallejoromero/explora/manager/ChunkManager.java:220-223 | true exactly when the world has a set holding the chunk |
| ExplorationStore.ChunkManager.RecordChunkIfNew | plugin/Explora/src/com/jvallejoromero/explora/manager/ChunkManager.java:225-232 | the chunk maps become `Record` of the old ones; the count and flag are unchanged |
| ExplorationStore.ChunkManager.GetRegionsToRerender | plugin/Explora/src/com/jvallejoromero/explora/manager/ChunkManager.java:365-380 | returns the regions of the delta, world by world |
| ExplorationStore.ChunkManager.TakeRegionsToRerender | plugin/Explora/src/com/jvallejoromero/explora/manager/ChunkManager.java:79-82 | the upload's completion takes the delta's regions and then clears the delta, keeping the explored chunks |
| ExplorationStore.ChunkManager.LoadChunksFromAllJSONFiles | plugin/Explora/src/com/jvallejoromero/explora/manager/ChunkManager.java:98-139 | an unlistable folder changes nothing; otherwise each readable file replaces its world's set, in listing order |
| ExplorationStore.ChunkManager.SaveNewlyExploredChunksToDisk | plugin/Explora/src/com/jvallejoromero/explora/manager/ChunkManager.java:144-217 | leaves the folder as `SavedFolder` of the delta, with every rewritten file keeping its old entries in order and gaining exactly the delta's chunks it lacked, each once; counts the worlds with new chunks |
| ExplorationStore.ChunkManager.SendChunksToDatabase | plugin/Explora/src/com/jvallejoromero/explora/manager/ChunkManager.java:238-297 | the flag drops; with a zero total it is raised at once and completion is due; else the pending count is the wrapped total and the loaded non-empty sets are streamed |
| ExplorationStore.ChunkManager.SendNewChunksToDatabase | plugin/Explora/src/com/jvallejoromero/explora/manager/ChunkManager.java:303-359 | as the full send over the delta, except that with a zero total the completion callback is never run |
| ExplorationStore.ChunkManager.OnBatchSent | plugin/Explora/src/com/jvallejoromero/explora/manager/ChunkManager.java:287-295 | each batch decrements the count (wrapping as an `int`); at or below zero the flag is raised and completion is due |
| ExplorationStore.ChunkManager.PeriodicTick | plugin/Explora/src/com/jvallejoromero/explora/manager/ChunkManager.java:75-90 | while the flag is down nothing happens; while it is up the delta is saved as `SavedFolder`, with `orders` listing each world's new set, and then sent, and the flag stays up only when there are no batches, otherwise the pending count becomes the batch total so later ticks do nothing until the last batch is acknowledged |
| ChunkEvents.MoveExplores | plugin/Explora/src/com/jvallejoromero/explora/listener/ChunkTracker.java:29-51 | a move inside one chunk changes nothing; a move into another chunk leaves it explored, adds it to the delta exactly when it was new, and touches no other world |
| ChunkEvents.MoveIdempotent | plugin/Explora/src/com/jvallejoromero/explora/listener/ChunkTracker.java:46-50 | repeating a move changes nothing more |
| ChunkEvents.NearTopIff | plugin/Explora/src/com/jvallejoromero/explora/listener/ChunkTracker.java:108-115 | where the heights' difference fits in 32 bits, a block is near the top exactly when it lies at most one below the column's highest block |
| ChunkEvents.PlaceEffect | plugin/Explora/src/com/jvallejoromero/explora/listener/ChunkTracker.java:54-76 | a near-top placement either promotes its chunk into the delta of its world and empties the chunk's set (set at the threshold), or adds the block to the set with the delta unchanged |
| ChunkEvents.PlaceBounded | plugin/Explora/src/com/jvallejoromero/explora/listener/ChunkTracker.java:66-75 | placement keeps every chunk's set within the threshold and within its own chunk |
| ChunkEvents.PlaceOthers | plugin/Explora/src/com/jvallejoromero/explora/listener/ChunkTracker.java:66-75 | placement leaves every other chunk's set unchanged |
| ChunkEvents.BreakBounded | plugin/Explora/src/com/jvallejoromero/explora/listener/ChunkTracker.java:91-105 | breaking keeps every chunk's set within the threshold and within its own chunk |
| ChunkEvents.BreakEffect | plugin/Explora/src/com/jvallejoromero/explora/listener/ChunkTracker.java:79-106 | below the threshold breaking toggles the block's membership and leaves the delta alone; at the threshold it promotes the chunk; other chunks keep their sets; a block not near the top changes no state |
| ChunkEvents.BoundedUpdate | plugin/Explora/src/com/jvallejoromero/explora/listener/ChunkTracker.java:66-91 | replacing one chunk's set by a bounded set of its own blocks keeps the map bounded |
| ChunkEvents.BreakTwice | plugin/Explora/src/com/jvallejoromero/explora/listener/ChunkTracker.java:100-105 | breaking the same block twice below the threshold restores the change map |
| ChunkEvents.PlacesCounted | plugin/Explora/src/com/jvallejoromero/explora/listener/ChunkTracker.java:66-75 | from an empty set, up to threshold distinct near-top placements in one chunk are all counted and promote nothing |
| ChunkEvents.PlaceCounted | plugin/Explora/src/com/jvallejoromero/explora/listener/ChunkTracker.java:67-75 | a near-top placement in a chunk below the threshold joins its set and leaves the delta alone |
| ChunkEvents.ThresholdPromotes | plugin/Explora/src/com/jvallejoromero/explora/listener/ChunkTracker.java:67-72 | with a positive threshold, the placement after threshold distinct counted ones promotes the chunk into its world's delta, uncounted, and empties the set |
| ChunkEvents.WorldsShareCounts | plugin/Explora/src/com/jvallejoromero/explora/listener/ChunkTracker.java:26-70 | the change map is not keyed by world: changes counted in one world promote the chunk at the same coordinates in another |
| ChunkEvents.ChunkTracker.constructor | plugin/Explora/src/com/jvallejoromero/explora/listener/ChunkTracker.java:26 | the change map starts empty |
| ChunkEvents.ChunkTracker.OnChunkExplore | plugin/Explora/src/com/jvallejoromero/explora/listener/ChunkTracker.java:29-51 | the chunk manager's maps become `Moved` of the old ones; its count and flag are unchanged |
| ChunkEvents.ChunkTracker.OnBlockPlace | plugin/Explora/src/com/jvallejoromero/explora/listener/ChunkTracker.java:54-76 | the change map and delta become `Place` of the old ones; explored chunks, count and flag are unchanged |
| ChunkEvents.ChunkTracker.OnBlockBreak | plugin/Explora/src/com/jvallejoromero/explora/listener/ChunkTracker.java:79-106 | the change map and delta become `Break` of the old ones; explored chunks, count and flag are unchanged |
| RegionScan.SumSizesAppend | plugin/Explora/src/com/jvallejoromero/explora/util/ChunkUtils.java:85-100 | the tree size of two lists of directories adds up; it is the measure that ends the search |
| RegionScan.Others | plugin/Explora/src/com/jvallejoromero/explora/util/ChunkUtils.java:97-99 | the directories enqueued are no larger in total than those listed |
| RegionScan.FilterAppend | plugin/Explora/src/com/jvallejoromero/explora/util/ChunkUtils.java:93-100 | splitting a listing into `region` and other directories distributes over concatenation |
| RegionScan.FilterStep | plugin/Explora/src/com/jvallejoromero/explora/util/ChunkUtils.java:94-99 | each subdirectory goes to exactly one of the recorded and the enqueued lists |
| RegionScan.FoundAreRegions | plugin/Explora/src/com/jvallejoromero/explora/util/ChunkUtils.java:94-96 | everything the search records is named exactly `region` |
| RegionScan.PutAllShape | plugin/Explora/src/com/jvallejoromero/explora/util/ChunkUtils.java:95-96 | the map holds at most the world folder's name, mapped to the last `region` directory found |
| RegionScan.PutAllSnoc | plugin/Explora/src/com/jvallejoromero/explora/util/ChunkUtils.java:96 | each later `region` directory overwrites the earlier entry |
| RegionScan.RegionFolders | plugin/Explora/src/com/jvallejoromero/explora/util/ChunkUtils.java:82-104 | at most one entry, keyed by the world folder's own name, holding a `region` directory; empty exactly when the search finds none |
| RegionScan.RootNotMatched | plugin/Explora/src/com/jvallejoromero/explora/util/ChunkUtils.java:89-94 | the world folder itself is never matched, and an unlistable folder yields nothing |
| RegionScan.RegionChildren | plugin/Explora/src/com/jvallejoromero/explora/util/ChunkUtils.java:94-96 | a `region` directory is recorded and not descended into; of two `region` children the later one stays |
| RegionScan.DeeperFoundLater | plugin/Explora/src/com/jvallejoromero/explora/util/ChunkUtils.java:85-100 | the search is breadth-first: a deeper `region` directory is found later and therefore wins |
| RegionScan.GetAllRegionFolders | plugin/Explora/src/com/jvallejoromero/explora/util/ChunkUtils.java:82-104 | the queue-driven search returns `RegionFolders` of the world folder |
| RegionScan.ScanSubdirs | plugin/Explora/src/com/jvallejoromero/explora/util/ChunkUtils.java:93-100 | the inner loop enqueues exactly the non-`region` subdirectories, in order, and records the `region` ones |
| RegionScan.CommonPrefix | plugin/Explora/src/com/jvallejoromero/explora/util/ChunkUtils.java:118 | the common prefix of two paths is shared by both and maximal |
| RegionScan.DimensionOfKey | plugin/Explora/src/com/jvallejoromero/explora/util/ChunkUtils.java:122-130 | the key names the overworld exactly when it is empty, `.` or `overworld` itself |
| RegionScan.RelativeDimensionName | plugin/Explora/src/com/jvallejoromero/explora/util/ChunkUtils.java:114-134 | canonicalisation failure falls back to the region folder's name; a region folder at the file-system root throws (no parent), and nothing else does |
| RegionScan.RelativizeNested | plugin/Explora/src/com/jvallejoromero/explora/util/ChunkUtils.java:118 | relativizing a path inside the world folder yields the path below it |
| RegionScan.DimensionOfNested | plugin/Explora/src/com/jvallejoromero/explora/util/ChunkUtils.java:116-130 | for a region folder inside the world folder, the name is the dimension of the path between them |
| RegionScan.OverworldName | plugin/Explora/src/com/jvallejoromero/explora/util/ChunkUtils.java:122-123 | `world/region` is the overworld |
| RegionScan.NetherName | plugin/Explora/src/com/jvallejoromero/explora/util/ChunkUtils.java:124-125 | `world/DIM-1/region`, in any case, is the nether |
| RegionScan.EndName | plugin/Explora/src/com/jvallejoromero/explora/util/ChunkUtils.java:126-127 | `world/DIM1/region` is the end |
| RegionScan.DeeperName | plugin/Explora/src/com/jvallejoromero/explora/util/ChunkUtils.java:120-130 | a deeper region folder keeps its '/'-joined relative path |
| RegionScan.SlotChunksMembers | plugin/Explora/src/com/jvallejoromero/explora/util/ChunkUtils.java:154-161 | a chunk is read from a loaded file exactly when one of its 1024 slots holds it, non-empty |
| RegionScan.ExploredInMembers | plugin/Explora/src/com/jvallejoromero/explora/util/ChunkUtils.java:143-170 | a chunk is read from the folder exactly when some file that loaded holds it, non-empty, in one of its slots |
| RegionScan.FailedFileSkipped | plugin/Explora/src/com/jvallejoromero/explora/util/ChunkUtils.java:164-166 | a file that fails to load changes nothing |
| RegionScan.GetExploredChunksFromRegionFolder | plugin/Explora/src/com/jvallejoromero/explora/util/ChunkUtils.java:143-170 | an unlistable folder yields the empty set; otherwise the set is `ExploredIn` of the loaded files |
| RegionScan.SaveAsJson | plugin/Explora/src/com/jvallejoromero/explora/util/ChunkUtils.java:179-209 | the file is written with the world, the dimension and every chunk of the set exactly once; when the folder cannot be written nothing changes |
| RegionScan.SavedJsonLoads | plugin/Explora/src/com/jvallejoromero/explora/util/ChunkUtils.java:196-199 | what `saveAsJson` writes loads back in `ChunkManager` as exactly the saved set |
| RegionRendering.MatchRegion | plugin/Explora/src/com/jvallejoromero/explora/util/TileImageGenerator.java:42 | a match returns two optionally signed digit strings from which the name is exactly `r.<a>.<b>.mca` |
| RegionRendering.MatchRegionComplete | plugin/Explora/src/com/jvallejoromero/explora/util/TileImageGenerator.java:42 | every name of the pattern's form is matched, with its own groups |
| RegionRendering.ParseRegionFileName | plugin/Explora/src/com/jvallejoromero/explora/util/TileImageGenerator.java:227-233 | the file name `r.<x>.<z>.mca` of a region parses back to that region |
| RegionRendering.ParsedNameShape | plugin/Explora/src/com/jvallejoromero/explora/util/TileImageGenerator.java:227-231 | a name parses to a region exactly when it has the pattern's form and both numbers fit in an `int` |
| RegionRendering.StemRebuilt | plugin/Explora/src/com/jvallejoromero/explora/util/TileImageGenerator.java:230-233 | the output stem is rebuilt from the parsed numbers, so `r.007.-0.mca` is region (7, 0) with outputs `r.7.0.*` |
| RegionRendering.RegionNumberTooLarge | plugin/Explora/src/com/jvallejoromero/explora/util/TileImageGenerator.java:230-231 | a region number beyond `int` range makes `Integer.parseInt` throw |
| RegionRendering.OutOfRangeName | plugin/Explora/src/com/jvallejoromero/explora/util/TileImageGenerator.java:231 | any name whose second number exceeds `int` range makes the parse throw |
| RegionRendering.SidecarOfTile | plugin/Explora/src/com/jvallejoromero/explora/util/TileImageGenerator.java:134 | the sidecar of tile `r.<x>.<z>.png` is `r.<x>.<z>.json` |
| RegionRendering.SidecarReplacesAll | plugin/Explora/src/com/jvallejoromero/explora/util/TileImageGenerator.java:134 | `replace` rewrites every ".png", not only the extension |
| RegionRendering.McaNames | plugin/Explora/src/com/jvallejoromero/explora/util/TileImageGenerator.java:221 | only names ending in ".mca" are listed |
| RegionRendering.McaOnly | plugin/Explora/src/com/jvallejoromero/explora/util/TileImageGenerator.java:221 | the filter keeps listed names ending in ".mca", and only those |
| RegionRendering.NamedInIff | plugin/Explora/src/com/jvallejoromero/explora/util/TileImageGenerator.java:227-231 | a listing names region `c` exactly when one of its names parses to `c` |
| RegionRendering.MissingStepMembers | plugin/Explora/src/com/jvallejoromero/explora/util/TileImageGenerator.java:226-242 | one file adds region `c` under key `k` exactly when it names `c`, its key lower-cases to `k`, and the `.png` or `.json` is absent; no key is left empty |
| RegionRendering.MissingOfNamesMembers | plugin/Explora/src/com/jvallejoromero/explora/util/TileImageGenerator.java:226-243 | within one folder a region is in the result exactly when it was before or some name reports it |
| RegionRendering.MissingRegionsReported | plugin/Explora/src/com/jvallejoromero/explora/util/TileImageGenerator.java:205-247 | a region is reported under key `k` exactly when some region folder whose world folder's name lower-cases to `k` lists its `.mca` and its outputs are incomplete; only keys with regions appear |
| RegionRendering.GetMissingRenderRegions | plugin/Explora/src/com/jvallejoromero/explora/util/TileImageGenerator.java:205-247 | the nested loops compute `MissingRenderRegions`: empty for an unlistable server folder, the first out-of-range name throws |
| RegionRendering.ScanWorldFolder | plugin/Explora/src/com/jvallejoromero/explora/util/TileImageGenerator.java:213-245 | one world folder scans its region folder, if any, into the map so far |
| RegionRendering.ScanRegionDir | plugin/Explora/src/com/jvallejoromero/explora/util/TileImageGenerator.java:219-243 | one region folder scans its `.mca` names in order |
| RegionRendering.ScanName | plugin/Explora/src/com/jvallejoromero/explora/util/TileImageGenerator.java:227-242 | one name is one `MissingStep` |
| RegionRendering.MissingThrowPersists | plugin/Explora/src/com/jvallejoromero/explora/util/TileImageGenerator.java:230-231 | once the scan has thrown, later folders change nothing |
| RegionRendering.PngOnlySkipped | plugin/Explora/src/com/jvallejoromero/explora/util/TileImageGenerator.java:237-292 | a region whose `.png` exists but whose `.json` does not is skipped by the full render yet reported missing |
| RegionRendering.PlanStepCovered | plugin/Explora/src/com/jvallejoromero/explora/util/TileImageGenerator.java:280-294 | one file: the full render throws exactly where the missing scan throws, and a region it submits is one the scan adds |
| RegionRendering.SubmittedAreMissing | plugin/Explora/src/com/jvallejoromero/explora/util/TileImageGenerator.java:249-294 | the full render returns early exactly for an unlistable server folder; it throws on the same listings as `getMissingRenderRegions`; every region it submits is reported missing under the same lower-cased key |
| RegionRendering.PlanAccountsForRegions | plugin/Explora/src/com/jvallejoromero/explora/util/TileImageGenerator.java:280-294 | every listed region is either submitted or skipped, once |
| RegionRendering.PlanFullRender | plugin/Explora/src/com/jvallejoromero/explora/util/TileImageGenerator.java:261-294 | the loops of `generateTilesAsyncOptimized` up to the pool compute `FullRenderPlan` |
| RegionRendering.PlanFolders | plugin/Explora/src/com/jvallejoromero/explora/util/TileImageGenerator.java:265-294 | every world folder's region folder is planned in order |
| RegionRendering.PlanWorldFolder | plugin/Explora/src/com/jvallejoromero/explora/util/TileImageGenerator.java:265-294 | one world folder plans its region folder, if any |
| RegionRendering.PlanRegionDir | plugin/Explora/src/com/jvallejoromero/explora/util/TileImageGenerator.java:274-294 | one region folder plans its `.mca` names in order |
| RegionRendering.PlanName | plugin/Explora/src/com/jvallejoromero/explora/util/TileImageGenerator.java:281-294 | one name is one `PlanStep` |
| RegionRendering.PlanThrowPersists | plugin/Explora/src/com/jvallejoromero/explora/util/TileImageGenerator.java:284-285 | once the plan has thrown, later folders change nothing |
| RegionRendering.FoundRegionNether | plugin/Explora/src/com/jvallejoromero/explora/util/TileImageGenerator.java:261-277 | every folder the region search hands to the render is named `region`, so the `DIM-1` name test never fires there, and the folder renders as the Nether exactly when its absolute path mentions "nether" in any case |
| RegionRendering.NoNetherWithoutN | plugin/Explora/src/com/jvallejoromero/explora/util/TileImageGenerator.java:277 | a path with no `n` or `N` before its last five characters does not mention "nether" after lower-casing |
| RegionRendering.NetherAt | plugin/Explora/src/com/jvallejoromero/explora/util/TileImageGenerator.java:277 | a path spelling "nether" anywhere mentions it after lower-casing |
| RegionRendering.VanillaNetherMissed | plugin/Explora/src/com/jvallejoromero/explora/util/TileImageGenerator.java:277 | as written, the vanilla Nether folder `world/DIM-1/region` is not classed as the Nether |
| RegionRendering.CorrectedNether | plugin/Explora/src/com/jvallejoromero/explora/util/TileImageGenerator.java:277 | the intended test on the parent folder's name recognises any folder inside `DIM-1`, agrees with the code as written on every other folder, and classes `world/DIM-1/region` as the Nether |
| RegionRendering.WorkerCount | plugin/Explora/src/com/jvallejoromero/explora/util/TileImageGenerator.java:156-157 | the pool has at least two workers and half the cores rounded up otherwise |
| RegionRendering.InfosDescribeSlots | plugin/Explora/src/com/jvallejoromero/explora/util/TileImageGenerator.java:94-130 | the `chunks` array has one entry per slot holding a chunk with data and sections, in slot order, each with that chunk's biomes |
| RegionRendering.ChunkBiomes | plugin/Explora/src/com/jvallejoromero/explora/util/TileImageGenerator.java:104-118 | a chunk's biomes are the string values of its sections' biome palettes; other tags and missing palettes are ignored |
| RegionRendering.CollectChunkInfo | plugin/Explora/src/com/jvallejoromero/explora/util/TileImageGenerator.java:94-130 | the metadata loop over the 1024 slots yields `InfosUpTo(slots, 1024)` |
| RegionRendering.FormatDuration | plugin/Explora/src/com/jvallejoromero/explora/util/TileImageGenerator.java:405-409 | the text is "<m>m <s>s" with `60m + s` the duration, `0 <= s < 60` for a non-negative duration and `-60 < s <= 0` for a non-positive one |
| RegionRendering.DurationTextInjective | plugin/Explora/src/com/jvallejoromero/explora/util/TileImageGenerator.java:408 | the text gives back both numbers |
| RegionRendering.FormatDurationInjective | plugin/Explora/src/com/jvallejoromero/explora/util/TileImageGenerator.java:405-409 | different whole-second durations give different texts |
| RegionRendering.FormatDurationExample | plugin/Explora/src/com/jvallejoromero/explora/util/TileImageGenerator.java:405-409 | 125 seconds reads "2m 5s" |
| BackendHttp.ConcatAppend | plugin/Explora/src/com/jvallejoromero/explora/util/HttpUtil.java:264-268 | joining batches distributes over concatenation |
| BackendHttp.BatchesCover | plugin/Explora/src/com/jvallejoromero/explora/util/HttpUtil.java:248-272 | the batches cover the chunk list exactly once, in order |
| BackendHttp.BatchesSized | plugin/Explora/src/com/jvallejoromero/explora/util/HttpUtil.java:264-265 | every batch holds between one and `batchSize` chunks, and there are `ceil(n / batchSize)` of them |
| BackendHttp.BatchesSnoc | plugin/Explora/src/com/jvallejoromero/explora/util/HttpUtil.java:264-268 | a further batch after whole batches is appended as one more batch |
| BackendHttp.ChunkBatchStream.constructor | plugin/Explora/src/com/jvallejoromero/explora/util/HttpUtil.java:249-254 | the stream starts at index 0 with no batch sent, over its own copy of the list |
| BackendHttp.ChunkBatchStream.Run | plugin/Explora/src/com/jvallejoromero/explora/util/HttpUtil.java:257-270 | a tick cancels once the index reaches the total; otherwise it sends `[index, min(index + batchSize, total))` and advances to its end, or throws, changing nothing, when the wrapped end falls below the index; with a positive batch size and no overflow it always advances |
| BackendHttp.Advance | plugin/Explora/src/com/jvallejoromero/explora/util/HttpUtil.java:264-269 | sending the next batch keeps the stream's invariant |
| BackendHttp.AdvanceKeepsCover | plugin/Explora/src/com/jvallejoromero/explora/util/HttpUtil.java:265-268 | after a send the batches sent join to the list's prefix up to the new index |
| BackendHttp.AdvanceKeepsBatches | plugin/Explora/src/com/jvallejoromero/explora/util/HttpUtil.java:264-268 | after a send the batches sent are that prefix cut into `batchSize` pieces |
| BackendHttp.StreamFinished | plugin/Explora/src/com/jvallejoromero/explora/util/HttpUtil.java:258-261 | once the stream has reached the end, the batches sent cover the list once, in order, each of at most `batchSize` chunks, and `batchCount` is `ceil(total / batchSize)` |
| BackendHttp.BuildUrlPort | plugin/Explora/src/com/jvallejoromero/explora/util/HttpUtil.java:329-331 | a template with one "%port%" gets the port's decimal text in its place; one without is unchanged |
| BackendHttp.WithDeleteFlag | plugin/Explora/src/com/jvallejoromero/explora/util/HttpUtil.java:110-111 | the upload URL starts with the configured URL and has a query |
| BackendHttp.DeleteFlagStartsQuery | plugin/Explora/src/com/jvallejoromero/explora/util/HttpUtil.java:110-111 | without a query in the URL, the text after '?' is `deleteExisting=<flag>` alone |
| BackendHttp.DeleteFlagJoinsQuery | plugin/Explora/src/com/jvallejoromero/explora/util/HttpUtil.java:110-111 | with a query, the URL's query is kept and the flag is its last parameter, after '&' |
| BackendHttp.PostJsonCompletions | plugin/Explora/src/com/jvallejoromero/explora/util/HttpUtil.java:62-102 | `postJson` schedules `onComplete` exactly once when it is given, whatever the response or exception |
| BackendHttp.DeleteSuccesses | plugin/Explora/src/com/jvallejoromero/explora/util/HttpUtil.java:33-60 | `deleteRequest` schedules `onSuccess` at most once, and exactly when it is given and the response is 200 |
| BackendHttp.ZipUploadSuccesses | plugin/Explora/src/com/jvallejoromero/explora/util/HttpUtil.java:104-153 | `postZipBytes` schedules `onSuccess` at most once, and exactly when it is given and the response is `HTTP_OK` |
| MinecraftUtils.BlockPixelRoundTrip | frontend/src/utils/MinecraftUtils.ts:3-17 | with the default 1024-pixel tile, a block's pixel position converts back to the same block, z axis flipped both ways |
| MinecraftUtils.PixelSnap | frontend/src/utils/MinecraftUtils.ts:3-17 | pixels to blocks and back snaps each coordinate down to the even pixel at or just below it |
| MinecraftUtils.FractionalPixelFloors | frontend/src/utils/MinecraftUtils.ts:3-10 | a fractional pixel, such as a mouse position, gives the block its whole part gives: one floor division by 2 loses nothing |
| MinecraftUtils.FractionalBlockPixel | frontend/src/utils/MinecraftUtils.ts:12-17 | a fractional block, such as typed 10.5, is drawn at pixel 21, which no whole block reaches, since every whole block lands on an even pixel |
| MinecraftUtils.OtherTileSizeDisagrees | frontend/src/utils/MinecraftUtils.ts:4-13 | the pixel-to-block conversion hard-codes two pixels per block, so at 2048 pixels per tile block 1 is drawn at pixel 4, which reads back as block 2 |
| MinecraftUtils.ClockInRange | frontend/src/utils/MinecraftUtils.ts:21-23 | from tick -6000 on, the minutes since midnight lie in `[0, 1440)`, hours in 0..23 and minutes in 0..59, recombining to the total |
| MinecraftUtils.ClockDaily | frontend/src/utils/MinecraftUtils.ts:21 | the clock repeats every 24000 ticks |
| MinecraftUtils.Pad2 | frontend/src/utils/MinecraftUtils.ts:25 | `padStart(2, "0")` yields at least two characters and leaves longer text alone |
| MinecraftUtils.Pad2Value | frontend/src/utils/MinecraftUtils.ts:25 | a number from 0 to 99 pads to two digits that read back as the number |
| MinecraftUtils.FormatTime24Fields | frontend/src/utils/MinecraftUtils.ts:19-26 | the 24-hour clock is five characters "HH:MM" whose fields read back as the hour and minute |
| MinecraftUtils.SunriseAtSix | frontend/src/utils/MinecraftUtils.ts:20-25 | tick 0 shows "06:00" |
| MinecraftUtils.MidnightAtEighteenThousand | frontend/src/utils/MinecraftUtils.ts:21-25 | tick 18000 shows "00:00" |
| MinecraftUtils.ClockAtNoon | frontend/src/utils/MinecraftUtils.ts:21-23 | tick 6000 is 12:00 |
| MinecraftUtils.FormatTime12Fields | frontend/src/utils/MinecraftUtils.ts:28-38 | the 12-hour clock shows an hour from 1 to 12 congruent to the 24-hour hour modulo 12, the same padded minutes, and "PM" exactly from hour 12 on |
| MinecraftUtils.NoonIsTwelvePm | frontend/src/utils/MinecraftUtils.ts:32-37 | noon shows "12:00 PM" |
| MinecraftUtils.MidnightIsTwelveAm | frontend/src/utils/MinecraftUtils.ts:32-37 | midnight shows "12:00 AM" |
| MinecraftUtils.TwelveOClock | frontend/src/utils/MinecraftUtils.ts:34-37 | on the hour at midnight or noon the 12-hour clock reads "12:00" with the matching suffix |
| MinecraftUtils.DayNightRanges | frontend/src/utils/MinecraftUtils.ts:41-46 | sunrise exactly below 1000 or from 23000; day exactly strictly between 1000 and 12000; sunset exactly in `[12000, 14000)`; night otherwise, including the single tick 1000 |
| ServerStatusStore.StalenessEffect | backend/stores/server-status-store.js:17-24 | staleness is reported exactly for an online status more than 5000 ms old; it only clears `isOnline` and leaves the status offline |
| ServerStatusStore.StaleReportedOnce | backend/stores/server-status-store.js:19-22 | after staleness is reported, every later check reports nothing, whatever the time, until an update |
| ServerStatusStore.Status.constructor | backend/stores/server-status-store.js:3-9 | a status object holds the given fields |
| ServerStatusStore.Store.constructor | backend/stores/server-status-store.js:1-9 | loading the module sets the time to now and the status to offline, no players, no time, empty message |
| ServerStatusStore.Store.GetStatus | backend/stores/server-status-store.js:12 | returns the stored object itself |
| ServerStatusStore.Store.UpdateStatus | backend/stores/server-status-store.js:13-16 | the posted object becomes the status, by reference, and the clock restarts |
| ServerStatusStore.Store.CheckStaleness | backend/stores/server-status-store.js:17-24 | marks the stored object offline in place, and reports it, exactly as `Staleness` says |
| ServerStatusStore.StaleThenUpdated | backend/stores/server-status-store.js:13-24 | a check right after reported staleness reports nothing, and a freshly posted status is not stale within five seconds |
| TileGenerate.Allocated | plugin/Explora/src/com/jvallejoromero/explora/util/mcaselector/HeadlessTileImage.java:42-45 | fresh buffers have the tile's pixel count, all zero, with water buffers exactly when shading water outside cave mode |
| TileGenerate.Drawn | plugin/Explora/src/com/jvallejoromero/explora/util/mcaselector/HeadlessTileImage.java:47-56 | the chunk loops never resize the freshly allocated buffers |
| TileGenerate.TileImageOf | plugin/Explora/src/com/jvallejoromero/explora/util/mcaselector/HeadlessTileImage.java:41-74 | the `try` of `generateBufferedImage` for a positive scale: a returned image is the `Tile.SIZE / scale` square (1 to 512 pixels a side) with one pixel per cell; every exception inside the `try` yields `null` |
| TileGenerate.BufferedImageOf | plugin/Explora/src/com/jvallejoromero/explora/util/mcaselector/HeadlessTileImage.java:36-75 | an exception escapes exactly when the 32-bit `scale * scale` is 0 (the divisions before the `try`); a negative scale returns `null`; a positive one returns what the `try` does |
| TileGenerate.GenerateBufferedImage | plugin/Explora/src/com/jvallejoromero/explora/util/mcaselector/HeadlessTileImage.java:36-75 | for every scale, allocates, draws the chunks, applies the post-pass and wraps the pixels, coming to `BufferedImageOf` |
| TileGenerate.AllocateBuffers | plugin/Explora/src/com/jvallejoromero/explora/util/mcaselector/HeadlessTileImage.java:42-45 | fresh, zeroed arrays of the pixel count, with water buffers exactly when shading water outside cave mode |
| TileGenerate.ApplyPostPass | plugin/Explora/src/com/jvallejoromero/explora/util/mcaselector/HeadlessTileImage.java:58-62 | `flatShade` in cave mode, else the relief `shade` when shading and not rendering one layer, else nothing; reports whether it threw |
| TileGenerate.SizeFits | plugin/Explora/src/com/jvallejoromero/explora/util/mcaselector/HeadlessTileImage.java:37-39 | for scales up to 512 nothing wraps: the buffers have `262144 / scale^2` entries, enough for the square image |
| TileGenerate.TileImageExists | plugin/Explora/src/com/jvallejoromero/explora/util/mcaselector/HeadlessTileImage.java:41-75 | for scales up to 256, a tile comes out exactly when no chunk failure escapes the chunk loops; no post-pass throws |
| TileGenerate.BlankSlotTransparent | plugin/Explora/src/com/jvallejoromero/explora/util/mcaselector/HeadlessTileImage.java:47-62 | outside cave mode, every pixel of a region slot without chunk data stays transparent black in the returned tile |
| TileGenerate.InBlockInside | plugin/Explora/src/com/jvallejoromero/explora/util/mcaselector/HeadlessTileImage.java:37-38 | an index of a slot's block lies inside the `Tile.SIZE / s` square |
| TileGenerate.ZoomedImage | plugin/Explora/src/com/jvallejoromero/explora/util/mcaselector/HeadlessTileImage.java:83 | the zoomed image is `f` times as wide and as high as the base |
| TileGenerate.ZoomedOf | plugin/Explora/src/com/jvallejoromero/explora/util/mcaselector/HeadlessTileImage.java:77-96 | an exception escapes exactly when the base call threw or a present base zoomed by a factor above 1 would exceed `Integer.MAX_VALUE` pixels; a missing base, a thrown one or a factor of at most 1 gives the base itself; otherwise an image exists exactly when the base does, with both sides multiplied by the factor |
| TileGenerate.ZoomEscapes | plugin/Explora/src/com/jvallejoromero/explora/util/mcaselector/HeadlessTileImage.java:83-93 | for a tile-sized base and a factor above 1, the `int`-computed `new BufferedImage` plus the first block of `setRGB` calls throw exactly when the zoomed pixel count exceeds `Integer.MAX_VALUE`, and otherwise neither side wraps |
| TileGenerate.ZoomedBlock | plugin/Explora/src/com/jvallejoromero/explora/util/mcaselector/HeadlessTileImage.java:85-93 | pixel `(x*f + dx, y*f + dy)` of the zoomed image is pixel `(x, y)` of the base, for all `dx, dy < f` |
| TileGenerate.GenerateZoomedBufferedImage | plugin/Explora/src/com/jvallejoromero/explora/util/mcaselector/HeadlessTileImage.java:77-96 | for every scale and factor, comes to `ZoomedOf` the outcome of the base tile's generation |
| TileGenerate.RowMajorZoomed | plugin/Explora/src/com/jvallejoromero/explora/util/mcaselector/HeadlessTileImage.java:85-95 | the zoomed buffer read row by row is the zoomed image |

## Left out

- Concurrency and scheduling are not modelled. This covers the thread pools, `AtomicInteger` countdowns and Bukkit scheduler hand-offs in `rerenderUpdatedRegionsAsync`, `generateTilesAsyncOptimized`, `sendRerenderedTilesToBackendAsync`, `init` and `scanWorldsAsync`. Each task body is modelled as one sequential step.
- The increment-then-submit countdown in plugin/Explora/src/com/jvallejoromero/explora/util/TileImageGenerator.java:173-192 can reach zero before all tasks are submitted. This is a race between threads, which a sequential model cannot express.
- HTTP I/O (`HttpURLConnection`, multipart bodies, response reading) is reduced to its callback outcomes: a response code or an exception. The backend's Express routes, websocket and API-key check are not part of this model.
- Gson parsing and printing, ImageIO, `BufferedImage`, zip creation and the backend's SQLite stores are left out. Files are sequences of coordinates, or maps from names to existence or contents. A JSON file that Gson cannot parse is an unreadable file.
- The floating-point arithmetic of `shade` (`Color.shade`, `Color.blend` and the float slope ratio) is a pair of parameters. `TileShade` models which pixels each pass reads and writes, and the integer altitude clamp of `flatShade`. The progress percentage and ETA of the full render are left out (floating point).
- RegionScan.GetAllRegionFolders: the model's directory tree is a finite datatype, so the search always ends. The Java search lists subdirectories with `listFiles(File::isDirectory)`, which follows symbolic links, so a link cycle under the world folder keeps it running for ever.
- `generateZoomedBufferedImageOptimized`, which the tile generator calls, is not part of this model: its code is not available. The generator's renders are modelled through `generateBufferedImage` and `generateZoomedBufferedImage`.
- NBT tag classes, `RegionMCAFile`/`RegionChunk` loading, `ColorMapping`'s tables, `Tile` constants and `ConfigProvider` appear as datatypes or parameters. Their own behaviour is not modelled.
- Configuration files, plugin lifecycle, logging, the Bukkit status snapshot tasks and every frontend component other than `MinecraftUtils` are left out. None of them holds pipeline logic.
- `drawLayer` has an empty body, so the layer-only dispatch draws nothing in the model either.
- `ChunkUtils.scaleImage` resizes a `BufferedImage` with Java2D interpolation and is left out.
- JavaScript numbers in `MinecraftUtils` and the status store are modelled as integers. Tick and millisecond inputs are whole numbers in practice. `TILE_SIZE` is a parameter, since it comes from the build environment.
- MinecraftUtils.PixelsToBlocks, MinecraftUtils.BlocksToPixels: take whole numbers, but the map passes fractional mouse positions and the search bar passes typed numbers such as 10.5. For pixels nothing is lost, as `FractionalPixelFloors` shows. For blocks a fractional input can land on an odd pixel that the integer functions never return, as `FractionalBlockPixel` shows.
- Case-insensitive comparison (`equalsIgnoreCase`, `toLowerCase`) is modelled for ASCII letters only. Java's full Unicode case mapping is not modelled.
- ExplorationStore.BatchCount: states the batch count only for a positive batch size. With size 0 the source's `Math.ceil` of a division by zero yields `Integer.MAX_VALUE`, and a negative size yields a truncated negative quotient. Neither is stated.
- BackendHttp.BatchesCover: states the slicing only for a positive batch size. With size 0 every tick sends an empty batch and the index never moves. With a negative size `subList` throws on every tick. `BackendHttp.ChunkBatchStream.Run` states both cases tick by tick.
- MinecraftUtils.ClockInRange: requires ticks of at least -6000. For earlier ticks JavaScript's `%` keeps the sign, so the hour can be negative; `Hours`/`Minutes` still compute that value.
- ImageZoom.ZoomBuffer: requires positive sides and factor, a zoomed raster of at most `Integer.MAX_VALUE` pixels and a buffer of `w * h` pixels. On other inputs `generateZoomedImage` throws from the `BufferedImage` constructor, from `setRGB` or from the buffer read, and the model does not follow which; it does not model sides computed with `int` wrap-around either. The tile zoom (`TileGenerate.ZoomedOf`) models its escaping exception.
- TileGenerate.BufferedImageOf: the chunk loops for a negative scale are not modelled. They step backwards until `int` wrap-around ends them, and the result (`null`) does not depend on what they draw.

## Findings

| source | as written | input that shows it | evidently intended | confidence | as-written member | corrected member |
|---|---|---|---|---|---|---|
| plugin/Explora/src/com/jvallejoromero/explora/util/mcaselector/ChunkRenderer_1_21.java:188 | `drawCaves` takes a section's block index width from the buffer length, `data.length >> 6` | a 1025-entry palette packed at 11 bits occupies 820 words; `820 >> 6` gives width 12, so block 1 decodes palette entry 0 instead of entry 1 | the width from the palette size, max(4, bit length of size - 1), as `drawChunk` and the chunk format use | not executed | CaveRenderer.CaveBlockWidthMismatch | CaveRenderer.CorrectedCaveBlock |
| plugin/Explora/src/com/jvallejoromero/explora/util/mcaselector/ChunkRenderer_1_21.java:202 | `drawCaves` takes a section's biome index width from the buffer length, `biomes.length >> 3` | a 2-entry biome palette packed at 1 bit occupies 1 word; `1 >> 3` gives width 0, so every cell reads biome entry 0 | the width from the biome palette size, at least 1 bit | not executed | CaveRenderer.CaveBiomeWidthMismatch | CaveRenderer.CorrectedCaveBiome |
| plugin/Explora/src/com/jvallejoromero/explora/util/TileImageGenerator.java:277 | the render classes a region folder as the Nether when the folder itself is named `DIM-1`, but every folder it receives is named `region` | the vanilla layout `world/DIM-1/region`, whose path does not contain "nether", renders as the overworld | compare the name of the region folder's parent with `DIM-1` | not executed | RegionRendering.VanillaNetherMissed | RegionRendering.CorrectedNether |
