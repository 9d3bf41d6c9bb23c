/** The three coordinate value types every set and map of the plugin is keyed
    by. A block is one cube, a chunk a 16x16 column of blocks, a region a 32x32
    square of chunks; conversions are arithmetic right shifts, that is,
    division rounding toward negative infinity. */
module Coords {
  import opened JavaInts
  import opened JavaStrings

  /** `ChunkCoord`: fields set once by the constructor and read back by the getters. */
  datatype ChunkCoord = ChunkCoord(x: int32, z: int32)

  /** `BlockCoord`. */
  datatype BlockCoord = BlockCoord(x: int32, y: int32, z: int32)

  /** `RegionCoord`, holding `regionX` and `regionZ`. */
  datatype RegionCoord = RegionCoord(x: int32, z: int32)

  /** `new RegionCoord(chunkX, chunkZ)`: the region holding the chunk. */
  function RegionOfChunk(chunkX: int32, chunkZ: int32): (r: RegionCoord)
    ensures 32 * r.x <= chunkX < 32 * r.x + 32
    ensures 32 * r.z <= chunkZ < 32 * r.z + 32
  {
    RegionCoord(ShiftRight(chunkX, 5), ShiftRight(chunkZ, 5))
  }

  /** `RegionCoord.fromRegionCoords`: a coordinate built for chunk (0, 0)
      whose fields are then overwritten. */
  function FromRegionCoords(regionX: int32, regionZ: int32): (r: RegionCoord)
    ensures r.x == regionX && r.z == regionZ
  {
    RegionOfChunk(0, 0).(x := regionX, z := regionZ)
  }

  lemma RegionOfChunkExample()
    ensures RegionOfChunk(47, -3) == RegionCoord(1, -1)
  {
  }

  /** Rebuilding a region from the shifted chunk coordinates gives the same value
      as the chunk constructor. */
  lemma FromRegionCoordsOfShift(cx: int32, cz: int32)
    ensures FromRegionCoords(ShiftRight(cx, 5), ShiftRight(cz, 5)) == RegionOfChunk(cx, cz)
  {
  }

  /** The chunks of a region are exactly the 32x32 square starting at 32 times its coordinates. */
  lemma {:induction false} RegionMembership(r: RegionCoord, cx: int32, cz: int32)
    ensures RegionOfChunk(cx, cz) == r <==>
              (32 * r.x <= cx < 32 * r.x + 32 && 32 * r.z <= cz < 32 * r.z + 32)
  {
    if 32 * r.x <= cx < 32 * r.x + 32 && 32 * r.z <= cz < 32 * r.z + 32 {
      DivModUnique(cx, 32, r.x, cx - 32 * r.x);
      DivModUnique(cz, 32, r.z, cz - 32 * r.z);
    }
  }

  /** `BlockCoord.toChunkCoord`: the chunk holding the block; `y` plays no part. */
  function ChunkOfBlock(b: BlockCoord): (c: ChunkCoord)
    ensures 16 * c.x <= b.x < 16 * c.x + 16
    ensures 16 * c.z <= b.z < 16 * c.z + 16
  {
    ChunkCoord(ShiftRight(b.x, 4), ShiftRight(b.z, 4))
  }

  lemma ChunkOfBlockIgnoresY(b: BlockCoord, y: int32)
    ensures ChunkOfBlock(b.(y := y)) == ChunkOfBlock(b)
  {
  }

  /** Shifting a block by 4 and then by 5 finds the region by one division by 512. */
  lemma {:induction false} RegionOfBlock(b: BlockCoord)
    ensures RegionOfChunk(ChunkOfBlock(b).x, ChunkOfBlock(b).z) == RegionCoord(b.x / 512, b.z / 512)
  {
    var c := ChunkOfBlock(b);
    var r := RegionOfChunk(c.x, c.z);
    DivModUnique(b.x, 512, r.x, b.x - 512 * r.x);
    DivModUnique(b.z, 512, r.z, b.z - 512 * r.z);
  }

  /** `equals` of each type: `instanceof` plus field comparison. */
  predicate ChunkEquals(a: ChunkCoord, b: ChunkCoord)
    ensures ChunkEquals(a, b) <==> a == b
  {
    a.x == b.x && a.z == b.z
  }

  predicate BlockEquals(a: BlockCoord, b: BlockCoord)
    ensures BlockEquals(a, b) <==> a == b
  {
    a.x == b.x && a.y == b.y && a.z == b.z
  }

  predicate RegionEquals(a: RegionCoord, b: RegionCoord)
    ensures RegionEquals(a, b) <==> a == b
  {
    a.x == b.x && a.z == b.z
  }

  lemma ChunkEqualsReflexiveSymmetric(a: ChunkCoord, b: ChunkCoord)
    ensures ChunkEquals(a, a)
    ensures ChunkEquals(a, b) == ChunkEquals(b, a)
  {
  }

  /** `Objects.hash(a, b)` for two ints: `31 * (31 * 1 + a) + b`, each step wrapping to 32 bits. */
  function Hash2(a: int32, b: int32): (h: int32)
    ensures h == ToInt32(961 + 31 * a + b)
  {
    var h1 := ToInt32(31 + a);
    HashStep(h1, 31 + a, b);
    ToInt32(31 * h1 + b)
  }

  /** `Objects.hash(a, b, c)`. */
  function Hash3(a: int32, b: int32, c: int32): (h: int32)
    ensures h == ToInt32(29791 + 961 * a + 31 * b + c)
  {
    var h2 := Hash2(a, b);
    HashStep(h2, 961 + 31 * a + b, c);
    ToInt32(31 * h2 + c)
  }

  /** One step `31 * h + c` of the hash loop may wrap before or after: the result is the same. */
  lemma HashStep(h: int32, v: int, c: int)
    requires h == ToInt32(v)
    ensures ToInt32(31 * h + c) == ToInt32(31 * v + c)
  {
    var j := (h - v) / 0x1_0000_0000;
    assert h - v == j * 0x1_0000_0000;
    WrapCongruent(31 * h + c, 31 * v + c, 31 * j);
  }

  function ChunkHash(c: ChunkCoord): int32 { Hash2(c.x, c.z) }

  function BlockHash(b: BlockCoord): int32 { Hash3(b.x, b.y, b.z) }

  /** `RegionCoord.hashCode`: `31 * regionX + regionZ` in int arithmetic. */
  function RegionHash(r: RegionCoord): (h: int32)
  {
    ToInt32(31 * r.x + r.z)
  }

  /** `hashCode` agrees with `equals` for all three types. */
  lemma HashConsistentWithEquals(a: ChunkCoord, b: ChunkCoord, p: BlockCoord, q: BlockCoord, r: RegionCoord, s: RegionCoord)
    ensures ChunkEquals(a, b) ==> ChunkHash(a) == ChunkHash(b)
    ensures BlockEquals(p, q) ==> BlockHash(p) == BlockHash(q)
    ensures RegionEquals(r, s) ==> RegionHash(r) == RegionHash(s)
  {
  }

  /** `ChunkCoord.toString`: "x,z". */
  function ChunkToString(c: ChunkCoord): string
  {
    IntToString(c.x) + "," + IntToString(c.z)
  }

  /** `BlockCoord.toString`: "x,y,z". */
  function BlockToString(b: BlockCoord): string
  {
    IntToString(b.x) + "," + IntToString(b.y) + "," + IntToString(b.z)
  }

  /** `RegionCoord.toString`: "r.x.z", the stem of the region's `.mca`, `.png` and `.json` file names. */
  function RegionToString(r: RegionCoord): string
  {
    "r." + IntToString(r.x) + "." + IntToString(r.z)
  }

  /** Different chunks print differently: the text determines the coordinate. */
  lemma ChunkToStringInjective(a: ChunkCoord, b: ChunkCoord)
    requires ChunkToString(a) == ChunkToString(b)
    ensures a == b
  {
    SignedDigitsChars(IntToString(a.x), ',');
    SignedDigitsChars(IntToString(b.x), ',');
    SplitAtSeparator(IntToString(a.x), IntToString(a.z), IntToString(b.x), IntToString(b.z), ',');
    IntToStringInjective(a.x, b.x);
    IntToStringInjective(a.z, b.z);
  }

  lemma BlockToStringInjective(a: BlockCoord, b: BlockCoord)
    requires BlockToString(a) == BlockToString(b)
    ensures a == b
  {
    var ax, ay, az := IntToString(a.x), IntToString(a.y), IntToString(a.z);
    var bx, by_, bz := IntToString(b.x), IntToString(b.y), IntToString(b.z);
    SignedDigitsChars(ax, ',');
    SignedDigitsChars(bx, ',');
    SignedDigitsChars(ay, ',');
    SignedDigitsChars(by_, ',');
    assert BlockToString(a) == ax + [','] + (ay + "," + az);
    assert BlockToString(b) == bx + [','] + (by_ + "," + bz);
    SplitAtSeparator(ax, ay + "," + az, bx, by_ + "," + bz, ',');
    SplitAtSeparator(ay, az, by_, bz, ',');
    IntToStringInjective(a.x, b.x);
    IntToStringInjective(a.y, b.y);
    IntToStringInjective(a.z, b.z);
  }

  lemma RegionToStringInjective(a: RegionCoord, b: RegionCoord)
    requires RegionToString(a) == RegionToString(b)
    ensures a == b
  {
    var ax, az, bx, bz := IntToString(a.x), IntToString(a.z), IntToString(b.x), IntToString(b.z);
    assert RegionToString(a)[2..] == ax + "." + az;
    assert RegionToString(b)[2..] == bx + "." + bz;
    SignedDigitsChars(ax, '.');
    SignedDigitsChars(bx, '.');
    SplitAtSeparator(ax, az, bx, bz, '.');
    IntToStringInjective(a.x, b.x);
    IntToStringInjective(a.z, b.z);
  }
}
