/** The parts of a chunk's NBT tree the renderers read, as values: the
    `sections` list, each section's `Y`, and its `block_states` and `biomes`
    containers (a palette plus a packed `data` array); and the colour lookup
    the renderers consult, as total functions over palette entries. */
module ChunkNbt {
  import opened JavaInts
  import opened Results

  /** A block-state palette entry: its `Name` and `Properties` compound. */
  datatype BlockState = BlockState(name: string, properties: map<string, string>)

  /** A biome palette entry: normally a string tag; any other tag kind is kept apart. */
  datatype BiomeEntry = BiomeName(name: string) | OtherBiomeTag

  /** The `data` entry of a container: the tag kinds `getLongBufferFromTag` distinguishes. */
  datatype DataTag = LongArrayTag(longs: seq<int64>) | ByteArrayTag(bytes: seq<int8>) | OtherTag

  /** A `block_states` or `biomes` compound; a missing `palette` or `data` entry is `None`. */
  datatype Container<T> = Container(palette: Option<seq<T>>, data: Option<DataTag>)

  /** One entry of `sections`; `y` is the numeric `Y` tag, `None` when absent. */
  datatype Section = Section(y: Option<int32>,
                             blockStates: Option<Container<BlockState>>,
                             biomes: Option<Container<BiomeEntry>>)

  /** The chunk root: `sections` is `None` when the tag is missing or is not a list of compounds. */
  datatype ChunkRoot = ChunkRoot(sections: Option<seq<Section>>, yPos: Option<int32>)

  /** `ColorMapping`'s queries, whose tables are not part of this model. */
  datatype ColorMapping = ColorMapping(isTransparent: BlockState -> bool,
                                       isFoliage: BlockState -> bool,
                                       isWater: BlockState -> bool,
                                       isWaterlogged: BlockState -> bool,
                                       rgb: (BlockState, string) -> int32)

  /** The `waterDummy` compound: a bare `minecraft:water` block state. */
  const WaterDummy: BlockState := BlockState("minecraft:water", map[])

  /** `Helper.tagFromCompound(Helper.tagFromCompound(section, k), "palette")`, where a missing compound yields a missing palette. */
  function PaletteOf<T>(c: Option<Container<T>>): Option<seq<T>>
  {
    if c.Some? then c.value.palette else None
  }

  function DataOf<T>(c: Option<Container<T>>): Option<DataTag>
  {
    if c.Some? then c.value.data else None
  }

  /** `palette == null ? 0 : palette.size()`. */
  function PaletteSize<T>(p: Option<seq<T>>): nat
  {
    if p.Some? then |p.value| else 0
  }

  /** The unsigned value of a byte's eight bits. */
  function Unsigned(b: int8): (u: nat)
    ensures u < 256 && (u - b) % 256 == 0
  {
    b % 256
  }

  /** The `(byte)` cast. */
  function ToByte(x: int): (b: int8)
    ensures (b - x) % 256 == 0
  {
    (x + 128) % 256 - 128
  }

  /** The bytes, most significant first, read as one unsigned number. */
  function BigEndianValue(bs: seq<int8>): nat
    decreases |bs|
  {
    if |bs| == 0 then 0 else 256 * BigEndianValue(bs[..|bs| - 1]) + Unsigned(bs[|bs| - 1])
  }

  /** The low `n` bytes of `u`, most significant first. */
  function BigEndianBytes(u: nat, n: nat): (bs: seq<int8>)
    ensures |bs| == n
  {
    if n == 0 then [] else BigEndianBytes(u / 256, n - 1) + [ToByte(u % 256)]
  }

  function Pow256(n: nat): (r: nat)
    ensures r >= 1
  {
    if n == 0 then 1 else 256 * Pow256(n - 1)
  }

  /** The signed Java long whose eight big-endian bytes are `bs`. */
  function LongOfBytes(bs: seq<int8>): int
    requires |bs| == 8
  {
    var u := BigEndianValue(bs);
    if u >= 0x8000_0000_0000_0000 then u - 0x1_0000_0000_0000_0000 else u
  }

  /** `ByteBuffer.wrap(bytes).asLongBuffer()`: one big-endian long per whole group of eight bytes; trailing bytes are not visible. */
  function BytesToLongs(bytes: seq<int8>): (words: seq<int>)
    ensures |words| == |bytes| / 8
    decreases |bytes|
  {
    if |bytes| < 8 then [] else [LongOfBytes(bytes[..8])] + BytesToLongs(bytes[8..])
  }

  /** What a writer of a long array as bytes produces: each long's eight bytes, most significant first. */
  function LongsToBytes(words: seq<int64>): (bytes: seq<int8>)
    ensures |bytes| == 8 * |words|
  {
    if |words| == 0 then [] else BigEndianBytes((words[0] as int) % 0x1_0000_0000_0000_0000, 8) + LongsToBytes(words[1..])
  }

  /** `getLongBufferFromTag`: a byte array is viewed as big-endian longs, a
      long array is used as it is, any other tag or none gives `null`. */
  function LongBufferOf(tag: Option<DataTag>): (r: Option<seq<int>>)
    ensures r.Some? <==> tag.Some? && !tag.value.OtherTag?
    ensures r.Some? && tag.value.LongArrayTag? ==> r.value == tag.value.longs
  {
    if tag.None? then None
    else match tag.value
      case ByteArrayTag(bytes) => Some(BytesToLongs(bytes))
      case LongArrayTag(longs) => Some(longs)
      case OtherTag => None
  }

  lemma {:induction false} BigEndianRoundTrip(u: nat, n: nat)
    ensures BigEndianValue(BigEndianBytes(u, n)) == u % Pow256(n)
    decreases n
  {
    if n > 0 {
      var bs := BigEndianBytes(u, n);
      var q, r := u / 256, u % 256;
      var p := Pow256(n - 1);
      BigEndianRoundTrip(q, n - 1);
      assert bs[..n - 1] == BigEndianBytes(q, n - 1);
      assert Unsigned(ToByte(r)) == r by {
        DivModUnique(ToByte(r), 256, (ToByte(r) - r) / 256, r);
      }
      assert BigEndianValue(bs) == 256 * (q % p) + r;
      LowDigitSplit(u, p);
    }
  }

  /** Taking `u` modulo `256 * p` keeps its lowest byte and the rest modulo `p`. */
  lemma LowDigitSplit(u: nat, p: nat)
    requires p >= 1
    ensures u % (256 * p) == 256 * ((u / 256) % p) + u % 256
  {
    var q, r := u / 256, u % 256;
    var a, b := q / p, q % p;
    assert q == a * p + b;
    assert u == a * (256 * p) + (256 * b + r) by {
      assert u == 256 * q + r;
      assert 256 * q == a * (256 * p) + 256 * b;
    }
    assert 256 * b + r < 256 * p by {
      assert b <= p - 1;
      MulMonotoneLe256(b, p - 1);
    }
    DivModUnique(u, 256 * p, a, 256 * b + r);
  }

  lemma MulMonotoneLe256(a: int, c: int)
    requires a <= c
    ensures 256 * a <= 256 * c
  {
  }

  lemma Pow256Eight()
    ensures Pow256(8) == 0x1_0000_0000_0000_0000
  {
  }

  /** Reading the bytes of a long array back as a long buffer gives the array. */
  lemma {:induction false} LongBufferRoundTrip(words: seq<int64>)
    ensures BytesToLongs(LongsToBytes(words)) == words
    decreases |words|
  {
    if |words| > 0 {
      var bytes := LongsToBytes(words);
      var head := BigEndianBytes(words[0] as int % 0x1_0000_0000_0000_0000, 8);
      assert bytes[..8] == head;
      assert bytes[8..] == LongsToBytes(words[1..]);
      LongRoundTrip(words[0]);
      LongBufferRoundTrip(words[1..]);
    }
  }

  /** One long written as eight big-endian bytes reads back as itself. */
  lemma LongRoundTrip(v: int64)
    ensures LongOfBytes(BigEndianBytes(v as int % 0x1_0000_0000_0000_0000, 8)) == v
  {
    var u := v as int % 0x1_0000_0000_0000_0000;
    BigEndianRoundTrip(u, 8);
    Pow256Eight();
    WrapLong(v);
  }

  /** A long taken modulo 2^64 is itself when non-negative and 2^64 more when negative. */
  lemma WrapLong(v: int)
    requires IsInt64(v)
    ensures v >= 0 ==> v as int % 0x1_0000_0000_0000_0000 == v
    ensures v < 0 ==> v as int % 0x1_0000_0000_0000_0000 == v + 0x1_0000_0000_0000_0000
  {
    if v < 0 {
      DivModUnique(v, 0x1_0000_0000_0000_0000, -1, v + 0x1_0000_0000_0000_0000);
    } else {
      DivModUnique(v, 0x1_0000_0000_0000_0000, 0, v);
    }
  }
}
