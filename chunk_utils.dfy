/** `ChunkUtils`: finding the `region` folders of a world, naming a
    dimension by the path from its world folder, reading the explored chunks
    out of a folder of region files, and writing them as a save file. */
module RegionScan {
  import opened JavaInts
  import opened Results
  import opened JavaStrings
  import opened Coords
  import opened ExplorationStore

  // ----- directory trees -----

  /** A directory: its name, and what listing it gives, or `None` where
      `listFiles` returns `null` (it does not exist, is not a directory or
      cannot be read). */
  datatype Dir = Dir(name: string, listing: Option<Listing>)

  /** Its subdirectories and the names of its plain files, in listing order. */
  datatype Listing = Listing(subdirs: seq<Dir>, files: seq<string>)

  /** The subdirectories a directory lists, none when it cannot be listed. */
  function Subdirs(d: Dir): seq<Dir>
  {
    if d.listing.Some? then d.listing.value.subdirs else []
  }

  /** The number of directories in the trees of a list of directories. */
  function SumSizes(ds: seq<Dir>): nat
    decreases ds
  {
    if ds == [] then 0
    else 1 + (if ds[0].listing.Some? then SumSizes(ds[0].listing.value.subdirs) else 0) + SumSizes(ds[1..])
  }

  lemma {:induction false} SumSizesAppend(a: seq<Dir>, b: seq<Dir>)
    ensures SumSizes(a + b) == SumSizes(a) + SumSizes(b)
    decreases |a|
  {
    if a != [] {
      assert (a + b)[0] == a[0] && (a + b)[1..] == a[1..] + b;
      SumSizesAppend(a[1..], b);
    } else {
      assert a + b == b;
    }
  }

  predicate IsRegion(d: Dir) { d.name == "region" }

  /** The directories named exactly `region`, in order. */
  function Regions(ds: seq<Dir>): seq<Dir>
  {
    if ds == [] then [] else (if IsRegion(ds[0]) then [ds[0]] else []) + Regions(ds[1..])
  }

  /** The other directories, in order: the ones the search enqueues. */
  function Others(ds: seq<Dir>): (r: seq<Dir>)
    ensures SumSizes(r) <= SumSizes(ds)
  {
    if ds == [] then []
    else
      var rest := Others(ds[1..]);
      if IsRegion(ds[0]) then rest
      else
        SumSizesAppend([ds[0]], rest);
        assert ([ds[0]] + rest)[1..] == rest;
        [ds[0]] + rest
  }

  lemma {:induction false} FilterAppend(a: seq<Dir>, b: seq<Dir>)
    ensures Regions(a + b) == Regions(a) + Regions(b)
    ensures Others(a + b) == Others(a) + Others(b)
    decreases |a|
  {
    if a != [] {
      assert (a + b)[0] == a[0] && (a + b)[1..] == a[1..] + b;
      FilterAppend(a[1..], b);
    } else {
      assert a + b == b;
    }
  }

  /** The `region` directories the breadth-first search of
      `getAllRegionFolders` meets, in the order it records them, when its
      queue holds `queue`: each dequeued directory that lists has its
      `region` subdirectories recorded and its other subdirectories enqueued. */
  function Found(queue: seq<Dir>): seq<Dir>
    decreases SumSizes(queue)
  {
    if queue == [] then []
    else
      var cur := queue[0];
      if cur.listing.None? then Found(queue[1..])
      else
        var subs := cur.listing.value.subdirs;
        SumSizesAppend(queue[1..], Others(subs));
        Regions(subs) + Found(queue[1..] + Others(subs))
  }

  lemma {:induction false} RegionsAreRegions(ds: seq<Dir>)
    ensures forall d :: d in Regions(ds) ==> IsRegion(d)
  {
    if ds != [] {
      RegionsAreRegions(ds[1..]);
    }
  }

  /** Everything the search records is named `region`. */
  lemma {:induction false} FoundAreRegions(queue: seq<Dir>)
    ensures forall d :: d in Found(queue) ==> IsRegion(d)
    decreases SumSizes(queue)
  {
    if queue != [] {
      var cur := queue[0];
      if cur.listing.None? {
        FoundAreRegions(queue[1..]);
      } else {
        var subs := cur.listing.value.subdirs;
        SumSizesAppend(queue[1..], Others(subs));
        RegionsAreRegions(subs);
        FoundAreRegions(queue[1..] + Others(subs));
      }
    }
  }

  /** One more subdirectory goes to exactly one of the two lists. */
  lemma FilterStep(subdirs: seq<Dir>, j: nat)
    requires j < |subdirs|
    ensures Regions(subdirs[..j + 1]) == Regions(subdirs[..j]) + (if IsRegion(subdirs[j]) then [subdirs[j]] else [])
    ensures Others(subdirs[..j + 1]) == Others(subdirs[..j]) + (if IsRegion(subdirs[j]) then [] else [subdirs[j]])
  {
    FilterAppend(subdirs[..j], [subdirs[j]]);
    assert subdirs[..j + 1] == subdirs[..j] + [subdirs[j]];
    assert [subdirs[j]][1..] == [];
  }

  /** The map the search builds: every `region` directory found is put
      under the world folder's own name, so the last one found stays. */
  function PutAll(key: string, found: seq<Dir>): map<string, Dir>
  {
    if found == [] then map[] else map[key := found[|found| - 1]]
  }

  lemma PutAllShape(key: string, found: seq<Dir>)
    ensures PutAll(key, found).Keys == if found == [] then {} else {key}
    ensures found != [] ==> PutAll(key, found)[key] == found[|found| - 1]
  {
  }

  /** Putting one more found directory overwrites the entry. */
  lemma PutAllSnoc(key: string, found: seq<Dir>, d: Dir)
    ensures PutAll(key, found + [d]) == PutAll(key, found)[key := d]
  {
    assert (found + [d])[|found|] == d;
  }

  /** `getAllRegionFolders(worldFolder)`: at most one entry, under the
      world folder's name, holding the last `region` directory found; none
      when the search finds none. */
  function RegionFolders(root: Dir): (r: map<string, Dir>)
    ensures r.Keys <= {root.name}
    ensures forall k :: k in r ==> IsRegion(r[k])
    ensures r == map[] <==> Found([root]) == []
  {
    PutAllShape(root.name, Found([root]));
    FoundAreRegions([root]);
    PutAll(root.name, Found([root]))
  }

  /** The world folder itself is never matched, only its subdirectories:
      a `region` folder that lists nothing yields no entry. */
  lemma RootNotMatched(name: string)
    ensures RegionFolders(Dir(name, None)) == map[]
  {
    assert Found([Dir(name, None)]) == Found([]);
  }

  /** A `region` directory is recorded and not searched: what lies below it
      is never found, and of two `region` children the later one stays. */
  lemma RegionChildren(name: string, first: Dir, second: Dir)
    requires IsRegion(first) && IsRegion(second)
    ensures RegionFolders(Dir(name, Some(Listing([first, second], [])))) == map[name := second]
  {
    var subs := [first, second];
    assert subs[1..] == [second] && [second][1..] == [];
    assert Regions([second]) == [second] && Others([second]) == [];
    assert Regions(subs) == subs;
    assert Others(subs) == [];
    assert Found([Dir(name, Some(Listing(subs, [])))]) == subs + Found([]);
  }

  /** The search is breadth-first: a `region` directory one level down is
      found before one two levels down, which therefore wins. */
  lemma DeeperFoundLater(name: string, shallow: Dir, mid: string, deep: Dir)
    requires IsRegion(shallow) && IsRegion(deep) && mid != "region"
    ensures var inner := Dir(mid, Some(Listing([deep], [])));
            Found([Dir(name, Some(Listing([inner, shallow], [])))]) == [shallow, deep] &&
            RegionFolders(Dir(name, Some(Listing([inner, shallow], [])))) == map[name := deep]
  {
    var inner := Dir(mid, Some(Listing([deep], [])));
    var subs := [inner, shallow];
    assert subs[1..] == [shallow] && [shallow][1..] == [];
    assert [deep][1..] == [];
    assert Regions([shallow]) == [shallow] && Others([shallow]) == [];
    assert Regions(subs) == [shallow];
    assert Others(subs) == [inner];
    assert Regions([deep]) == [deep] && Others([deep]) == [];
    assert Found([inner]) == [deep] + Found([]);
    assert ([] + [inner])[0] == inner;
    assert Found([Dir(name, Some(Listing(subs, [])))]) == [shallow] + Found([] + [inner]);
  }

  /** `getAllRegionFolders`: the queue-driven search. */
  method GetAllRegionFolders(worldFolder: Dir) returns (regionFolders: map<string, Dir>)
    ensures regionFolders == RegionFolders(worldFolder)
  {
    regionFolders := map[];
    var toSearch := [worldFolder];
    ghost var found: seq<Dir> := [];
    while toSearch != []
      invariant found + Found(toSearch) == Found([worldFolder])
      invariant regionFolders == PutAll(worldFolder.name, found)
      decreases SumSizes(toSearch)
    {
      var current := toSearch[0];
      var rest := toSearch[1..];
      if current.listing.None? {
        toSearch := rest;
        continue;
      }
      var subdirs := current.listing.value.subdirs;
      SumSizesAppend(rest, Others(subdirs));
      assert Found(toSearch) == Regions(subdirs) + Found(rest + Others(subdirs));
      ghost var found0 := found;
      toSearch, regionFolders, found := ScanSubdirs(worldFolder.name, subdirs, rest, regionFolders, found);
      assert found + Found(toSearch) == found0 + (Regions(subdirs) + Found(rest + Others(subdirs)));
    }
  }

  /** The inner loop of the search: each `region` subdirectory is put under
      `key`, each other one is enqueued. */
  method ScanSubdirs(key: string, subdirs: seq<Dir>, queue: seq<Dir>, regionFolders: map<string, Dir>, ghost found: seq<Dir>)
    returns (queue': seq<Dir>, regionFolders': map<string, Dir>, ghost found': seq<Dir>)
    requires regionFolders == PutAll(key, found)
    ensures queue' == queue + Others(subdirs)
    ensures found' == found + Regions(subdirs)
    ensures regionFolders' == PutAll(key, found')
  {
    queue', regionFolders', found' := queue, regionFolders, found;
    for j := 0 to |subdirs|
      invariant queue' == queue + Others(subdirs[..j])
      invariant found' == found + Regions(subdirs[..j])
      invariant regionFolders' == PutAll(key, found')
    {
      var subdir := subdirs[j];
      FilterStep(subdirs, j);
      if subdir.name == "region" {
        PutAllSnoc(key, found', subdir);
        regionFolders' := regionFolders'[key := subdir];
        found' := found' + [subdir];
      } else {
        queue' := queue' + [subdir];
      }
    }
    assert subdirs[..|subdirs|] == subdirs;
  }

  // ----- dimension names -----

  /** A canonical path, as its names below the file-system root. */
  type Path = seq<string>

  /** The length of the longest common prefix of two paths. */
  function CommonPrefix(a: Path, b: Path): (k: nat)
    ensures k <= |a| && k <= |b| && a[..k] == b[..k]
    ensures k < |a| && k < |b| ==> a[k] != b[k]
  {
    if a == [] || b == [] || a[0] != b[0] then 0
    else
      var k := CommonPrefix(a[1..], b[1..]);
      assert a[..k + 1] == [a[0]] + a[1..][..k];
      assert b[..k + 1] == [b[0]] + b[1..][..k];
      k + 1
  }

  /** `Path.relativize` of two absolute paths: one `..` per name of `base`
      past the common prefix, then the rest of `p`. */
  function Relativize(base: Path, p: Path): Path
  {
    var k := CommonPrefix(base, p);
    seq(|base| - k, _ => "..") + p[k..]
  }

  /** A relative path as text, names joined by '/'. */
  function Join(p: Path): string
  {
    if p == [] then "" else if |p| == 1 then p[0] else p[0] + "/" + Join(p[1..])
  }

  /** The name a relative key stands for: the world folder itself is the
      overworld, `DIM-1` the nether and `DIM1` the end, in any case. */
  function DimensionOfKey(key: string): (r: string)
    ensures r == "overworld" <==> key == "" || key == "." || key == "overworld"
  {
    if key == "" || key == "." then "overworld"
    else if EqualsIgnoreCase(key, "DIM-1") then "nether"
    else if EqualsIgnoreCase(key, "DIM1") then "the_end"
    else key
  }

  /** The exception `getRelativeDimensionName` lets through: a region
      folder at the file-system root has no parent to relativize against. */
  datatype PathError = NullParent

  /** `getRelativeDimensionName(worldFolder, regionFolder)`, given the two
      canonical paths, each `None` where canonicalisation throws an
      `IOException`, which falls back to the region folder's name. */
  function RelativeDimensionName(world: Option<Path>, region: Option<Path>, regionName: string): (r: Result<string, PathError>)
    ensures (world.None? || region.None?) ==> r == Ok(regionName)
    ensures r.Err? <==> world.Some? && region.Some? && region.value == []
  {
    if world.None? || region.None? then Ok(regionName)
    else if region.value == [] then Err(NullParent)
    else Ok(DimensionOfKey(Join(Relativize(world.value, region.value[..|region.value| - 1]))))
  }

  lemma {:induction false} CommonPrefixExtension(a: Path, s: Path)
    ensures CommonPrefix(a, a + s) == |a|
  {
    if a != [] {
      assert (a + s)[0] == a[0] && (a + s)[1..] == a[1..] + s;
      CommonPrefixExtension(a[1..], s);
    }
  }

  lemma RelativizeNested(world: Path, sub: Path)
    ensures Relativize(world, world + sub) == sub
  {
    CommonPrefixExtension(world, sub);
    assert (world + sub)[|world|..] == sub;
  }

  /** For a region folder inside the world folder, the name is the
      dimension of the path between them. */
  lemma DimensionOfNested(world: Path, sub: Path, last: string)
    ensures RelativeDimensionName(Some(world), Some(world + sub + [last]), last) == Ok(DimensionOfKey(Join(sub)))
  {
    var region := world + sub + [last];
    assert region[..|region| - 1] == world + sub;
    RelativizeNested(world, sub);
  }

  /** `world/region` is the overworld. */
  lemma OverworldName(world: Path, last: string)
    ensures RelativeDimensionName(Some(world), Some(world + [last]), last) == Ok("overworld")
  {
    DimensionOfNested(world, [], last);
    assert world + [] + [last] == world + [last];
  }

  /** `world/DIM-1/region`, in any case, is the nether. */
  lemma NetherName(world: Path, last: string)
    ensures RelativeDimensionName(Some(world), Some(world + ["dim-1", last]), last) == Ok("nether")
  {
    DimensionOfNested(world, ["dim-1"], last);
    assert world + ["dim-1"] + [last] == world + ["dim-1", last];
  }

  /** `world/DIM1/region` is the end. */
  lemma EndName(world: Path, last: string)
    ensures RelativeDimensionName(Some(world), Some(world + ["DIM1", last]), last) == Ok("the_end")
  {
    DimensionOfNested(world, ["DIM1"], last);
    assert world + ["DIM1"] + [last] == world + ["DIM1", last];
  }

  /** A deeper region folder keeps its '/'-joined path. */
  lemma DeeperName(world: Path, last: string)
    ensures RelativeDimensionName(Some(world), Some(world + ["a", "b", last]), last) == Ok("a/b")
  {
    DimensionOfNested(world, ["a", "b"], last);
    assert world + ["a", "b"] + [last] == world + ["a", "b", last];
    assert ["a", "b"][1..] == ["b"];
    assert Join(["a", "b"]) == "a/b";
    assert !EqualsIgnoreCase("a/b", "DIM-1") by { assert |ToLower("a/b")| != |ToLower("DIM-1")|; }
    assert !EqualsIgnoreCase("a/b", "DIM1") by { assert ToLower("a/b")[0] != ToLower("DIM1")[0]; }
  }

  // ----- region files -----

  /** A `Tag` of a biome palette: a `StringTag` or any other kind. */
  datatype Tag = StringTag(value: string) | OtherTag

  /** A section's `biomes` compound: its `palette` list, if present. */
  datatype BiomesTag = BiomesTag(palette: Option<seq<Tag>>)

  /** A compound of a chunk's `sections` list: its `biomes`, if present. */
  datatype SectionTag = SectionTag(biomes: Option<BiomesTag>)

  /** A chunk's data compound: its `sections` list, if present. */
  datatype ChunkLevel = ChunkLevel(sections: Option<seq<SectionTag>>)

  /** A `RegionChunk` as loaded: its absolute chunk position, whether
      `isEmpty` holds, and its data compound, if any. */
  datatype RegionChunk = RegionChunk(x: int32, z: int32, empty: bool, data: Option<ChunkLevel>)

  /** The 1024 chunk slots of a loaded region file, `None` for a slot
      `getChunk` gives `null` for. */
  type Slots = s: seq<Option<RegionChunk>> | |s| == 1024 witness seq(1024, _ => None)

  /** A region file as `load` leaves it: its slots, or the message of the
      exception that loading threw. */
  type McaLoad = Result<Slots, string>

  /** The chunks of the first `k` slots that hold a non-empty chunk. */
  function SlotChunks(slots: Slots, k: nat): set<ChunkCoord>
    requires k <= 1024
  {
    if k == 0 then {}
    else
      var c := slots[k - 1];
      SlotChunks(slots, k - 1) + (if c.Some? && !c.value.empty then {ChunkCoord(c.value.x, c.value.z)} else {})
  }

  /** The chunks one file contributes: none when it failed to load. */
  function FileChunks(f: McaLoad): set<ChunkCoord>
  {
    if f.Ok? then SlotChunks(f.value, 1024) else {}
  }

  /** The chunks a list of files contributes, in listing order. */
  function ExploredIn(files: seq<McaLoad>): set<ChunkCoord>
  {
    if files == [] then {} else ExploredIn(files[..|files| - 1]) + FileChunks(files[|files| - 1])
  }

  /** A slot holding a non-empty chunk at `c`. */
  predicate HoldsChunk(f: McaLoad, k: int, c: ChunkCoord)
  {
    f.Ok? && 0 <= k < 1024 && f.value[k].Some? && !f.value[k].value.empty &&
    c == ChunkCoord(f.value[k].value.x, f.value[k].value.z)
  }

  lemma {:induction false} SlotChunksMembers(f: McaLoad, k: nat, c: ChunkCoord)
    requires f.Ok? && k <= 1024
    ensures c in SlotChunks(f.value, k) <==> exists j :: 0 <= j < k && HoldsChunk(f, j, c)
  {
    if k > 0 {
      SlotChunksMembers(f, k - 1, c);
      if c in SlotChunks(f.value, k) && c !in SlotChunks(f.value, k - 1) {
        assert HoldsChunk(f, k - 1, c);
      }
    }
  }

  /** A chunk is read from the folder exactly when some file that loaded
      holds it, non-empty, in one of its slots. */
  lemma {:induction false} ExploredInMembers(files: seq<McaLoad>, c: ChunkCoord)
    ensures c in ExploredIn(files) <==> exists i, k :: 0 <= i < |files| && HoldsChunk(files[i], k, c)
  {
    if files != [] {
      var init := files[..|files| - 1];
      var last := files[|files| - 1];
      ExploredInMembers(init, c);
      if last.Ok? {
        SlotChunksMembers(last, 1024, c);
      }
      if exists i, k :: 0 <= i < |files| && HoldsChunk(files[i], k, c) {
        var i, k :| 0 <= i < |files| && HoldsChunk(files[i], k, c);
        if i < |init| {
          assert HoldsChunk(init[i], k, c);
        }
      }
      if exists i, k :: 0 <= i < |init| && HoldsChunk(init[i], k, c) {
        var i, k :| 0 <= i < |init| && HoldsChunk(init[i], k, c);
        assert HoldsChunk(files[i], k, c);
      }
    }
  }

  /** A file that fails to load changes nothing: the others are read as if it were absent. */
  lemma FailedFileSkipped(files: seq<McaLoad>, msg: string, c: ChunkCoord)
    ensures c in ExploredIn(files + [Err(msg)]) <==> c in ExploredIn(files)
  {
    assert (files + [Err(msg)])[..|files|] == files;
  }

  /** `getExploredChunksFromRegionFolder`, given the loaded `.mca` files of
      the folder, or `None` where the listing is `null`. */
  method GetExploredChunksFromRegionFolder(regionFiles: Option<seq<McaLoad>>) returns (exploredChunks: set<ChunkCoord>)
    ensures regionFiles.None? ==> exploredChunks == {}
    ensures regionFiles.Some? ==> exploredChunks == ExploredIn(regionFiles.value)
  {
    exploredChunks := {};
    if regionFiles.None? {
      return;
    }
    var files := regionFiles.value;
    for n := 0 to |files|
      invariant exploredChunks == ExploredIn(files[..n])
    {
      assert files[..n + 1][..n] == files[..n];
      var regionFile := files[n];
      if regionFile.Ok? {
        var slots := regionFile.value;
        ghost var before := exploredChunks;
        for i := 0 to 1024
          invariant exploredChunks == before + SlotChunks(slots, i)
        {
          var chunk := slots[i];
          if chunk.Some? && !chunk.value.empty {
            exploredChunks := exploredChunks + {ChunkCoord(chunk.value.x, chunk.value.z)};
          }
        }
      }
    }
    assert files[..|files|] == files;
  }

  // ----- saving -----

  /** `saveAsJson(worldName, dimension, chunks)`: the file
      `explored_chunks_<world>.json` of the save folder is written with the
      world, the dimension and every chunk of the set once, in the set's
      iteration order, which is returned; when the folder cannot be created
      or written (`writable` false) nothing changes. */
  method SaveAsJson(fs: SaveFolder, writable: bool, worldName: string, dimension: string, chunks: set<ChunkCoord>)
    returns (saved: SaveFolder, chunkList: seq<ChunkCoord>)
    ensures (set c | c in chunkList) == chunks && NoDuplicates(chunkList) && |chunkList| == |chunks|
    ensures writable ==> saved == fs[FileName(worldName) := Some(ChunkFile(Some(worldName), Some(dimension), chunkList))]
    ensures !writable ==> saved == fs
  {
    saved := fs;
    chunkList := [];
    var todo := chunks;
    while todo != {}
      invariant (set c | c in chunkList) + todo == chunks
      invariant (set c | c in chunkList) !! todo
      invariant NoDuplicates(chunkList)
      invariant |chunkList| + |todo| == |chunks|
      decreases |todo|
    {
      var chunk :| chunk in todo;
      chunkList := chunkList + [chunk];
      todo := todo - {chunk};
    }
    if writable {
      saved := fs[FileName(worldName) := Some(ChunkFile(Some(worldName), Some(dimension), chunkList))];
    }
  }

  /** What `saveAsJson` writes loads back, in `ChunkManager`, as exactly the saved set. */
  lemma SavedJsonLoads(m: WorldChunks, worldName: string, dimension: string, chunks: set<ChunkCoord>, chunkList: seq<ChunkCoord>)
    requires (set c | c in chunkList) == chunks
    ensures LoadFile(m, Some(ChunkFile(Some(worldName), Some(dimension), chunkList))) == m[worldName := chunks]
  {
  }
}
