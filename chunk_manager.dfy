/** `ChunkManager`: the explored chunks of every world, the delta of chunks
    explored since the last upload, the JSON files they are saved to, and
    the counting of upload batches behind the "sent" flag. */
module ExplorationStore {
  import opened JavaInts
  import opened Results
  import opened Coords

  /** Chunk sets by world name: `worldToChunks` and `newlyExploredChunks`. */
  type WorldChunks = map<string, set<ChunkCoord>>

  /** The set a world maps to, or the empty set `computeIfAbsent` would create. */
  function ChunksOf(m: WorldChunks, world: string): set<ChunkCoord>
  {
    if world in m then m[world] else {}
  }

  /** `computeIfAbsent(world, ...).add(c)`. */
  function AddChunk(m: WorldChunks, world: string, c: ChunkCoord): (r: WorldChunks)
    ensures r.Keys == m.Keys + {world}
    ensures ChunksOf(r, world) == ChunksOf(m, world) + {c}
    ensures forall w :: w in m && w != world ==> r[w] == m[w]
  {
    m[world := ChunksOf(m, world) + {c}]
  }

  // ----- recording explored chunks -----

  /** The two chunk maps together. */
  datatype Exploration = Exploration(explored: WorldChunks, delta: WorldChunks)

  /** `isChunkExplored`. */
  predicate Explored(s: Exploration, world: string, x: int32, z: int32)
  {
    world in s.explored && ChunkCoord(x, z) in s.explored[world]
  }

  /** `recordChunkIfNew`: an unexplored chunk joins the explored set and
      the delta of its world; an explored one changes nothing. */
  function Record(s: Exploration, world: string, x: int32, z: int32): Exploration
  {
    if Explored(s, world, x, z) then s
    else Exploration(AddChunk(s.explored, world, ChunkCoord(x, z)), AddChunk(s.delta, world, ChunkCoord(x, z)))
  }

  /** After recording, the chunk is explored, and the delta gained at most
      that chunk: it gained it exactly when it was new. */
  lemma RecordExplores(s: Exploration, world: string, x: int32, z: int32)
    ensures var r := Record(s, world, x, z);
            Explored(r, world, x, z) &&
            ChunksOf(r.delta, world) == (if Explored(s, world, x, z) then ChunksOf(s.delta, world)
                                         else ChunksOf(s.delta, world) + {ChunkCoord(x, z)}) &&
            (forall w :: w != world ==> ChunksOf(r.explored, w) == ChunksOf(s.explored, w) &&
                                        ChunksOf(r.delta, w) == ChunksOf(s.delta, w))
  {
    var r := Record(s, world, x, z);
    forall w | w != world
      ensures ChunksOf(r.explored, w) == ChunksOf(s.explored, w) && ChunksOf(r.delta, w) == ChunksOf(s.delta, w)
    {
    }
  }

  /** Recording is idempotent. */
  lemma RecordIdempotent(s: Exploration, world: string, x: int32, z: int32)
    ensures Record(Record(s, world, x, z), world, x, z) == Record(s, world, x, z)
  {
    RecordExplores(s, world, x, z);
  }

  /** Every chunk of the delta is explored in its world. */
  ghost predicate DeltaExplored(s: Exploration)
  {
    forall w, c :: w in s.delta && c in s.delta[w] ==> c in ChunksOf(s.explored, w)
  }

  /** Recording keeps the delta inside the explored chunks. */
  lemma RecordKeepsDeltaExplored(s: Exploration, world: string, x: int32, z: int32)
    requires DeltaExplored(s)
    ensures DeltaExplored(Record(s, world, x, z))
  {
    var r := Record(s, world, x, z);
    forall w, c | w in r.delta && c in r.delta[w]
      ensures c in ChunksOf(r.explored, w)
    {
      RecordExplores(s, world, x, z);
      assert c in ChunksOf(r.delta, w);
    }
  }

  // ----- regions to re-render -----

  /** The regions holding a set of chunks. */
  function RegionSet(chunks: set<ChunkCoord>): set<RegionCoord>
  {
    set c | c in chunks :: RegionOfChunk(c.x, c.z)
  }

  /** `getRegionsToRerender` as a value: every world of the delta, with the regions of its chunks. */
  function RegionsOf(delta: WorldChunks): map<string, set<RegionCoord>>
  {
    map w | w in delta :: RegionSet(delta[w])
  }

  /** Every world of the delta is a key, even with no chunks; a region is
      listed exactly when a chunk of the delta lies in its 32x32 square. */
  lemma RegionsCoverDelta(delta: WorldChunks, w: string, r: RegionCoord)
    ensures var regions := RegionsOf(delta);
            regions.Keys == delta.Keys &&
            (w in delta ==> (r in regions[w] <==>
              exists c :: c in delta[w] && 32 * r.x <= c.x < 32 * r.x + 32 && 32 * r.z <= c.z < 32 * r.z + 32))
  {
    if w in delta {
      if r in RegionsOf(delta)[w] {
        var c :| c in delta[w] && RegionOfChunk(c.x, c.z) == r;
        RegionMembership(r, c.x, c.z);
      }
      forall c | c in delta[w] && 32 * r.x <= c.x < 32 * r.x + 32 && 32 * r.z <= c.z < 32 * r.z + 32
        ensures r in RegionsOf(delta)[w]
      {
        RegionMembership(r, c.x, c.z);
      }
    }
  }

  // ----- the JSON files -----

  /** A parsed `explored_chunks_<world>.json`: its `world` and `dimension`
      values (missing or `null` as `None`) and its `exploredChunks` in file order. */
  datatype ChunkFile = ChunkFile(world: Option<string>, dimension: Option<string>, exploredChunks: seq<ChunkCoord>)

  /** The save files by name; `None` for a file that exists but cannot be
      read or parsed. */
  type SaveFolder = map<string, Option<ChunkFile>>

  /** The file a world's chunks are saved to. */
  function FileName(world: string): string
  {
    "explored_chunks_" + world + ".json"
  }

  /** Different worlds are saved to different files. */
  lemma FileNameInjective(w1: string, w2: string)
    requires FileName(w1) == FileName(w2)
    ensures w1 == w2
  {
    var p := "explored_chunks_";
    assert |w1| == |w2|;
    assert w1 == FileName(w1)[|p|..|p| + |w1|];
    assert w2 == FileName(w2)[|p|..|p| + |w2|];
  }

  /** The chunks of `order` (the new set in its iteration order) not
      already in the file, in that order. */
  function Unique(order: seq<ChunkCoord>, existing: set<ChunkCoord>): (r: seq<ChunkCoord>)
    ensures forall c :: c in r <==> c in order && c !in existing
    ensures |r| <= |order|
  {
    if order == [] then []
    else (if order[0] in existing then [] else [order[0]]) + Unique(order[1..], existing)
  }

  predicate NoDuplicates(s: seq<ChunkCoord>)
  {
    forall i, j :: 0 <= i < j < |s| ==> s[i] != s[j]
  }

  lemma {:induction false} UniqueNoDuplicates(order: seq<ChunkCoord>, existing: set<ChunkCoord>)
    requires NoDuplicates(order)
    ensures NoDuplicates(Unique(order, existing))
  {
    if order != [] {
      UniqueNoDuplicates(order[1..], existing);
      assert order[0] !in order[1..];
    }
  }

  /** A sequence without duplicates lists as many elements as its set has. */
  lemma {:induction false} DistinctCount(s: seq<ChunkCoord>)
    requires NoDuplicates(s)
    ensures |set c | c in s| == |s|
  {
    if s != [] {
      DistinctCount(s[1..]);
      assert (set c | c in s) == (set c | c in s[1..]) + {s[0]};
      assert s[0] !in s[1..];
    }
  }

  /** The merge of the save: the existing entries in their order, then the
      new chunks not already present; and how many were appended. */
  method AppendUnique(chunkArray: seq<ChunkCoord>, order: seq<ChunkCoord>) returns (merged: seq<ChunkCoord>, uniqueChunks: nat)
    ensures merged == chunkArray + Unique(order, set c | c in chunkArray)
    ensures uniqueChunks == |Unique(order, set c | c in chunkArray)|
  {
    var existingKeys := set c | c in chunkArray;
    merged, uniqueChunks := chunkArray, 0;
    var i := 0;
    ghost var added: seq<ChunkCoord> := [];
    while i < |order|
      invariant 0 <= i <= |order| && added == Unique(order[..i], existingKeys)
      invariant merged == chunkArray + added && uniqueChunks == |added|
    {
      UniqueStep(order, i, existingKeys);
      if order[i] !in existingKeys {
        SnocAssoc(chunkArray, added, order[i]);
        merged := merged + [order[i]];
        added := added + [order[i]];
        uniqueChunks := uniqueChunks + 1;
      } else {
        assert added + [] == added;
      }
      i := i + 1;
    }
    assert order[..i] == order;
  }

  lemma SnocAssoc(a: seq<ChunkCoord>, b: seq<ChunkCoord>, x: ChunkCoord)
    ensures (a + b) + [x] == a + (b + [x])
  {
  }

  lemma UniqueStep(order: seq<ChunkCoord>, i: nat, existing: set<ChunkCoord>)
    requires i < |order|
    ensures Unique(order[..i + 1], existing) == Unique(order[..i], existing) + (if order[i] in existing then [] else [order[i]])
  {
    assert order[..i + 1] == order[..i] + [order[i]];
    UniqueSnoc(order[..i], order[i], existing);
  }

  lemma {:induction false} UniqueSnoc(s: seq<ChunkCoord>, c: ChunkCoord, existing: set<ChunkCoord>)
    ensures Unique(s + [c], existing) == Unique(s, existing) + (if c in existing then [] else [c])
  {
    if s == [] {
      assert Unique([c], existing) == (if c in existing then [] else [c]) + Unique([], existing);
    } else {
      assert (s + [c])[1..] == s[1..] + [c];
      UniqueSnoc(s[1..], c, existing);
    }
  }

  /** The save of one world's new chunks keeps the file's entries in order,
      appends exactly the new chunks it lacks, so that the file lists every
      chunk once when it did before, and counts the appended ones. */
  lemma MergeProperties(chunkArray: seq<ChunkCoord>, order: seq<ChunkCoord>)
    requires NoDuplicates(chunkArray) && NoDuplicates(order)
    ensures var existing := set c | c in chunkArray;
            var merged := chunkArray + Unique(order, existing);
            merged[..|chunkArray|] == chunkArray &&
            (forall c :: c in merged <==> c in chunkArray || c in order) &&
            NoDuplicates(merged) &&
            |Unique(order, existing)| == |(set c | c in order) - existing|
  {
    var existing := set c | c in chunkArray;
    var u := Unique(order, existing);
    UniqueNoDuplicates(order, existing);
    var merged := chunkArray + u;
    forall i, j | 0 <= i < j < |merged|
      ensures merged[i] != merged[j]
    {
      if i < |chunkArray| && j >= |chunkArray| {
        assert merged[j] in u;
      }
    }
    DistinctCount(u);
    assert (set c | c in u) == (set c | c in order) - existing;
  }

  /** Saving the same new chunks again appends nothing. */
  lemma MergeTwice(chunkArray: seq<ChunkCoord>, order: seq<ChunkCoord>)
    ensures var merged := chunkArray + Unique(order, set c | c in chunkArray);
            Unique(order, set c | c in merged) == []
  {
    var merged := chunkArray + Unique(order, set c | c in chunkArray);
    UniqueAllPresent(order, set c | c in merged);
  }

  lemma {:induction false} UniqueAllPresent(order: seq<ChunkCoord>, existing: set<ChunkCoord>)
    requires forall c :: c in order ==> c in existing
    ensures Unique(order, existing) == []
  {
    if order != [] {
      UniqueAllPresent(order[1..], existing);
    }
  }

  /** The file written for `world` after merging `order` into it: keys
      `world`, `dimension` (defaulting to "unknown") and the merged
      `exploredChunks`. */
  function SavedFile(world: string, old_: ChunkFile, order: seq<ChunkCoord>): ChunkFile
  {
    var dimension := if old_.dimension.Some? then old_.dimension.value else "unknown";
    ChunkFile(Some(world), Some(dimension), old_.exploredChunks + Unique(order, set c | c in old_.exploredChunks))
  }

  /** Whether the save rewrites the file of `world`: it has new chunks and
      its file exists and can be read. */
  predicate Rewrites(fs: SaveFolder, delta: WorldChunks, world: string)
  {
    world in delta && delta[world] != {} && FileName(world) in fs && fs[FileName(world)].Some?
  }

  /** The save folder after `saveNewlyExploredChunksToDisk`, file by file. */
  ghost function SavedFolder(fs: SaveFolder, delta: WorldChunks, orders: map<string, seq<ChunkCoord>>): (r: SaveFolder)
    requires forall w :: w in delta ==> w in orders
    ensures r.Keys == fs.Keys
  {
    map n | n in fs ::
      if exists w :: Rewrites(fs, delta, w) && n == FileName(w) then
        var w :| Rewrites(fs, delta, w) && n == FileName(w);
        Some(SavedFile(w, fs[n].value, orders[w]))
      else fs[n]
  }

  /** How each world's new set is iterated: a listing of it without duplicates. */
  ghost predicate ListsSets(orders: map<string, seq<ChunkCoord>>, delta: WorldChunks)
  {
    forall w :: w in delta ==> w in orders && NoDuplicates(orders[w]) && (set c | c in orders[w]) == delta[w]
  }

  // ----- batches -----

  /** `(int) Math.ceil(n / (double) batchSize)` for a non-empty set: the
      ceiling for a positive batch size, `Integer.MAX_VALUE` from the
      infinite quotient of a zero one, and the truncated negative quotient
      of a negative one. */
  function BatchCount(n: nat, batchSize: int32): (r: int)
    requires n > 0
    ensures batchSize > 0 ==> (r - 1) * batchSize < n <= r * batchSize && r >= 1
  {
    if batchSize > 0 then
      var r := (n + batchSize - 1) / batchSize;
      DivModUnique(n + batchSize - 1, batchSize, r, (n + batchSize - 1) % batchSize);
      r
    else if batchSize == 0 then INT_MAX
    else var d: int := batchSize; -(n / -d)
  }

  /** The batches one world contributes: none for an empty set or an unloaded world. */
  function Contribution(m: WorldChunks, live: set<string>, batchSize: int32, w: string): int
  {
    if w in m && m[w] != {} && w in live then BatchCount(|m[w]|, batchSize) else 0
  }

  /** The batch total over `worlds`, before 32-bit wrap-around. */
  ghost function TotalOf(m: WorldChunks, live: set<string>, batchSize: int32, worlds: set<string>): int
    decreases |worlds|
  {
    if worlds == {} then 0
    else
      var w :| w in worlds;
      Contribution(m, live, batchSize, w) + TotalOf(m, live, batchSize, worlds - {w})
  }

  /** The total does not depend on which world is taken first. */
  lemma {:induction false} TotalOfRemove(m: WorldChunks, live: set<string>, batchSize: int32, worlds: set<string>, w: string)
    requires w in worlds
    ensures TotalOf(m, live, batchSize, worlds) == Contribution(m, live, batchSize, w) + TotalOf(m, live, batchSize, worlds - {w})
    decreases |worlds|
  {
    var v :| v in worlds && TotalOf(m, live, batchSize, worlds) ==
                            Contribution(m, live, batchSize, v) + TotalOf(m, live, batchSize, worlds - {v});
    if v != w {
      TotalOfRemove(m, live, batchSize, worlds - {v}, w);
      TotalOfRemove(m, live, batchSize, worlds - {w}, v);
      assert worlds - {v} - {w} == worlds - {w} - {v};
    }
  }

  /** With a positive batch size and no overflow, the total is zero exactly
      when no loaded world has chunks to send. */
  lemma {:induction false} TotalZero(m: WorldChunks, live: set<string>, batchSize: int32, worlds: set<string>)
    requires batchSize > 0
    ensures TotalOf(m, live, batchSize, worlds) >= 0
    ensures TotalOf(m, live, batchSize, worlds) == 0 <==> forall w :: w in worlds ==> Contribution(m, live, batchSize, w) == 0
    decreases |worlds|
  {
    if worlds != {} {
      var w :| w in worlds;
      TotalOfRemove(m, live, batchSize, worlds, w);
      TotalZero(m, live, batchSize, worlds - {w});
    }
  }

  /** The chunk sets streamed: those of loaded worlds with at least one batch. */
  function Streamed(m: WorldChunks, live: set<string>, batchSize: int32): WorldChunks
  {
    StreamedOf(m, live, batchSize, m.Keys)
  }

  /** Saving twice with the same delta leaves the folder as the first save left it. */
  lemma SaveTwice(fs: SaveFolder, delta: WorldChunks, orders: map<string, seq<ChunkCoord>>)
    requires forall w :: w in delta ==> w in orders
    ensures var once := SavedFolder(fs, delta, orders);
            SavedFolder(once, delta, orders) == once
  {
    var once := SavedFolder(fs, delta, orders);
    forall n | n in once
      ensures SavedFolder(once, delta, orders)[n] == once[n]
    {
      SaveTwiceAt(fs, delta, orders, n);
    }
  }

  lemma SaveTwiceAt(fs: SaveFolder, delta: WorldChunks, orders: map<string, seq<ChunkCoord>>, n: string)
    requires forall w :: w in delta ==> w in orders
    requires n in fs
    ensures var once := SavedFolder(fs, delta, orders);
            SavedFolder(once, delta, orders)[n] == once[n]
  {
    var once := SavedFolder(fs, delta, orders);
    if w :| Rewrites(fs, delta, w) && n == FileName(w) {
      RewrittenFile(fs, delta, orders, w);
      RewritesKept(fs, delta, orders, w);
      RewrittenFile(once, delta, orders, w);
      SavedFileTwice(w, fs[n].value, orders[w]);
    } else {
      assert once[n] == fs[n];
      forall w | Rewrites(once, delta, w)
        ensures n != FileName(w)
      {
        RewritesKept(fs, delta, orders, w);
      }
    }
  }

  /** A world whose file the save rewrites still has it rewritable afterwards, and no other world does. */
  lemma RewritesKept(fs: SaveFolder, delta: WorldChunks, orders: map<string, seq<ChunkCoord>>, w: string)
    requires forall w :: w in delta ==> w in orders
    ensures Rewrites(SavedFolder(fs, delta, orders), delta, w) == Rewrites(fs, delta, w)
  {
    if Rewrites(fs, delta, w) {
      RewrittenFile(fs, delta, orders, w);
    }
  }

  /** Merging the same chunks into a merged file changes nothing. */
  lemma SavedFileTwice(w: string, f: ChunkFile, order: seq<ChunkCoord>)
    ensures SavedFile(w, SavedFile(w, f, order), order) == SavedFile(w, f, order)
  {
    MergeTwice(f.exploredChunks, order);
  }

  /** The file of a rewritten world is its merged file. */
  lemma RewrittenFile(fs: SaveFolder, delta: WorldChunks, orders: map<string, seq<ChunkCoord>>, w: string)
    requires forall w :: w in delta ==> w in orders
    requires Rewrites(fs, delta, w)
    ensures SavedFolder(fs, delta, orders)[FileName(w)] == Some(SavedFile(w, fs[FileName(w)].value, orders[w]))
  {
    forall w2 | Rewrites(fs, delta, w2) && FileName(w) == FileName(w2)
      ensures w2 == w
    {
      FileNameInjective(w, w2);
    }
  }

  /** The file the save leaves for a world lists its old entries first, in
      their order, then exactly the new chunks they lack, each chunk once. */
  ghost predicate AppendsDelta(before: seq<ChunkCoord>, saved: Option<ChunkFile>, added: set<ChunkCoord>)
  {
    saved.Some? &&
    var after := saved.value.exploredChunks;
    |after| >= |before| && after[..|before|] == before &&
    (forall c :: c in after <==> c in before || c in added) &&
    NoDuplicates(after) &&
    |after| == |before| + |added - set c | c in before|
  }

  /** Saving a world whose new chunks `orders` lists appends to its file
      exactly the new chunks not already there. */
  lemma SaveAppendsDelta(fs: SaveFolder, delta: WorldChunks, orders: map<string, seq<ChunkCoord>>, w: string)
    requires ListsSets(orders, delta)
    requires Rewrites(fs, delta, w) && NoDuplicates(fs[FileName(w)].value.exploredChunks)
    ensures AppendsDelta(fs[FileName(w)].value.exploredChunks, SavedFolder(fs, delta, orders)[FileName(w)], delta[w])
  {
    RewrittenFile(fs, delta, orders, w);
    MergeProperties(fs[FileName(w)].value.exploredChunks, orders[w]);
  }

  // ----- loading -----

  /** The world a file belongs to: its `world` value, or "unknown". */
  function WorldOf(f: ChunkFile): string
  {
    if f.world.Some? then f.world.value else "unknown"
  }

  /** One file of `loadChunksFromAllJSONFiles`: a readable file replaces its
      world's set with the chunks it lists; an unreadable one is skipped. */
  function LoadFile(m: WorldChunks, f: Option<ChunkFile>): WorldChunks
  {
    if f.None? then m else m[WorldOf(f.value) := set c | c in f.value.exploredChunks]
  }

  /** `loadChunksFromAllJSONFiles` over the listed files, in listing order. */
  function Loaded(m: WorldChunks, files: seq<Option<ChunkFile>>): WorldChunks
  {
    if files == [] then m else LoadFile(Loaded(m, files[..|files| - 1]), files[|files| - 1])
  }

  /** The index of the last readable file of world `w`, if any. */
  function LastFileOf(files: seq<Option<ChunkFile>>, w: string): (r: Option<nat>)
    ensures r.Some? ==> r.value < |files| && files[r.value].Some? && WorldOf(files[r.value].value) == w
    ensures forall j :: (r.Some? ==> r.value < j) && 0 <= j < |files| ==> files[j].None? || WorldOf(files[j].value) != w
  {
    if files == [] then None
    else
      var last := files[|files| - 1];
      if last.Some? && WorldOf(last.value) == w then Some(|files| - 1)
      else LastFileOf(files[..|files| - 1], w)
  }

  /** After loading, a world holds exactly the chunks of its last readable
      file: a later file replaces an earlier one rather than merging, and a
      world without a file keeps what it had. */
  lemma {:induction false} LastFileWins(m: WorldChunks, files: seq<Option<ChunkFile>>, w: string)
    ensures ChunksOf(Loaded(m, files), w) ==
            match LastFileOf(files, w)
            case Some(i) => set c | c in files[i].value.exploredChunks
            case None => ChunksOf(m, w)
  {
    if files != [] {
      LastFileWins(m, files[..|files| - 1], w);
    }
  }

  /** `ChunkManager`'s state. */
  class ChunkManager {
    var worldToChunks: WorldChunks
    var newlyExploredChunks: WorldChunks
    var pendingBatchCount: int32
    var sentChunksToDatabase: bool

    function State(): Exploration
      reads this
    {
      Exploration(worldToChunks, newlyExploredChunks)
    }

    constructor ()
      ensures worldToChunks == map[] && newlyExploredChunks == map[]
      ensures pendingBatchCount == 0 && !sentChunksToDatabase
    {
      worldToChunks := map[];
      newlyExploredChunks := map[];
      pendingBatchCount := 0;
      sentChunksToDatabase := false;
    }

    /** `isChunkExplored`. */
    function IsChunkExplored(world: string, x: int32, z: int32): (r: bool)
      reads this
      ensures r == Explored(State(), world, x, z)
    {
      world in worldToChunks && ChunkCoord(x, z) in worldToChunks[world]
    }

    /** `recordChunkIfNew`. */
    method RecordChunkIfNew(world: string, x: int32, z: int32)
      modifies this
      ensures State() == Record(old(State()), world, x, z)
      ensures pendingBatchCount == old(pendingBatchCount) && sentChunksToDatabase == old(sentChunksToDatabase)
    {
      var key := ChunkCoord(x, z);
      if !IsChunkExplored(world, x, z) {
        worldToChunks := AddChunk(worldToChunks, world, key);
        newlyExploredChunks := AddChunk(newlyExploredChunks, world, key);
      }
    }

    /** `getRegionsToRerender`. */
    method GetRegionsToRerender() returns (regionsToRerender: map<string, set<RegionCoord>>)
      ensures regionsToRerender == RegionsOf(newlyExploredChunks)
    {
      regionsToRerender := map[];
      var todo := newlyExploredChunks.Keys;
      while todo != {}
        invariant todo <= newlyExploredChunks.Keys
        invariant regionsToRerender.Keys == newlyExploredChunks.Keys - todo
        invariant forall w :: w in regionsToRerender ==> regionsToRerender[w] == RegionSet(newlyExploredChunks[w])
        decreases |todo|
      {
        var world :| world in todo;
        var chunks := newlyExploredChunks[world];
        var regionSet := {};
        var rest := chunks;
        while rest != {}
          invariant rest <= chunks
          invariant regionSet == RegionSet(chunks - rest)
          decreases |rest|
        {
          var chunk :| chunk in rest;
          assert chunks - (rest - {chunk}) == (chunks - rest) + {chunk};
          regionSet := regionSet + {RegionOfChunk(chunk.x, chunk.z)};
          rest := rest - {chunk};
        }
        assert chunks - rest == chunks;
        regionsToRerender := regionsToRerender[world := regionSet];
        todo := todo - {world};
      }
    }

    /** The `onComplete` of the periodic upload: the regions to re-render
        are derived from the delta, and then the delta is cleared. */
    method TakeRegionsToRerender() returns (regions: map<string, set<RegionCoord>>)
      modifies this
      ensures regions == RegionsOf(old(newlyExploredChunks))
      ensures newlyExploredChunks == map[] && worldToChunks == old(worldToChunks)
      ensures pendingBatchCount == old(pendingBatchCount) && sentChunksToDatabase == old(sentChunksToDatabase)
    {
      regions := GetRegionsToRerender();
      newlyExploredChunks := map[];
    }

    /** `loadChunksFromAllJSONFiles`: `files` is the folder's `.json`
        listing, `None` when it cannot be listed. */
    method LoadChunksFromAllJSONFiles(files: Option<seq<Option<ChunkFile>>>)
      modifies this
      ensures worldToChunks == if files.None? then old(worldToChunks) else Loaded(old(worldToChunks), files.value)
      ensures newlyExploredChunks == old(newlyExploredChunks)
      ensures pendingBatchCount == old(pendingBatchCount) && sentChunksToDatabase == old(sentChunksToDatabase)
    {
      if files.None? {
        return;
      }
      var list := files.value;
      var i := 0;
      while i < |list|
        invariant 0 <= i <= |list|
        invariant worldToChunks == Loaded(old(worldToChunks), list[..i])
        invariant newlyExploredChunks == old(newlyExploredChunks)
        invariant pendingBatchCount == old(pendingBatchCount) && sentChunksToDatabase == old(sentChunksToDatabase)
      {
        assert list[..i + 1][..i] == list[..i];
        if list[i].Some? {
          var obj := list[i].value;
          var worldName := if obj.world.Some? then obj.world.value else "unknown";
          var chunkSet := SetOf(obj.exploredChunks);
          worldToChunks := worldToChunks[worldName := chunkSet];
        }
        i := i + 1;
      }
      assert list[..i] == list;
    }

    /** `sendChunksToDatabase`: the flag drops; with no batches at all it is
        raised again at once and `onComplete` is due (`completeNow`); else
        the pending count is set to the batch total and `valid` is streamed. */
    method SendChunksToDatabase(live: set<string>, batchSize: int32) returns (completeNow: bool, valid: WorldChunks)
      modifies this
      ensures var total := ToInt32(TotalOf(worldToChunks, live, batchSize, worldToChunks.Keys));
              completeNow == (total == 0) && sentChunksToDatabase == (total == 0) &&
              pendingBatchCount == (if total == 0 then old(pendingBatchCount) else total)
      ensures valid == Streamed(worldToChunks, live, batchSize)
      ensures worldToChunks == old(worldToChunks) && newlyExploredChunks == old(newlyExploredChunks)
    {
      sentChunksToDatabase := false;
      var totalBatches;
      totalBatches, valid := CountBatches(worldToChunks, live, batchSize);
      if totalBatches == 0 {
        sentChunksToDatabase := true;
        return true, valid;
      }
      pendingBatchCount := totalBatches;
      completeNow := false;
    }

    /** `sendNewChunksToDatabase`: as `sendChunksToDatabase` over the delta,
        except that with no batches `onComplete` is never run. */
    method SendNewChunksToDatabase(live: set<string>, batchSize: int32) returns (completeNow: bool, valid: WorldChunks)
      modifies this
      ensures var total := ToInt32(TotalOf(newlyExploredChunks, live, batchSize, newlyExploredChunks.Keys));
              !completeNow && sentChunksToDatabase == (total == 0) &&
              pendingBatchCount == (if total == 0 then old(pendingBatchCount) else total)
      ensures valid == Streamed(newlyExploredChunks, live, batchSize)
      ensures worldToChunks == old(worldToChunks) && newlyExploredChunks == old(newlyExploredChunks)
    {
      sentChunksToDatabase := false;
      var totalBatches;
      totalBatches, valid := CountBatches(newlyExploredChunks, live, batchSize);
      if totalBatches == 0 {
        sentChunksToDatabase := true;
        return false, valid;
      }
      pendingBatchCount := totalBatches;
      completeNow := false;
    }

    /** The per-batch callback of a send: the pending count drops by one
        (wrapping as an `int`), and once it is at most zero the flag is
        raised and `onComplete` is due. */
    method OnBatchSent() returns (completeNow: bool)
      modifies this
      ensures pendingBatchCount == ToInt32(old(pendingBatchCount) - 1)
      ensures completeNow == (pendingBatchCount <= 0)
      ensures sentChunksToDatabase == (old(sentChunksToDatabase) || completeNow)
      ensures worldToChunks == old(worldToChunks) && newlyExploredChunks == old(newlyExploredChunks)
    {
      pendingBatchCount := ToInt32(pendingBatchCount - 1);
      completeNow := pendingBatchCount <= 0;
      if completeNow {
        sentChunksToDatabase := true;
      }
    }

    /** The periodic task: only while the flag is up, the delta is saved to
        the folder and then sent, which drops the flag until the last batch
        is acknowledged (or keeps it up when there is nothing to send);
        otherwise nothing happens. */
    method PeriodicTick(fs: SaveFolder, orders: map<string, seq<ChunkCoord>>, live: set<string>, batchSize: int32)
      returns (saved: SaveFolder, valid: WorldChunks)
      requires ListsSets(orders, newlyExploredChunks)
      modifies this
      ensures worldToChunks == old(worldToChunks) && newlyExploredChunks == old(newlyExploredChunks)
      ensures !old(sentChunksToDatabase) ==>
                (saved == fs && valid == map[] &&
                 sentChunksToDatabase == old(sentChunksToDatabase) && pendingBatchCount == old(pendingBatchCount))
      ensures old(sentChunksToDatabase) ==>
                var total := ToInt32(TotalOf(newlyExploredChunks, live, batchSize, newlyExploredChunks.Keys));
                saved == SavedFolder(fs, newlyExploredChunks, orders) &&
                valid == Streamed(newlyExploredChunks, live, batchSize) &&
                sentChunksToDatabase == (total == 0) &&
                pendingBatchCount == (if total == 0 then old(pendingBatchCount) else total)
    {
      saved, valid := fs, map[];
      if sentChunksToDatabase {
        var sets;
        saved, sets := SaveNewlyExploredChunksToDisk(fs, orders);
        var completeNow;
        completeNow, valid := SendNewChunksToDatabase(live, batchSize);
      }
    }

    /** `saveNewlyExploredChunksToDisk` over the save folder `fs`; `orders`
        gives the iteration order of each new set. Returns the folder and
        the number of worlds with new chunks. */
    method SaveNewlyExploredChunksToDisk(fs: SaveFolder, orders: map<string, seq<ChunkCoord>>)
      returns (saved: SaveFolder, newChunkSets: nat)
      requires ListsSets(orders, newlyExploredChunks)
      ensures saved == SavedFolder(fs, newlyExploredChunks, orders)
      ensures forall w :: Rewrites(fs, newlyExploredChunks, w) && NoDuplicates(fs[FileName(w)].value.exploredChunks) ==>
                AppendsDelta(fs[FileName(w)].value.exploredChunks, saved[FileName(w)], newlyExploredChunks[w])
      ensures newChunkSets == |NonEmptyWorlds(newlyExploredChunks, newlyExploredChunks.Keys)|
    {
      saved, newChunkSets := SaveWorlds(fs, newlyExploredChunks, orders);
    }
  }

  /** The loop of `saveNewlyExploredChunksToDisk` over the delta's worlds:
      each world with new chunks is written and counted. */
  method SaveWorlds(fs: SaveFolder, delta: WorldChunks, orders: map<string, seq<ChunkCoord>>)
    returns (saved: SaveFolder, newChunkSets: nat)
    requires ListsSets(orders, delta)
    ensures saved == SavedFolder(fs, delta, orders)
    ensures forall w :: Rewrites(fs, delta, w) && NoDuplicates(fs[FileName(w)].value.exploredChunks) ==>
              AppendsDelta(fs[FileName(w)].value.exploredChunks, saved[FileName(w)], delta[w])
    ensures newChunkSets == |NonEmptyWorlds(delta, delta.Keys)|
  {
    saved, newChunkSets := fs, 0;
    var todo := delta.Keys;
    while todo != {}
      invariant todo <= delta.Keys
      invariant SavedUpTo(fs, delta, orders, todo, saved)
      invariant newChunkSets == |NonEmptyWorlds(delta, delta.Keys - todo)|
      decreases |todo|
    {
      var worldName :| worldName in todo;
      var newChunks := delta[worldName];
      NonEmptyStep(delta, todo, worldName);
      ghost var before := saved;
      if newChunks != {} {
        newChunkSets := newChunkSets + 1;
        saved := SaveWorld(saved, worldName, orders[worldName]);
      }
      SavedNext(fs, delta, orders, todo, worldName, before, saved);
      todo := todo - {worldName};
    }
    SavedAll(fs, delta, orders, saved);
    assert delta.Keys - todo == delta.Keys;
    forall w | Rewrites(fs, delta, w) && NoDuplicates(fs[FileName(w)].value.exploredChunks)
      ensures AppendsDelta(fs[FileName(w)].value.exploredChunks, saved[FileName(w)], delta[w])
    {
      SaveAppendsDelta(fs, delta, orders, w);
    }
  }

  /** Once no world is left, the folder saved so far is the saved folder. */
  lemma SavedAll(fs: SaveFolder, delta: WorldChunks, orders: map<string, seq<ChunkCoord>>, saved: SaveFolder)
    requires forall w :: w in delta ==> w in orders
    requires SavedUpTo(fs, delta, orders, {}, saved)
    ensures saved == SavedFolder(fs, delta, orders)
  {
    SaveStepDone(fs, delta, orders);
  }

  /** The set of a file's listed chunks, built one `add` at a time. */
  method SetOf(list: seq<ChunkCoord>) returns (chunkSet: set<ChunkCoord>)
    ensures chunkSet == set c | c in list
  {
    chunkSet := {};
    var i := 0;
    while i < |list|
      invariant 0 <= i <= |list| && chunkSet == set c | c in list[..i]
    {
      assert list[..i + 1] == list[..i] + [list[i]];
      chunkSet := chunkSet + {list[i]};
      i := i + 1;
    }
    assert list[..i] == list;
  }

  /** The batch-counting loop of both sends: the 32-bit total over the
      worlds, and the chunk sets of the worlds that contribute. */
  method CountBatches(chunkSets: WorldChunks, live: set<string>, batchSize: int32)
    returns (totalBatches: int32, valid: WorldChunks)
    ensures totalBatches == ToInt32(TotalOf(chunkSets, live, batchSize, chunkSets.Keys))
    ensures valid == Streamed(chunkSets, live, batchSize)
  {
    totalBatches, valid := 0, map[];
    var todo := chunkSets.Keys;
    while todo != {}
      invariant todo <= chunkSets.Keys
      invariant totalBatches == ToInt32(TotalOf(chunkSets, live, batchSize, chunkSets.Keys - todo))
      invariant valid == StreamedOf(chunkSets, live, batchSize, chunkSets.Keys - todo)
      decreases |todo|
    {
      var worldName :| worldName in todo;
      totalBatches, valid := CountWorld(chunkSets, live, batchSize, todo, worldName, totalBatches, valid);
      todo := todo - {worldName};
    }
    assert chunkSets.Keys - todo == chunkSets.Keys;
  }

  /** One world of the counting loop: its batches join the wrapped total,
      and its set the streamed ones when it has any. */
  method CountWorld(chunkSets: WorldChunks, live: set<string>, batchSize: int32, todo: set<string>, worldName: string,
                    totalBatches: int32, valid: WorldChunks) returns (total': int32, valid': WorldChunks)
    requires todo <= chunkSets.Keys && worldName in todo
    requires totalBatches == ToInt32(TotalOf(chunkSets, live, batchSize, chunkSets.Keys - todo))
    requires valid == StreamedOf(chunkSets, live, batchSize, chunkSets.Keys - todo)
    ensures total' == ToInt32(TotalOf(chunkSets, live, batchSize, chunkSets.Keys - (todo - {worldName})))
    ensures valid' == StreamedOf(chunkSets, live, batchSize, chunkSets.Keys - (todo - {worldName}))
  {
    var chunks := chunkSets[worldName];
    var batchCount := if chunks == {} || worldName !in live then 0 else BatchCount(|chunks|, batchSize);
    CountStep(chunkSets, live, batchSize, todo, worldName);
    total', valid' := totalBatches, valid;
    if batchCount != 0 {
      total' := ToInt32(totalBatches + batchCount);
      valid' := valid[worldName := chunks];
    }
  }

  /** The chunk sets of the contributing worlds among `done`. */
  function StreamedOf(m: WorldChunks, live: set<string>, batchSize: int32, done: set<string>): WorldChunks
  {
    map w | w in m && w in done && Contribution(m, live, batchSize, w) != 0 :: m[w]
  }

  /** Counting one more world `w` of `todo` adds its contribution to the
      wrapped total and its set to the streamed ones when it contributes. */
  lemma CountStep(m: WorldChunks, live: set<string>, batchSize: int32, todo: set<string>, w: string)
    requires todo <= m.Keys && w in todo
    ensures var done := m.Keys - todo;
            var c := Contribution(m, live, batchSize, w);
            ToInt32(TotalOf(m, live, batchSize, m.Keys - (todo - {w}))) == ToInt32(ToInt32(TotalOf(m, live, batchSize, done)) + c) &&
            StreamedOf(m, live, batchSize, m.Keys - (todo - {w})) ==
              (if c == 0 then StreamedOf(m, live, batchSize, done) else StreamedOf(m, live, batchSize, done)[w := m[w]])
  {
    var done := m.Keys - todo;
    assert m.Keys - (todo - {w}) == done + {w};
    CountTotalStep(m, live, batchSize, done, w);
    StreamedStep(m, live, batchSize, done, w);
  }

  lemma CountTotalStep(m: WorldChunks, live: set<string>, batchSize: int32, done: set<string>, w: string)
    requires done <= m.Keys && w in m && w !in done
    ensures ToInt32(TotalOf(m, live, batchSize, done + {w}))
              == ToInt32(ToInt32(TotalOf(m, live, batchSize, done)) + Contribution(m, live, batchSize, w))
  {
    TotalOfRemove(m, live, batchSize, done + {w}, w);
    assert done + {w} - {w} == done;
    WrapInner(TotalOf(m, live, batchSize, done), Contribution(m, live, batchSize, w));
  }

  lemma StreamedStep(m: WorldChunks, live: set<string>, batchSize: int32, done: set<string>, w: string)
    requires w in m && w !in done
    ensures var c := Contribution(m, live, batchSize, w);
            StreamedOf(m, live, batchSize, done + {w}) ==
              (if c == 0 then StreamedOf(m, live, batchSize, done) else StreamedOf(m, live, batchSize, done)[w := m[w]])
  {
  }

  /** With a positive batch size and a total that fits an `int`, a send
      counts zero batches exactly when there is nothing to stream. */
  lemma NothingToSend(m: WorldChunks, live: set<string>, batchSize: int32)
    requires batchSize > 0 && TotalOf(m, live, batchSize, m.Keys) <= INT_MAX
    ensures ToInt32(TotalOf(m, live, batchSize, m.Keys)) == 0 <==> Streamed(m, live, batchSize) == map[]
  {
    TotalZero(m, live, batchSize, m.Keys);
    if Streamed(m, live, batchSize) == map[] {
      forall w | w in m.Keys
        ensures Contribution(m, live, batchSize, w) == 0
      {
        assert w !in Streamed(m, live, batchSize);
      }
    } else {
      var w :| w in Streamed(m, live, batchSize);
    }
  }

  /** The worlds of `worlds` with new chunks. */
  function NonEmptyWorlds(delta: WorldChunks, worlds: set<string>): set<string>
  {
    set w | w in worlds && w in delta && delta[w] != {}
  }

  lemma NonEmptyStep(delta: WorldChunks, todo: set<string>, world: string)
    requires world in todo && todo <= delta.Keys
    ensures |NonEmptyWorlds(delta, delta.Keys - (todo - {world}))| ==
            |NonEmptyWorlds(delta, delta.Keys - todo)| + if delta[world] != {} then 1 else 0
  {
    assert NonEmptyWorlds(delta, delta.Keys - (todo - {world})) ==
           NonEmptyWorlds(delta, delta.Keys - todo) + (if delta[world] != {} then {world} else {});
  }

  /** One world of the save: its file, when present and readable, rewritten
      with the new chunks merged in. */
  method SaveWorld(fs: SaveFolder, worldName: string, order: seq<ChunkCoord>) returns (saved: SaveFolder)
    ensures var file := FileName(worldName);
            saved == if file in fs && fs[file].Some? then fs[file := Some(SavedFile(worldName, fs[file].value, order))] else fs
  {
    var file := FileName(worldName);
    if file !in fs || fs[file].None? {
      return fs;
    }
    var obj := fs[file].value;
    var dimensionName := if obj.dimension.Some? then obj.dimension.value else "unknown";
    var merged, uniqueChunks := AppendUnique(obj.exploredChunks, order);
    saved := fs[file := Some(ChunkFile(Some(worldName), Some(dimensionName), merged))];
  }

  /** The folder once the worlds outside `todo` are saved. */
  ghost predicate SavedUpTo(fs: SaveFolder, delta: WorldChunks, orders: map<string, seq<ChunkCoord>>, todo: set<string>,
                            saved: SaveFolder)
    requires forall w :: w in delta ==> w in orders
  {
    saved.Keys == fs.Keys && forall n :: n in fs ==> saved[n] == SaveStep(fs, delta, orders, todo, n)
  }

  /** Saving one more world of `todo` keeps `SavedUpTo`. */
  lemma SavedNext(fs: SaveFolder, delta: WorldChunks, orders: map<string, seq<ChunkCoord>>, todo: set<string>,
                  world: string, saved: SaveFolder, saved': SaveFolder)
    requires forall w :: w in delta ==> w in orders
    requires world in todo && world in delta && SavedUpTo(fs, delta, orders, todo, saved)
    requires var file := FileName(world);
             saved' == if delta[world] != {} && file in saved && saved[file].Some?
                       then saved[file := Some(SavedFile(world, saved[file].value, orders[world]))] else saved
    ensures SavedUpTo(fs, delta, orders, todo - {world}, saved')
  {
    SaveStepNext(fs, delta, orders, todo, world);
    var file := FileName(world);
    if file in fs {
      SaveStepPending(fs, delta, orders, todo, world);
    }
  }

  /** A world still to be saved has its file as it was. */
  lemma SaveStepPending(fs: SaveFolder, delta: WorldChunks, orders: map<string, seq<ChunkCoord>>, todo: set<string>, world: string)
    requires forall w :: w in delta ==> w in orders
    requires world in todo && FileName(world) in fs
    ensures SaveStep(fs, delta, orders, todo, FileName(world)) == fs[FileName(world)]
  {
    forall w | Rewrites(fs, delta, w) && FileName(world) == FileName(w)
      ensures w == world
    {
      FileNameInjective(w, world);
    }
  }

  /** File `n` once the worlds outside `todo` are saved. */
  ghost function SaveStep(fs: SaveFolder, delta: WorldChunks, orders: map<string, seq<ChunkCoord>>, todo: set<string>, n: string): Option<ChunkFile>
    requires forall w :: w in delta ==> w in orders
    requires n in fs
  {
    if exists w :: w !in todo && Rewrites(fs, delta, w) && n == FileName(w) then
      var w :| w !in todo && Rewrites(fs, delta, w) && n == FileName(w);
      Some(SavedFile(w, fs[n].value, orders[w]))
    else fs[n]
  }

  lemma SaveStepNext(fs: SaveFolder, delta: WorldChunks, orders: map<string, seq<ChunkCoord>>, todo: set<string>, world: string)
    requires forall w :: w in delta ==> w in orders
    requires world in todo
    ensures forall n :: n in fs ==>
      SaveStep(fs, delta, orders, todo - {world}, n) ==
        if Rewrites(fs, delta, world) && n == FileName(world) then Some(SavedFile(world, fs[n].value, orders[world]))
        else SaveStep(fs, delta, orders, todo, n)
  {
    forall n | n in fs
      ensures SaveStep(fs, delta, orders, todo - {world}, n) ==
        if Rewrites(fs, delta, world) && n == FileName(world) then Some(SavedFile(world, fs[n].value, orders[world]))
        else SaveStep(fs, delta, orders, todo, n)
    {
      if exists w :: w !in todo - {world} && Rewrites(fs, delta, w) && n == FileName(w) {
        var w :| w !in todo - {world} && Rewrites(fs, delta, w) && n == FileName(w);
        forall w2 | Rewrites(fs, delta, w2) && n == FileName(w2)
          ensures w2 == w
        {
          FileNameInjective(w, w2);
        }
      }
    }
  }

  lemma SaveStepDone(fs: SaveFolder, delta: WorldChunks, orders: map<string, seq<ChunkCoord>>)
    requires forall w :: w in delta ==> w in orders
    ensures forall n :: n in fs ==> SaveStep(fs, delta, orders, {}, n) == SavedFolder(fs, delta, orders)[n]
  {
    forall n | n in fs
      ensures SaveStep(fs, delta, orders, {}, n) == SavedFolder(fs, delta, orders)[n]
    {
      if exists w :: Rewrites(fs, delta, w) && n == FileName(w) {
        var w :| Rewrites(fs, delta, w) && n == FileName(w);
        forall w2 | Rewrites(fs, delta, w2) && n == FileName(w2)
          ensures w2 == w
        {
          FileNameInjective(w, w2);
        }
      }
    }
  }
}
