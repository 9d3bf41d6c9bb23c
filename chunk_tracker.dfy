/** `ChunkTracker`: the event listener that records chunks as players walk
    into them and that counts block changes near the surface of each chunk,
    promoting a chunk to the re-render delta once its count reaches the
    configured threshold. */
module ChunkEvents {
  import opened JavaInts
  import opened Coords
  import opened ExplorationStore

  /** The block changes counted so far, by chunk; the map is static and
      shared by every world. */
  type Changes = map<ChunkCoord, set<BlockCoord>>

  /** The set of a chunk, or the empty set `computeIfAbsent` would create. */
  function ChangedIn(m: Changes, c: ChunkCoord): set<BlockCoord>
  {
    if c in m then m[c] else {}
  }

  // ----- moving between chunks -----

  /** `onChunkExplore`: a move that stays in its chunk does nothing; one that
      enters another chunk records the destination chunk if it is new. */
  function Moved(s: Exploration, world: string, from: BlockCoord, to: BlockCoord): Exploration
  {
    var src := ChunkOfBlock(from);
    var dst := ChunkOfBlock(to);
    if src.x == dst.x && src.z == dst.z then s
    else if Explored(s, world, dst.x, dst.z) then s
    else Record(s, world, dst.x, dst.z)
  }

  /** A move inside one chunk changes nothing, whatever the heights; a move
      into another chunk leaves that chunk explored, puts it in the delta
      exactly when it was unexplored, and touches no other world. */
  lemma MoveExplores(s: Exploration, world: string, from: BlockCoord, to: BlockCoord)
    ensures var r := Moved(s, world, from, to);
            var dst := ChunkOfBlock(to);
            (ChunkOfBlock(from) == dst ==> r == s) &&
            (ChunkOfBlock(from) != dst ==>
               Explored(r, world, dst.x, dst.z) &&
               ChunksOf(r.delta, world) == (if Explored(s, world, dst.x, dst.z) then ChunksOf(s.delta, world)
                                            else ChunksOf(s.delta, world) + {dst})) &&
            (forall w :: w != world ==> ChunksOf(r.explored, w) == ChunksOf(s.explored, w) &&
                                        ChunksOf(r.delta, w) == ChunksOf(s.delta, w))
  {
    var dst := ChunkOfBlock(to);
    RecordExplores(s, world, dst.x, dst.z);
  }

  /** Repeating a move changes nothing more. */
  lemma MoveIdempotent(s: Exploration, world: string, from: BlockCoord, to: BlockCoord)
    ensures Moved(Moved(s, world, from, to), world, from, to) == Moved(s, world, from, to)
  {
    var dst := ChunkOfBlock(to);
    RecordExplores(s, world, dst.x, dst.z);
  }

  // ----- block changes near the top -----

  /** `isNearTop`: the block is at or above the highest block of its column,
      or the 32-bit difference of the two heights is at least -1. */
  predicate NearTop(blockY: int32, highestY: int32)
  {
    blockY >= highestY || ToInt32(blockY as int - highestY as int) >= -1
  }

  /** Where the heights' difference fits in 32 bits, a block is near the top
      exactly when it lies at most one below the highest block. */
  lemma NearTopIff(blockY: int32, highestY: int32)
    requires IsInt32(blockY as int - highestY as int)
    ensures NearTop(blockY, highestY) <==> blockY as int >= highestY as int - 1
  {
  }

  /** The tracked state the two block handlers change: the static change
      map and the chunk manager's delta. */
  datatype Tracked = Tracked(changed: Changes, delta: WorldChunks)

  /** `onBlockPlace`: a change away from the top is ignored; otherwise a
      chunk whose set has reached the threshold is promoted into the delta
      of the block's world and its set is cleared (the placed block itself is
      not counted), and any other chunk's set gains the block. */
  function Place(s: Tracked, world: string, b: BlockCoord, highestY: int32, threshold: int32): Tracked
  {
    if !NearTop(b.y, highestY) then s
    else
      var c := ChunkOfBlock(b);
      var blocks := ChangedIn(s.changed, c);
      if |blocks| >= threshold as int then Tracked(s.changed[c := {}], AddChunk(s.delta, world, c))
      else Tracked(s.changed[c := blocks + {b}], s.delta)
  }

  /** `onBlockBreak`: as `onBlockPlace`, except that breaking a block
      already in its chunk's set removes it from the set instead. */
  function Break(s: Tracked, world: string, b: BlockCoord, highestY: int32, threshold: int32): Tracked
  {
    if !NearTop(b.y, highestY) then s
    else
      var c := ChunkOfBlock(b);
      var blocks := ChangedIn(s.changed, c);
      if |blocks| >= threshold as int then Tracked(s.changed[c := {}], AddChunk(s.delta, world, c))
      else if b in blocks then Tracked(s.changed[c := blocks - {b}], s.delta)
      else Tracked(s.changed[c := blocks + {b}], s.delta)
  }

  /** Every chunk's set holds blocks of that chunk and never more than the
      threshold (none when the threshold is not positive). */
  predicate Bounded(m: Changes, threshold: int32)
  {
    forall c :: c in m ==> |m[c]| <= Max(threshold as int, 0) &&
                           forall b :: b in m[c] ==> ChunkOfBlock(b) == c
  }

  function Max(a: int, b: int): int { if a >= b then a else b }

  /** Placing keeps the sets bounded; the block's chunk ends up either
      promoted into the delta with an empty set, or holding the block with
      the delta unchanged; every other chunk keeps its set. */
  lemma PlaceEffect(s: Tracked, world: string, b: BlockCoord, highestY: int32, threshold: int32)
    requires Bounded(s.changed, threshold)
    ensures var r := Place(s, world, b, highestY, threshold);
            var c := ChunkOfBlock(b);
            Bounded(r.changed, threshold) &&
            (forall d :: d != c ==> ChangedIn(r.changed, d) == ChangedIn(s.changed, d)) &&
            (NearTop(b.y, highestY) ==>
               (|ChangedIn(s.changed, c)| >= threshold as int ==>
                  ChangedIn(r.changed, c) == {} && ChunksOf(r.delta, world) == ChunksOf(s.delta, world) + {c}) &&
               (|ChangedIn(s.changed, c)| < threshold as int ==>
                  ChangedIn(r.changed, c) == ChangedIn(s.changed, c) + {b} && r.delta == s.delta)) &&
            (!NearTop(b.y, highestY) ==> r == s)
  {
    PlaceBounded(s, world, b, highestY, threshold);
    PlaceOthers(s, world, b, highestY, threshold);
  }

  lemma PlaceBounded(s: Tracked, world: string, b: BlockCoord, highestY: int32, threshold: int32)
    requires Bounded(s.changed, threshold)
    ensures Bounded(Place(s, world, b, highestY, threshold).changed, threshold)
  {
    var c := ChunkOfBlock(b);
    var blocks := ChangedIn(s.changed, c);
    if NearTop(b.y, highestY) {
      if |blocks| >= threshold as int {
        BoundedUpdate(s.changed, threshold, c, {});
      } else {
        assert |blocks + {b}| <= |blocks| + 1;
        BoundedUpdate(s.changed, threshold, c, blocks + {b});
      }
    }
  }

  lemma PlaceOthers(s: Tracked, world: string, b: BlockCoord, highestY: int32, threshold: int32)
    ensures var r := Place(s, world, b, highestY, threshold);
            forall d :: d != ChunkOfBlock(b) ==> ChangedIn(r.changed, d) == ChangedIn(s.changed, d)
  {
  }

  /** Breaking keeps the sets bounded. */
  lemma BreakBounded(s: Tracked, world: string, b: BlockCoord, highestY: int32, threshold: int32)
    requires Bounded(s.changed, threshold)
    ensures Bounded(Break(s, world, b, highestY, threshold).changed, threshold)
  {
    var c := ChunkOfBlock(b);
    var blocks := ChangedIn(s.changed, c);
    if NearTop(b.y, highestY) {
      if |blocks| >= threshold as int {
        BoundedUpdate(s.changed, threshold, c, {});
      } else if b in blocks {
        assert |blocks - {b}| < |blocks|;
        BoundedUpdate(s.changed, threshold, c, blocks - {b});
      } else {
        assert |blocks + {b}| == |blocks| + 1;
        BoundedUpdate(s.changed, threshold, c, blocks + {b});
      }
    }
  }

  /** Below the threshold, breaking toggles the block's membership in its
      chunk's set and leaves the delta alone; at the threshold it promotes
      the chunk; every other chunk keeps its set; a block not near the top
      changes nothing. */
  lemma BreakEffect(s: Tracked, world: string, b: BlockCoord, highestY: int32, threshold: int32)
    ensures var r := Break(s, world, b, highestY, threshold);
            var c := ChunkOfBlock(b);
            (forall d :: d != c ==> ChangedIn(r.changed, d) == ChangedIn(s.changed, d)) &&
            (NearTop(b.y, highestY) && |ChangedIn(s.changed, c)| < threshold as int ==>
               r.delta == s.delta &&
               (b in ChangedIn(r.changed, c) <==> b !in ChangedIn(s.changed, c)) &&
               ChangedIn(r.changed, c) - {b} == ChangedIn(s.changed, c) - {b}) &&
            (NearTop(b.y, highestY) && |ChangedIn(s.changed, c)| >= threshold as int ==>
               ChangedIn(r.changed, c) == {} && ChunksOf(r.delta, world) == ChunksOf(s.delta, world) + {c}) &&
            (!NearTop(b.y, highestY) ==> r == s)
  {
  }

  /** Replacing one chunk's set by a bounded set of its blocks keeps the map bounded. */
  lemma BoundedUpdate(m: Changes, threshold: int32, c: ChunkCoord, blocks: set<BlockCoord>)
    requires Bounded(m, threshold)
    requires |blocks| <= Max(threshold as int, 0)
    requires forall b :: b in blocks ==> ChunkOfBlock(b) == c
    ensures Bounded(m[c := blocks], threshold)
  {
  }

  /** Breaking a block twice, with room below the threshold, restores the
      change map of a chunk already tracked. */
  lemma BreakTwice(s: Tracked, world: string, b: BlockCoord, highestY: int32, threshold: int32)
    requires ChunkOfBlock(b) in s.changed
    requires |s.changed[ChunkOfBlock(b)]| + 1 < threshold as int
    ensures Break(Break(s, world, b, highestY, threshold), world, b, highestY, threshold) == s
  {
    var c := ChunkOfBlock(b);
    var blocks := s.changed[c];
    if NearTop(b.y, highestY) {
      var r := Break(s, world, b, highestY, threshold);
      if b in blocks {
        assert |blocks - {b}| < |blocks|;
        assert blocks - {b} + {b} == blocks;
      } else {
        assert |blocks + {b}| == |blocks| + 1;
        assert blocks + {b} - {b} == blocks;
      }
      assert r.changed[c := s.changed[c]] == s.changed;
    }
  }

  /** A run of `onBlockPlace` events, in order. */
  function PlaceAll(s: Tracked, world: string, bs: seq<BlockCoord>, highestY: int32, threshold: int32): Tracked
  {
    if |bs| == 0 then s
    else Place(PlaceAll(s, world, bs[..|bs| - 1], highestY, threshold), world, bs[|bs| - 1], highestY, threshold)
  }

  /** Starting from an empty set, distinct near-top placements in one chunk,
      up to the threshold, are all counted and promote nothing. */
  lemma {:induction false} PlacesCounted(s: Tracked, world: string, c: ChunkCoord, bs: seq<BlockCoord>, highestY: int32, threshold: int32)
    requires ChangedIn(s.changed, c) == {}
    requires |bs| <= threshold as int
    requires forall i :: 0 <= i < |bs| ==> ChunkOfBlock(bs[i]) == c && NearTop(bs[i].y, highestY)
    requires forall i, j :: 0 <= i < j < |bs| ==> bs[i] != bs[j]
    ensures var r := PlaceAll(s, world, bs, highestY, threshold);
            ChangedIn(r.changed, c) == Blocks(bs) &&
            |ChangedIn(r.changed, c)| == |bs| && r.delta == s.delta
  {
    if |bs| > 0 {
      var init := bs[..|bs| - 1];
      var b := bs[|bs| - 1];
      PlacesCounted(s, world, c, init, highestY, threshold);
      var p := PlaceAll(s, world, init, highestY, threshold);
      PlaceCounted(p, world, b, highestY, threshold);
      forall i | 0 <= i < |init|
        ensures init[i] != b
      {
        assert init[i] == bs[i];
      }
      BlocksLast(bs);
    }
  }

  lemma BlocksLast(bs: seq<BlockCoord>)
    requires |bs| > 0
    ensures Blocks(bs) == Blocks(bs[..|bs| - 1]) + {bs[|bs| - 1]}
  {
    assert bs == bs[..|bs| - 1] + [bs[|bs| - 1]];
    ElementsSnoc(bs[..|bs| - 1], bs[|bs| - 1]);
  }

  /** A near-top placement in a chunk below the threshold joins its set and leaves the delta alone. */
  lemma PlaceCounted(p: Tracked, world: string, b: BlockCoord, highestY: int32, threshold: int32)
    requires NearTop(b.y, highestY) && |ChangedIn(p.changed, ChunkOfBlock(b))| < threshold as int
    ensures var r := Place(p, world, b, highestY, threshold);
            ChangedIn(r.changed, ChunkOfBlock(b)) == ChangedIn(p.changed, ChunkOfBlock(b)) + {b} && r.delta == p.delta
  {
  }

  /** The blocks a sequence lists. */
  function Blocks(bs: seq<BlockCoord>): set<BlockCoord>
  {
    set i | 0 <= i < |bs| :: bs[i]
  }

  /** The blocks of `init + [b]` are those of `init` and `b`. */
  lemma ElementsSnoc(init: seq<BlockCoord>, b: BlockCoord)
    ensures Blocks(init + [b]) == Blocks(init) + {b}
  {
    var bs := init + [b];
    forall x | x in Blocks(bs)
      ensures x in Blocks(init) + {b}
    {
      var i :| 0 <= i < |bs| && bs[i] == x;
      if i < |init| { assert init[i] == x; }
    }
    forall x | x in Blocks(init)
      ensures x in Blocks(bs)
    {
      var i :| 0 <= i < |init| && init[i] == x;
      assert bs[i] == x;
    }
    assert bs[|init|] == b;
  }

  /** With a positive threshold, the placement after `threshold` distinct
      counted ones promotes the chunk into the delta of the world it happens
      in and empties the chunk's set. */
  lemma ThresholdPromotes(s: Tracked, world: string, c: ChunkCoord, bs: seq<BlockCoord>, b: BlockCoord, highestY: int32, threshold: int32)
    requires ChangedIn(s.changed, c) == {}
    requires |bs| == threshold as int
    requires forall i :: 0 <= i < |bs| ==> ChunkOfBlock(bs[i]) == c && NearTop(bs[i].y, highestY)
    requires forall i, j :: 0 <= i < j < |bs| ==> bs[i] != bs[j]
    requires ChunkOfBlock(b) == c && NearTop(b.y, highestY)
    ensures var r := PlaceAll(s, world, bs + [b], highestY, threshold);
            ChangedIn(r.changed, c) == {} && c in ChunksOf(r.delta, world)
  {
    PlacesCounted(s, world, c, bs, highestY, threshold);
    assert (bs + [b])[..|bs|] == bs;
  }

  /** The change map is not keyed by world: changes counted in one world
      promote the chunk at the same coordinates in another. */
  lemma WorldsShareCounts(s: Tracked, w1: string, w2: string, c: ChunkCoord, bs: seq<BlockCoord>, b: BlockCoord, highestY: int32, threshold: int32)
    requires ChangedIn(s.changed, c) == {}
    requires |bs| == threshold as int
    requires forall i :: 0 <= i < |bs| ==> ChunkOfBlock(bs[i]) == c && NearTop(bs[i].y, highestY)
    requires forall i, j :: 0 <= i < j < |bs| ==> bs[i] != bs[j]
    requires ChunkOfBlock(b) == c && NearTop(b.y, highestY)
    ensures var r := Place(PlaceAll(s, w1, bs, highestY, threshold), w2, b, highestY, threshold);
            c in ChunksOf(r.delta, w2) && ChunksOf(r.delta, w1) == ChunksOf(s.delta, w1) + (if w1 == w2 then {c} else {})
  {
    PlacesCounted(s, w1, c, bs, highestY, threshold);
  }

  /** The listener; the change map is its (static) field, and the chunk
      manager it reports to is passed to each handler. */
  class ChunkTracker {
    var changedBlocks: Changes

    constructor ()
      ensures changedBlocks == map[]
    {
      changedBlocks := map[];
    }

    /** `onChunkExplore`, with the move's end points as block positions. */
    method OnChunkExplore(cm: ChunkManager, world: string, from: BlockCoord, to: BlockCoord)
      modifies cm
      ensures cm.State() == Moved(old(cm.State()), world, from, to)
      ensures cm.pendingBatchCount == old(cm.pendingBatchCount) && cm.sentChunksToDatabase == old(cm.sentChunksToDatabase)
    {
      var src := ChunkOfBlock(from);
      var dst := ChunkOfBlock(to);
      if src.x == dst.x && src.z == dst.z {
        return;
      }
      var explored := cm.IsChunkExplored(world, dst.x, dst.z);
      if !explored {
        cm.RecordChunkIfNew(world, dst.x, dst.z);
      }
    }

    /** `onBlockPlace`, with the column's highest block and the configured threshold as parameters. */
    method OnBlockPlace(cm: ChunkManager, world: string, b: BlockCoord, highestY: int32, threshold: int32)
      modifies this, cm
      ensures cm.worldToChunks == old(cm.worldToChunks)
      ensures cm.pendingBatchCount == old(cm.pendingBatchCount) && cm.sentChunksToDatabase == old(cm.sentChunksToDatabase)
      ensures Tracked(changedBlocks, cm.newlyExploredChunks) ==
              Place(Tracked(old(changedBlocks), old(cm.newlyExploredChunks)), world, b, highestY, threshold)
    {
      if !NearTop(b.y, highestY) {
        return;
      }
      var c := ChunkOfBlock(b);
      var blocks := if c in changedBlocks then changedBlocks[c] else {};
      if |blocks| >= threshold as int {
        cm.newlyExploredChunks := AddChunk(cm.newlyExploredChunks, world, c);
        changedBlocks := changedBlocks[c := {}];
        return;
      }
      changedBlocks := changedBlocks[c := blocks + {b}];
    }

    /** `onBlockBreak`, with the same parameters as `OnBlockPlace`. */
    method OnBlockBreak(cm: ChunkManager, world: string, b: BlockCoord, highestY: int32, threshold: int32)
      modifies this, cm
      ensures cm.worldToChunks == old(cm.worldToChunks)
      ensures cm.pendingBatchCount == old(cm.pendingBatchCount) && cm.sentChunksToDatabase == old(cm.sentChunksToDatabase)
      ensures Tracked(changedBlocks, cm.newlyExploredChunks) ==
              Break(Tracked(old(changedBlocks), old(cm.newlyExploredChunks)), world, b, highestY, threshold)
    {
      if !NearTop(b.y, highestY) {
        return;
      }
      var c := ChunkOfBlock(b);
      var blocks := if c in changedBlocks then changedBlocks[c] else {};
      if |blocks| >= threshold as int {
        cm.newlyExploredChunks := AddChunk(cm.newlyExploredChunks, world, c);
        changedBlocks := changedBlocks[c := {}];
        return;
      }
      if b in blocks {
        changedBlocks := changedBlocks[c := blocks - {b}];
        return;
      }
      changedBlocks := changedBlocks[c := blocks + {b}];
    }
  }
}
