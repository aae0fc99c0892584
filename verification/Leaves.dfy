/**
  The leaf-decay protocol of `Leaves`.

  Two bits of a leaf's metadata byte drive it: 0x04 disables decay for good,
  0x08 marks a pending check. A structural update only raises the pending
  bit; the next tick runs a depth-bounded search for a log through leaves of
  the same species (the low three metadata bits) and either clears the bit
  or removes the leaf, drops its items and notifies its neighbours.
*/
module Blocks {
  import opened Utils
  import opened Levels

  const NoDecay: byte := 0x04
  const CheckDecay: byte := 0x08
  const SpeciesMask: byte := 0x07

  /** The search gives up on a non-log block this many steps from the start. */
  const MaxDistance := 4

  /** The neighbours `FindLog` tries, in this order. */
  const Faces: seq<Coord> := [Down, West, East, South, North, Up]

  // ---------------------------------------------------------------------
  // The two protocol steps on the metadata byte

  /**
    What `BlockUpdate` writes back, if anything: nothing when decay is
    disabled or a check is already pending, otherwise the byte with exactly
    the pending bit added.
  */
  function MarkPending(m: byte): (r: Option<byte>)
    ensures r.Some? <==> m & NoDecay == 0 && m & CheckDecay == 0
    ensures r.Some? ==> r.value & CheckDecay == CheckDecay && r.value & !CheckDecay == m
  {
    if m & NoDecay == NoDecay then None
    else if m & CheckDecay == CheckDecay then None
    else Some(m | CheckDecay)
  }

  /** A second structural update before the tick changes nothing. */
  lemma MarkPendingIdempotent(m: byte)
    requires MarkPending(m).Some?
    ensures MarkPending(MarkPending(m).value) == None
  {
  }

  /** `OnTick` acts only when decay is enabled and a check is pending. */
  predicate Pending(m: byte)
  {
    m & NoDecay == 0 && m & CheckDecay == CheckDecay
  }

  /** After a pending update, a tick will evaluate the leaf. */
  lemma MarkPendingMakesPending(m: byte)
    requires MarkPending(m).Some?
    ensures Pending(MarkPending(m).value)
  {
  }

  /** The metadata written back after a successful check: the species bits kept, every other bit cleared. */
  function Settle(m: byte): (r: byte)
    ensures r & SpeciesMask == m & SpeciesMask && r & !SpeciesMask == 0
    ensures !Pending(r)
  {
    m & SpeciesMask
  }

  // ---------------------------------------------------------------------
  // Drops

  const Apple := Item(260, 0, 1)

  function Sapling(m: byte): (item: Item)
  {
    Item(6, m as int, 1)
  }

  /**
    `GetDrops` with its two random draws as inputs: `appleDraw` stands for
    `Next(200)`, drawn only when the whole metadata byte is 0, and
    `saplingDraw` for the `Next(20)` that follows.
  */
  function GetDrops(m: byte, appleDraw: int, saplingDraw: int): (drops: seq<Item>)
    ensures |drops| <= 1
    ensures Apple in drops <==> m == 0 && appleDraw == 0
    ensures Sapling(m) in drops <==> (m != 0 || appleDraw != 0) && saplingDraw == 0
    ensures forall d :: d in drops ==> d == Apple || d == Sapling(m)
  {
    if m == 0 && appleDraw == 0 then [Apple]
    else if saplingDraw == 0 then [Sapling(m)]
    else []
  }

  /** A leaf removed by decay has its pending bit set, so it never drops an apple. */
  lemma DecayNeverDropsApple(m: byte, appleDraw: int, saplingDraw: int)
    requires Pending(m)
    ensures Apple !in GetDrops(m, appleDraw, saplingDraw)
    ensures GetDrops(m, appleDraw, saplingDraw) == if saplingDraw == 0 then [Sapling(m)] else []
  {
  }

  /** One `DropItem` call per item, in order. */
  function DropCalls(c: Coord, drops: seq<Item>): (calls: seq<Call>)
    ensures |calls| == |drops|
    ensures forall i :: 0 <= i < |drops| ==> calls[i] == DropItemCall(c, drops[i])
  {
    if drops == [] then [] else [DropItemCall(c, drops[0])] + DropCalls(c, drops[1..])
  }

  // ---------------------------------------------------------------------
  // The bounded search

  /** The outcome of `FindLog` and the visited list it leaves behind. */
  datatype Search = Search(found: bool, visited: seq<Coord>)

  /** The search may pass through `b`: a `Leaves` block of the given species. */
  predicate Matches(b: Block, species: byte)
  {
    b.kind == LeavesBlock && b.metadata & SpeciesMask == species
  }

  predicate NoDuplicates(s: seq<Coord>)
  {
    forall i, j :: 0 <= i < j < |s| ==> s[i] != s[j]
  }

  /**
    `FindLog(level, coord, visited, distance)` for a leaf whose species bits
    are `species`. The visited list that MiNET's `FindLog` shares by
    reference between sibling branches is threaded through: the result
    carries it out.
    The list only grows (the input is a prefix of the output), stays free of
    duplicates, and never records a log.
  */
  function FindLog(world: map<Coord, Block>, species: byte, coord: Coord, visited: seq<Coord>, distance: nat): (r: Search)
    decreases MaxDistance - distance, 1, 0
    ensures visited <= r.visited
    ensures NoDuplicates(visited) ==> NoDuplicates(r.visited)
    ensures forall i :: |visited| <= i < |r.visited| ==> BlockAt(world, r.visited[i]).kind != LogBlock
  {
    if coord in visited then Search(false, visited)
    else
      var block := BlockAt(world, coord);
      if block.kind == LogBlock then Search(true, visited)
      else
        var visited' := visited + [coord];
        if distance >= MaxDistance then Search(false, visited')
        else if !Matches(block, species) then Search(false, visited')
        else FindLogAround(world, species, coord, 0, visited', distance)
  }

  /** The neighbours of `coord` from `Faces[k]` on, stopping at the first success. */
  function FindLogAround(world: map<Coord, Block>, species: byte, coord: Coord, k: nat, visited: seq<Coord>, distance: nat): (r: Search)
    requires k <= |Faces| && distance < MaxDistance
    decreases MaxDistance - distance, 0, |Faces| - k
    ensures visited <= r.visited
    ensures NoDuplicates(visited) ==> NoDuplicates(r.visited)
    ensures forall i :: |visited| <= i < |r.visited| ==> BlockAt(world, r.visited[i]).kind != LogBlock
  {
    if k == |Faces| then Search(false, visited)
    else
      var r := FindLog(world, species, coord.Plus(Faces[k]), visited, distance + 1);
      if r.found then r
      else FindLogAround(world, species, coord, k + 1, r.visited, distance)
  }

  /** The checks `FindLog` makes on entry, before any recursion. */
  lemma FindLogEntry(world: map<Coord, Block>, species: byte, coord: Coord, visited: seq<Coord>, distance: nat)
    ensures coord in visited ==> FindLog(world, species, coord, visited, distance) == Search(false, visited)
    ensures coord !in visited && BlockAt(world, coord).kind == LogBlock
            ==> FindLog(world, species, coord, visited, distance) == Search(true, visited)
    ensures coord !in visited && BlockAt(world, coord).kind != LogBlock
            ==> FindLog(world, species, coord, visited, distance).visited[..|visited| + 1] == visited + [coord]
    ensures coord !in visited && BlockAt(world, coord).kind != LogBlock
            && (distance >= MaxDistance || !Matches(BlockAt(world, coord), species))
            ==> FindLog(world, species, coord, visited, distance) == Search(false, visited + [coord])
    ensures coord !in visited && distance < MaxDistance && Matches(BlockAt(world, coord), species)
            ==> FindLog(world, species, coord, visited, distance)
                == FindLogAround(world, species, coord, 0, visited + [coord], distance)
  {
    var r := FindLog(world, species, coord, visited, distance);
    if coord !in visited && BlockAt(world, coord).kind != LogBlock {
      assert (visited + [coord]) <= r.visited;
    }
  }

  /**
    `path` leads from its first coordinate to a log by face steps, through
    leaves of the given species only, and avoids every coordinate in `avoid`.
  */
  ghost predicate LogPath(world: map<Coord, Block>, species: byte, path: seq<Coord>, avoid: seq<Coord>)
  {
    && |path| > 0
    && BlockAt(world, path[|path| - 1]).kind == LogBlock
    && (forall i :: 0 <= i < |path| - 1 ==> Matches(BlockAt(world, path[i]), species))
    && (forall i :: 0 <= i < |path| - 1 ==> Adjacent(path[i], path[i + 1]))
    && (forall i :: 0 <= i < |path| ==> path[i] !in avoid)
  }

  /** Some log is at most `steps` face steps from `c` along such a path. */
  ghost predicate LogWithin(world: map<Coord, Block>, species: byte, c: Coord, steps: int, avoid: seq<Coord>)
  {
    exists path :: LogPath(world, species, path, avoid) && path[0] == c && |path| <= steps + 1
  }

  /**
    Soundness: when the search succeeds, a log is reachable from the start
    within the remaining depth budget, through same-species leaves, without
    touching a coordinate that was already visited.
  */
  lemma {:induction false} FindLogSound(world: map<Coord, Block>, species: byte, coord: Coord, visited: seq<Coord>, distance: nat)
    requires distance <= MaxDistance
    requires FindLog(world, species, coord, visited, distance).found
    ensures LogWithin(world, species, coord, MaxDistance - distance, visited)
    decreases MaxDistance - distance, 1, 0
  {
    var block := BlockAt(world, coord);
    if block.kind == LogBlock {
      assert LogPath(world, species, [coord], visited);
    } else {
      var visited' := visited + [coord];
      assert coord !in visited && distance < MaxDistance && Matches(block, species);
      assert FindLogAround(world, species, coord, 0, visited', distance).found;
      FindLogAroundSound(world, species, coord, 0, visited', distance);
      var j :| 0 <= j < |Faces| && LogWithin(world, species, coord.Plus(Faces[j]), MaxDistance - distance - 1, visited');
      var p: seq<Coord> :| LogPath(world, species, p, visited') && p[0] == coord.Plus(Faces[j]) && |p| <= MaxDistance - distance;
      PrependStep(world, species, coord, j, p, visited);
      assert ([coord] + p)[0] == coord && |[coord] + p| <= MaxDistance - distance + 1;
    }
  }

  /** A same-species leaf one face step before a path to a log starts a longer such path. */
  lemma PrependStep(world: map<Coord, Block>, species: byte, coord: Coord, j: nat, p: seq<Coord>, avoid: seq<Coord>)
    requires j < |Faces| && Matches(BlockAt(world, coord), species) && coord !in avoid
    requires LogPath(world, species, p, avoid + [coord]) && p[0] == coord.Plus(Faces[j])
    ensures LogPath(world, species, [coord] + p, avoid)
  {
    var path := [coord] + p;
    assert Adjacent(coord, p[0]) by {
      assert p[0].Minus(coord) == Faces[j];
    }
    forall i | 0 <= i < |path|
      ensures path[i] !in avoid
    {
      if i > 0 {
        assert path[i] == p[i - 1] && p[i - 1] !in avoid + [coord];
      }
    }
    forall i | 0 <= i < |path| - 1
      ensures Matches(BlockAt(world, path[i]), species) && Adjacent(path[i], path[i + 1])
    {
      if i > 0 {
        assert path[i] == p[i - 1] && path[i + 1] == p[i];
      }
    }
  }

  /** Soundness of the neighbour loop: success comes from one neighbour at `Faces[j]`, j >= k. */
  lemma {:induction false} FindLogAroundSound(world: map<Coord, Block>, species: byte, coord: Coord, k: nat, visited: seq<Coord>, distance: nat)
    requires k <= |Faces| && distance < MaxDistance
    requires FindLogAround(world, species, coord, k, visited, distance).found
    ensures exists j :: k <= j < |Faces|
              && LogWithin(world, species, coord.Plus(Faces[j]), MaxDistance - distance - 1, visited)
    decreases MaxDistance - distance, 0, |Faces| - k
  {
    var r := FindLog(world, species, coord.Plus(Faces[k]), visited, distance + 1);
    if r.found {
      FindLogSound(world, species, coord.Plus(Faces[k]), visited, distance + 1);
      assert LogWithin(world, species, coord.Plus(Faces[k]), MaxDistance - distance - 1, visited);
    } else {
      FindLogAroundSound(world, species, coord, k + 1, r.visited, distance);
      var j :| k + 1 <= j < |Faces|
               && LogWithin(world, species, coord.Plus(Faces[j]), MaxDistance - distance - 1, r.visited);
      LogWithinAvoidsLess(world, species, coord.Plus(Faces[j]), MaxDistance - distance - 1, visited, r.visited);
      assert LogWithin(world, species, coord.Plus(Faces[j]), MaxDistance - distance - 1, visited);
    }
  }

  /** Avoiding more coordinates is harder: a path that avoids a list avoids each of its prefixes. */
  lemma LogWithinAvoidsLess(world: map<Coord, Block>, species: byte, c: Coord, steps: int, avoid: seq<Coord>, avoid': seq<Coord>)
    requires avoid <= avoid'
    requires LogWithin(world, species, c, steps, avoid')
    ensures LogWithin(world, species, c, steps, avoid)
  {
    var p: seq<Coord> :| LogPath(world, species, p, avoid') && p[0] == c && |p| <= steps + 1;
    assert LogPath(world, species, p, avoid);
  }

  // ---------------------------------------------------------------------
  // Consequences of soundness

  function Manhattan(a: Coord, b: Coord): (d: nat)
  {
    (if a.x <= b.x then b.x - a.x else a.x - b.x)
    + (if a.y <= b.y then b.y - a.y else a.y - b.y)
    + (if a.z <= b.z then b.z - a.z else a.z - b.z)
  }

  /** A chain of face steps covers at most one unit of Manhattan distance per step. */
  lemma {:induction false} StepsCoverDistance(path: seq<Coord>, n: nat)
    requires n < |path|
    requires forall i :: 0 <= i < |path| - 1 ==> Adjacent(path[i], path[i + 1])
    ensures Manhattan(path[0], path[n]) <= n
  {
    if n > 0 {
      StepsCoverDistance(path, n - 1);
      assert Adjacent(path[n - 1], path[n]);
    }
  }

  /**
    When every log is farther from `coord` (by Manhattan distance) than the
    remaining depth budget, the search fails.
  */
  lemma FarLogNotFound(world: map<Coord, Block>, species: byte, coord: Coord, visited: seq<Coord>, distance: nat)
    requires distance <= MaxDistance
    requires forall p :: BlockAt(world, p).kind == LogBlock ==> Manhattan(coord, p) > MaxDistance - distance
    ensures !FindLog(world, species, coord, visited, distance).found
  {
    if FindLog(world, species, coord, visited, distance).found {
      FindLogSound(world, species, coord, visited, distance);
      var path: seq<Coord> :| LogPath(world, species, path, visited) && path[0] == coord && |path| <= MaxDistance - distance + 1;
      StepsCoverDistance(path, |path| - 1);
    }
  }

  /**
    When no leaf of the searched species touches a log, the search fails
    unless it starts on a log: the last step of any path it could report
    leaves such a leaf.
  */
  lemma CutOffLogNotFound(world: map<Coord, Block>, species: byte, coord: Coord, visited: seq<Coord>, distance: nat)
    requires distance <= MaxDistance
    requires BlockAt(world, coord).kind != LogBlock
    requires forall p, q :: BlockAt(world, p).kind == LogBlock && Adjacent(q, p) ==> !Matches(BlockAt(world, q), species)
    ensures !FindLog(world, species, coord, visited, distance).found
  {
    if FindLog(world, species, coord, visited, distance).found {
      FindLogSound(world, species, coord, visited, distance);
      var path: seq<Coord> :| LogPath(world, species, path, visited) && path[0] == coord && |path| <= MaxDistance - distance + 1;
      LastStep(world, species, path, visited);
    }
  }

  /** A path that does not start on a log ends with a leaf next to the log. */
  lemma LastStep(world: map<Coord, Block>, species: byte, path: seq<Coord>, avoid: seq<Coord>)
    requires LogPath(world, species, path, avoid) && BlockAt(world, path[0]).kind != LogBlock
    ensures |path| >= 2
    ensures Matches(BlockAt(world, path[|path| - 2]), species) && Adjacent(path[|path| - 2], path[|path| - 1])
  {
  }

  // ---------------------------------------------------------------------
  // The block

  class Leaves {
    var Metadata: byte
    var Coordinates: Coord

    constructor (metadata: byte, coordinates: Coord)
      ensures Metadata == metadata && Coordinates == coordinates
    {
      Metadata := metadata;
      Coordinates := coordinates;
    }

    /** The block the level stores for this leaf. */
    function AsBlock(): (b: Block)
      reads this
    {
      Block(LeavesBlock, Metadata)
    }

    /** The result of the search `OnTick` runs from this leaf's position in `world`. */
    function LogNearby(world: map<Coord, Block>): (r: bool)
      reads this
      ensures r ==> LogWithin(world, Metadata & SpeciesMask, Coordinates, MaxDistance, [])
    {
      if FindLog(world, Metadata & SpeciesMask, Coordinates, [], 0).found then
        FindLogSound(world, Metadata & SpeciesMask, Coordinates, [], 0);
        true
      else
        false
    }

    /** A neighbouring voxel changed: mark this leaf for a check on its next tick. */
    method BlockUpdate(level: Level, blockCoordinates: Coord)
      modifies this`Metadata, level
      ensures MarkPending(old(Metadata)).None? ==> Metadata == old(Metadata) && unchanged(level)
      ensures MarkPending(old(Metadata)).Some? ==>
                && Metadata == MarkPending(old(Metadata)).value
                && level.calls == old(level.calls) + [SetBlockCall(Coordinates, AsBlock(), false, false, false)]
                && level.blocks == old(level.blocks)[Coordinates := AsBlock()]
    {
      if Metadata & NoDecay == NoDecay {
        return;
      }
      if Metadata & CheckDecay == CheckDecay {
        return;
      }
      Metadata := Metadata | CheckDecay;
      level.SetBlock(Coordinates, AsBlock(), false, false, false);
    }

    /** `Block.UpdateBlocks`: notifies the six neighbours; kept as one opaque call. */
    method UpdateBlocks(level: Level)
      modifies level`calls
      ensures level.calls == old(level.calls) + [UpdateBlocksCall(Coordinates)]
    {
      level.calls := level.calls + [UpdateBlocksCall(Coordinates)];
    }

    /**
      A tick: when a check is pending, search for a log; on success write
      back the settled metadata, otherwise replace the leaf by air, drop its
      items one by one and notify the neighbours, in that order.
    */
    method OnTick(level: Level, isRandom: bool, appleDraw: int, saplingDraw: int)
      modifies this`Metadata, level
      ensures !Pending(old(Metadata)) ==> Metadata == old(Metadata) && unchanged(level)
      ensures Pending(old(Metadata)) && old(LogNearby(level.blocks)) ==>
                && Metadata == Settle(old(Metadata))
                && level.calls == old(level.calls) + [SetBlockCall(Coordinates, AsBlock(), false, false, false)]
                && level.blocks == old(level.blocks)[Coordinates := AsBlock()]
      ensures Pending(old(Metadata)) && !old(LogNearby(level.blocks)) ==>
                && Metadata == old(Metadata)
                && level.calls == old(level.calls) + [SetAirCall(Coordinates)]
                     + DropCalls(Coordinates, GetDrops(Metadata, appleDraw, saplingDraw))
                     + [UpdateBlocksCall(Coordinates)]
                && level.blocks == old(level.blocks)[Coordinates := Air]
    {
      if Metadata & NoDecay == NoDecay {
        return;
      }
      if Metadata & CheckDecay != CheckDecay {
        return;
      }
      var found := FindLog(level.blocks, Metadata & SpeciesMask, Coordinates, [], 0).found;
      if found {
        Metadata := Metadata & SpeciesMask;
        level.SetBlock(Coordinates, AsBlock(), false, false, false);
        return;
      }
      level.SetAir(Coordinates);
      var drops := GetDrops(Metadata, appleDraw, saplingDraw);
      ghost var before := level.calls;
      for i := 0 to |drops|
        invariant level.calls == before + DropCalls(Coordinates, drops[..i])
        invariant level.blocks == old(level.blocks)[Coordinates := Air]
        invariant Metadata == old(Metadata)
      {
        level.DropItem(Coordinates, drops[i]);
        DropCallsSnoc(Coordinates, drops[..i], drops[i]);
        assert drops[..i + 1] == drops[..i] + [drops[i]];
      }
      assert drops[..|drops|] == drops;
      UpdateBlocks(level);
    }
  }

  /** A second structural update before the tick has no further effect: two updates act as one. */
  method BlockUpdateTwice(leaf: Leaves, level: Level, first: Coord, second: Coord)
    modifies leaf`Metadata, level
    ensures MarkPending(old(leaf.Metadata)).None? ==> leaf.Metadata == old(leaf.Metadata) && unchanged(level)
    ensures MarkPending(old(leaf.Metadata)).Some? ==>
              && leaf.Metadata == MarkPending(old(leaf.Metadata)).value
              && level.calls == old(level.calls) + [SetBlockCall(leaf.Coordinates, leaf.AsBlock(), false, false, false)]
              && level.blocks == old(level.blocks)[leaf.Coordinates := leaf.AsBlock()]
  {
    ghost var m := leaf.Metadata;
    leaf.BlockUpdate(level, first);
    if MarkPending(m).Some? {
      MarkPendingIdempotent(m);
    }
    leaf.BlockUpdate(level, second);
  }

  lemma DropCallsSnoc(c: Coord, drops: seq<Item>, d: Item)
    ensures DropCalls(c, drops + [d]) == DropCalls(c, drops) + [DropItemCall(c, d)]
  {
  }
}
