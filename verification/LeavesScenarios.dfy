/**
  Concrete worlds for the log search: a short line of leaves that reaches a
  log, one too long to reach it, and one broken by a leaf of another
  species.
*/
module LeavesScenarios {
  import opened Utils
  import opened Levels
  import opened Blocks

  const Origin := Coord(0, 0, 0)

  function Oak(): (b: Block)
  {
    Block(LeavesBlock, 0)
  }

  function Trunk(): (b: Block)
  {
    Block(LogBlock, 0)
  }

  /** Two oak leaves below the origin's oak leaf, then a log three steps down. */
  function LineWorld(): (w: map<Coord, Block>)
  {
    map[Origin := Oak(), Coord(0, -1, 0) := Oak(), Coord(0, -2, 0) := Oak(), Coord(0, -3, 0) := Trunk()]
  }

  /** Straight down the line: the first neighbour tried at every level. */
  lemma LineReachesLog()
    ensures FindLog(LineWorld(), 0, Origin, [], 0).found
  {
    var w := LineWorld();
    var c1, c2, c3 := Coord(0, -1, 0), Coord(0, -2, 0), Coord(0, -3, 0);
    assert Origin.Plus(Down) == c1 && c1.Plus(Down) == c2 && c2.Plus(Down) == c3;
    assert BlockAt(w, c3).kind == LogBlock;
    assert Matches(BlockAt(w, c2), 0) && Matches(BlockAt(w, c1), 0) && Matches(BlockAt(w, Origin), 0);
    var v3 := [Origin, c1, c2];
    assert c3 !in v3;
    assert FindLog(w, 0, c3, v3, 3).found;
    assert FindLogAround(w, 0, c2, 0, v3, 2).found;
    FindLogEntry(w, 0, c2, [Origin, c1], 2);
    assert [Origin, c1] + [c2] == v3;
    FindLogEntry(w, 0, c1, [Origin], 1);
    FindLogEntry(w, 0, Origin, [], 0);
  }

  /** The same line with the log five steps down: beyond the depth cap. */
  lemma LongLineMissesLog()
    ensures !FindLog(map[Origin := Oak(), Coord(0, -1, 0) := Oak(), Coord(0, -2, 0) := Oak(),
                         Coord(0, -3, 0) := Oak(), Coord(0, -4, 0) := Oak(),
                         Coord(0, -5, 0) := Trunk()], 0, Origin, [], 0).found
  {
    var w := map[Origin := Oak(), Coord(0, -1, 0) := Oak(), Coord(0, -2, 0) := Oak(),
                 Coord(0, -3, 0) := Oak(), Coord(0, -4, 0) := Oak(), Coord(0, -5, 0) := Trunk()];
    forall p | BlockAt(w, p).kind == LogBlock
      ensures Manhattan(Origin, p) > MaxDistance
    {
      assert p == Coord(0, -5, 0);
    }
    FarLogNotFound(w, 0, Origin, [], 0);
  }

  /** A spruce leaf (species 1) two steps down cuts the oak line off from the log. */
  function SpruceWorld(): (w: map<Coord, Block>)
  {
    map[Origin := Oak(), Coord(0, -1, 0) := Oak(), Coord(0, -2, 0) := Block(LeavesBlock, 1), Coord(0, -3, 0) := Trunk()]
  }

  lemma OtherSpeciesBlocksSearch()
    ensures !FindLog(SpruceWorld(), 0, Origin, [], 0).found
  {
    var w := SpruceWorld();
    forall p, q | BlockAt(w, p).kind == LogBlock && Adjacent(q, p)
      ensures !Matches(BlockAt(w, q), 0)
    {
      SpruceLog(p);
      SpruceOaks(q);
    }
    CutOffLogNotFound(w, 0, Origin, [], 0);
  }

  lemma SpruceLog(p: Coord)
    ensures BlockAt(SpruceWorld(), p).kind == LogBlock ==> p == Coord(0, -3, 0)
  {
  }

  lemma SpruceOaks(q: Coord)
    ensures Matches(BlockAt(SpruceWorld(), q), 0) ==> q == Origin || q == Coord(0, -1, 0)
  {
  }

}
