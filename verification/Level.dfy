/**
  The parts of the world that the leaf-decay protocol talks to.

  The level is an external collaborator. It is modelled by a map from
  coordinates to blocks (a coordinate missing from the map holds air) and a
  log of the mutating calls made on it, in order. The real level routes these
  calls into chunk storage, lighting and the network; none of that is
  modelled.
*/
module Levels {
  import opened Utils

  /** A block position (`BlockCoordinates`); the coordinates are unbounded integers. */
  datatype Coord = Coord(x: int, y: int, z: int)
  {
    function Plus(d: Coord): (c: Coord)
    {
      Coord(x + d.x, y + d.y, z + d.z)
    }

    function Minus(d: Coord): (c: Coord)
    {
      Coord(x - d.x, y - d.y, z - d.z)
    }
  }

  /** The six unit face offsets; the sign of each axis follows the usual convention, assumed here. */
  const Down := Coord(0, -1, 0)
  const Up := Coord(0, 1, 0)
  const West := Coord(-1, 0, 0)
  const East := Coord(1, 0, 0)
  const North := Coord(0, 0, -1)
  const South := Coord(0, 0, 1)

  /** `b` is one face step away from `a`. */
  predicate Adjacent(a: Coord, b: Coord)
  {
    b.Minus(a) in [Down, Up, West, East, North, South]
  }

  /** What the protocol can tell about a block: `is Log`, `is Leaves`, or anything else. */
  datatype Kind = LogBlock | LeavesBlock | OtherBlock(id: int)

  datatype Block = Block(kind: Kind, metadata: byte)

  const Air := Block(OtherBlock(0), 0)

  /** `ItemFactory.GetItem(id, metadata, count)`, kept as its three arguments. */
  datatype Item = Item(id: int, metadata: int, count: int)

  /** A mutating call on the level, with its arguments. */
  datatype Call =
    | SetBlockCall(coord: Coord, block: Block, broadcast: bool, applyPhysics: bool, calculateLight: bool)
    | SetAirCall(coord: Coord)
    | DropItemCall(coord: Coord, item: Item)
    | UpdateBlocksCall(coord: Coord)

  function BlockAt(world: map<Coord, Block>, c: Coord): (b: Block)
  {
    if c in world then world[c] else Air
  }

  class Level {
    var blocks: map<Coord, Block>
    var calls: seq<Call>

    constructor (blocks: map<Coord, Block>)
      ensures this.blocks == blocks && calls == []
    {
      this.blocks := blocks;
      calls := [];
    }

    /** The block at `c`; a coordinate the level does not hold reads as air. */
    function GetBlock(c: Coord): (r: Block)
      reads this
      ensures c in blocks ==> r == blocks[c]
      ensures c !in blocks ==> r == Air
    {
      BlockAt(blocks, c)
    }

    /** Stores `block` at `coord` with the given side-effect flags. */
    method SetBlock(coord: Coord, block: Block, broadcast: bool, applyPhysics: bool, calculateLight: bool)
      modifies this
      ensures blocks == old(blocks)[coord := block] && GetBlock(coord) == block
      ensures calls == old(calls) + [SetBlockCall(coord, block, broadcast, applyPhysics, calculateLight)]
    {
      blocks := blocks[coord := block];
      calls := calls + [SetBlockCall(coord, block, broadcast, applyPhysics, calculateLight)];
    }

    /** Replaces the block at `coord` by air. */
    method SetAir(coord: Coord)
      modifies this
      ensures blocks == old(blocks)[coord := Air] && GetBlock(coord) == Air
      ensures calls == old(calls) + [SetAirCall(coord)]
    {
      blocks := blocks[coord := Air];
      calls := calls + [SetAirCall(coord)];
    }

    /** Spawns an item entity; the blocks are left alone. */
    method DropItem(coord: Coord, item: Item)
      modifies this`calls
      ensures blocks == old(blocks)
      ensures calls == old(calls) + [DropItemCall(coord, item)]
    {
      calls := calls + [DropItemCall(coord, item)];
    }
  }
}
