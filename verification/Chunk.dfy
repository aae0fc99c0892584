/**
  One 16x16x16 segment of a chunk column (`Chunk`) and the queue that
  recycles segments (`ChunkPool`).

  A segment keeps four parallel per-voxel fields over 4096 slots: one byte
  of block id per voxel and three packed nibble arrays (metadata, block
  light, sky light). Beside them it keeps two derived values: the cached
  serialised bytes (block ids followed by packed metadata, light excluded)
  and the memoised "all air" answer, which is trusted only while the dirty
  flag is clear. Block-id and metadata writes drop the cache and raise the
  dirty flag; light writes touch neither.

  MiNET keeps one process-wide static pool for `Chunk`; here it is an
  explicit `ChunkPool` parameter.
*/
module Worlds {
  import opened Utils

  /** Voxels per segment. */
  const Volume := 4096

  /** Backing bytes of one packed nibble field over the segment. */
  const NibbleBytes := 2048

  /** Length of the serialised segment. */
  const EncodedLength := 6144

  predicate InSection(x: int, y: int, z: int)
  {
    0 <= x < 16 && 0 <= y < 16 && 0 <= z < 16
  }

  /** The voxel stored at slot `i`: y varies fastest, then z, then x. */
  function Voxel(i: int): (v: (int, int, int))
  {
    (i / 256, i % 16, (i / 16) % 16)
  }

  /** Division by 16 is determined by a quotient and an in-range remainder. */
  lemma DivMod16(i: int, q: int, r: int)
    requires 0 <= r < 16 && i == q * 16 + r
    ensures i / 16 == q && i % 16 == r
  {
  }

  /** Division by 256 is determined by a quotient and an in-range remainder. */
  lemma DivMod256(i: int, q: int, r: int)
    requires 0 <= r < 256 && i == q * 256 + r
    ensures i / 256 == q
  {
  }

  lemma VoxelOfSlot(x: int, y: int, z: int)
    ensures InSection(x, y, z) ==> Voxel(x * 256 + z * 16 + y) == (x, y, z)
  {
    if InSection(x, y, z) {
      var i := x * 256 + z * 16 + y;
      DivMod256(i, x, z * 16 + y);
      DivMod16(i, x * 16 + z, y);
      DivMod16(x * 16 + z, x, z);
    }
  }

  /** Slot of voxel (x, y, z): in range and inverted by `Voxel` on the segment. */
  function GetIndex(x: int, y: int, z: int): (i: int)
    ensures InSection(x, y, z) ==> 0 <= i < Volume && Voxel(i) == (x, y, z)
  {
    VoxelOfSlot(x, y, z);
    x * 256 + z * 16 + y
  }

  /** The accessors demand only that the computed slot fall inside the arrays. */
  predicate ValidIndex(x: int, y: int, z: int)
  {
    0 <= GetIndex(x, y, z) < Volume
  }

  /** Every slot is the index of exactly one voxel of the segment. */
  lemma IndexOnto(i: int)
    requires 0 <= i < Volume
    ensures InSection(Voxel(i).0, Voxel(i).1, Voxel(i).2)
    ensures GetIndex(Voxel(i).0, Voxel(i).1, Voxel(i).2) == i
  {
  }

  /** Distinct voxels of the segment use distinct slots. */
  lemma IndexInjective(x: int, y: int, z: int, x': int, y': int, z': int)
    requires InSection(x, y, z) && InSection(x', y', z')
    requires GetIndex(x, y, z) == GetIndex(x', y', z')
    ensures x == x' && y == y' && z == z'
  {
    assert Voxel(GetIndex(x, y, z)) == (x, y, z);
  }

  /** Serialised form of a segment: the block ids, then the packed metadata bytes. */
  function Encode(blocks: seq<byte>, metadata: seq<byte>): (r: seq<byte>)
    ensures |r| == |blocks| + |metadata|
    ensures r[..|blocks|] == blocks && r[|blocks|..] == metadata
  {
    blocks + metadata
  }

  /** Splits a serialised segment back into block ids and packed metadata. */
  function Decode(bytes: seq<byte>): (r: Option<(seq<byte>, seq<byte>)>)
    ensures r.Some? <==> |bytes| == EncodedLength
    ensures r.Some? ==> |r.value.0| == Volume && |r.value.1| == NibbleBytes
  {
    if |bytes| == EncodedLength then Some((bytes[..Volume], bytes[Volume..])) else None
  }

  /** The serialised form loses nothing: decoding it gives back both fields. */
  lemma DecodeEncode(blocks: seq<byte>, metadata: seq<byte>)
    requires |blocks| == Volume && |metadata| == NibbleBytes
    ensures Decode(Encode(blocks, metadata)) == Some((blocks, metadata))
  {
  }

  /** Every well-formed serialised segment is the encoding of its decoding. */
  lemma EncodeDecode(bytes: seq<byte>)
    requires Decode(bytes).Some?
    ensures Encode(Decode(bytes).value.0, Decode(bytes).value.1) == bytes
  {
  }

  /** Where a voxel lands in the serialised form: its id at its slot, its metadata nibble after the ids. */
  lemma EncodedVoxel(blocks: seq<byte>, metadata: seq<byte>, x: int, y: int, z: int)
    requires |blocks| == Volume && |metadata| == NibbleBytes && InSection(x, y, z)
    ensures Encode(blocks, metadata)[GetIndex(x, y, z)] == blocks[GetIndex(x, y, z)]
    ensures NibbleAt(Encode(blocks, metadata)[Volume..], GetIndex(x, y, z))
         == NibbleAt(metadata, GetIndex(x, y, z))
  {
    var r := Encode(blocks, metadata);
    assert r[Volume..] == metadata;
  }

  /** `blocks.All(b => b == 0)`: a scan that stops at the first non-zero id. */
  method AllZero(a: array<byte>) returns (r: bool)
    ensures r == AllEqual(a[..], 0)
  {
    var k := 0;
    while k < a.Length
      invariant 0 <= k <= a.Length
      invariant forall j :: 0 <= j < k ==> a[j] == 0
    {
      if a[k] != 0 {
        assert a[..][k] != 0;
        return false;
      }
      k := k + 1;
    }
    return true;
  }

  class Chunk {
    var isAllAir: bool
    const blocks: array<byte>
    const metadata: NibbleArray
    const blocklight: NibbleArray
    const skylight: NibbleArray
    var cache: Option<seq<byte>>
    var isDirty: bool

    /** The objects whose state makes up this segment. */
    ghost function Repr(): set<object>
    {
      {this, blocks, metadata.Data, blocklight.Data, skylight.Data}
    }

    /**
      Class invariant: the four fields have their fixed sizes and share no
      storage, a present cache is the encoding of the current ids and
      metadata, and while the dirty flag is clear the all-air memo is right.
    */
    ghost predicate Valid()
      reads this, blocks, metadata.Data
    {
      && blocks.Length == Volume
      && metadata.Data.Length == NibbleBytes
      && blocklight.Data.Length == NibbleBytes
      && skylight.Data.Length == NibbleBytes
      && blocks != metadata.Data && blocks != blocklight.Data && blocks != skylight.Data
      && metadata.Data != blocklight.Data && metadata.Data != skylight.Data
      && blocklight.Data != skylight.Data
      && (cache.Some? ==> cache.value == Encode(blocks[..], metadata.Data[..]))
      && (!isDirty ==> isAllAir == AllEqual(blocks[..], 0))
    }

    /** The state `Reset` leaves and the constructor builds. */
    ghost predicate IsReset()
      reads Repr()
    {
      && Valid()
      && AllEqual(blocks[..], 0)
      && AllEqual(metadata.Data[..], 0)
      && AllEqual(blocklight.Data[..], 0)
      && AllEqual(skylight.Data[..], 0xFF)
      && cache == None && !isDirty && isAllAir
    }

    constructor ()
      ensures IsReset() && fresh(Repr())
    {
      isAllAir := true;
      blocks := new byte[Volume](_ => 0);
      metadata := new NibbleArray(Volume);
      blocklight := new NibbleArray(Volume);
      skylight := new NibbleArray(Volume);
      cache := None;
      isDirty := false;
      new;
      Fill(skylight.Data, 0xFF);
    }

    /** The block id at a voxel: the byte at its slot of the serialised form, cached or not. */
    function GetBlock(x: int, y: int, z: int): (r: byte)
      reads this, blocks, metadata.Data, blocklight.Data, skylight.Data
      requires Valid() && ValidIndex(x, y, z)
      ensures r == Encode(blocks[..], metadata.Data[..])[GetIndex(x, y, z)]
      ensures cache.Some? ==> r == cache.value[GetIndex(x, y, z)]
    {
      blocks[GetIndex(x, y, z)]
    }

    /** The metadata nibble at a voxel: the nibble at its slot of the metadata part of the serialised form. */
    function GetMetadata(x: int, y: int, z: int): (r: byte)
      reads this, blocks, metadata.Data, blocklight.Data, skylight.Data
      requires Valid() && ValidIndex(x, y, z)
      ensures r <= 0x0F
      ensures r == NibbleAt(Encode(blocks[..], metadata.Data[..])[Volume..], GetIndex(x, y, z))
      ensures cache.Some? ==> r == NibbleAt(cache.value[Volume..], GetIndex(x, y, z))
    {
      metadata.Get(GetIndex(x, y, z))
    }

    /** The block light level at a voxel, a single nibble. */
    function GetBlocklight(x: int, y: int, z: int): (r: byte)
      reads this, blocks, metadata.Data, blocklight.Data, skylight.Data
      requires Valid() && ValidIndex(x, y, z)
      ensures r <= 0x0F
    {
      blocklight.Get(GetIndex(x, y, z))
    }

    /** The sky light level at a voxel, a single nibble. */
    function GetSkylight(x: int, y: int, z: int): (r: byte)
      reads this, blocks, metadata.Data, blocklight.Data, skylight.Data
      requires Valid() && ValidIndex(x, y, z)
      ensures r <= 0x0F
    {
      skylight.Get(GetIndex(x, y, z))
    }

    /** Every voxel of a reset chunk reads as air, metadata 0, no block light, full sky light. */
    lemma ResetVoxel(x: int, y: int, z: int)
      requires IsReset() && ValidIndex(x, y, z)
      ensures GetBlock(x, y, z) == 0 && GetMetadata(x, y, z) == 0
      ensures GetBlocklight(x, y, z) == 0 && GetSkylight(x, y, z) == 0x0F
    {
      var i := GetIndex(x, y, z);
      NibbleOfUniform(metadata.Data[..], 0, i);
      NibbleOfUniform(blocklight.Data[..], 0, i);
      NibbleOfUniform(skylight.Data[..], 0xFF, i);
    }

    method IsAllAir() returns (r: bool)
      requires Valid()
      modifies this`isAllAir, this`isDirty
      ensures Valid() && !isDirty
      ensures r == AllEqual(blocks[..], 0)
      ensures cache == old(cache)
    {
      if isDirty {
        isAllAir := AllZero(blocks);
        isDirty := false;
      }
      r := isAllAir;
    }

    method SetBlock(x: int, y: int, z: int, bid: byte)
      requires Valid() && ValidIndex(x, y, z)
      modifies this`cache, this`isDirty, blocks
      ensures Valid()
      ensures blocks[..] == old(blocks[..])[GetIndex(x, y, z) := bid]
      ensures GetBlock(x, y, z) == bid
      ensures forall x', y', z' :: InSection(x, y, z) && InSection(x', y', z') && (x', y', z') != (x, y, z)
                ==> GetBlock(x', y', z') == old(GetBlock(x', y', z'))
      ensures cache == None && isDirty
    {
      blocks[GetIndex(x, y, z)] := bid;
      cache := None;
      isDirty := true;
    }

    method SetMetadata(x: int, y: int, z: int, data: byte)
      requires Valid() && ValidIndex(x, y, z)
      modifies this`cache, this`isDirty, metadata.Data
      ensures Valid()
      ensures metadata.Data[..] == WithNibble(old(metadata.Data[..]), GetIndex(x, y, z), data)
      ensures GetMetadata(x, y, z) == data & 0x0F
      ensures forall x', y', z' :: InSection(x, y, z) && InSection(x', y', z') && (x', y', z') != (x, y, z)
                ==> GetMetadata(x', y', z') == old(GetMetadata(x', y', z'))
      ensures cache == None && isDirty
    {
      metadata.Set(GetIndex(x, y, z), data);
      cache := None;
      isDirty := true;
    }

    /** Light writes leave ids, metadata, the cache and the dirty flag alone. */
    method SetBlocklight(x: int, y: int, z: int, data: byte)
      requires Valid() && ValidIndex(x, y, z)
      modifies blocklight.Data
      ensures Valid()
      ensures blocklight.Data[..] == WithNibble(old(blocklight.Data[..]), GetIndex(x, y, z), data)
      ensures GetBlocklight(x, y, z) == data & 0x0F
      ensures unchanged(this, blocks, metadata.Data, skylight.Data)
    {
      blocklight.Set(GetIndex(x, y, z), data);
    }

    method SetSkylight(x: int, y: int, z: int, data: byte)
      requires Valid() && ValidIndex(x, y, z)
      modifies skylight.Data
      ensures Valid()
      ensures skylight.Data[..] == WithNibble(old(skylight.Data[..]), GetIndex(x, y, z), data)
      ensures GetSkylight(x, y, z) == data & 0x0F
      ensures unchanged(this, blocks, metadata.Data, blocklight.Data)
    {
      skylight.Set(GetIndex(x, y, z), data);
    }

    /** The serialised segment, computed once and then served from the cache until a write. */
    method GetBytes() returns (r: seq<byte>)
      requires Valid()
      modifies this`cache
      ensures Valid()
      ensures r == Encode(blocks[..], metadata.Data[..]) && |r| == EncodedLength
      ensures old(cache).Some? ==> r == old(cache).value
      ensures cache == Some(r)
    {
      if cache.Some? {
        return cache.value;
      }
      r := Encode(blocks[..], metadata.Data[..]);
      cache := Some(r);
    }

    method Reset()
      requires Valid()
      modifies this, blocks, metadata.Data, blocklight.Data, skylight.Data
      ensures IsReset()
    {
      isAllAir := true;
      Fill(blocks, 0);
      Fill(metadata.Data, 0);
      Fill(blocklight.Data, 0);
      Fill(skylight.Data, 0xFF);
      cache := None;
      isDirty := false;
    }

    /**
      A deep copy taken from the pool. The pool must hold only reset
      segments none of which shares storage with this one; the copy then
      shares no storage with this segment, so later writes to either leave
      the other alone.
    */
    method Clone(pool: ChunkPool) returns (cc: Chunk)
      requires Valid() && pool.Valid() && pool.Excludes(this)
      modifies pool, pool.HeadRepr()
      ensures cc.Valid() && cc.Repr() !! Repr() && unchanged(Repr())
      ensures fresh(cc.Repr()) || cc.Repr() == old(pool.HeadRepr())
      ensures cc.blocks[..] == blocks[..] && cc.metadata.Data[..] == metadata.Data[..]
      ensures cc.blocklight.Data[..] == blocklight.Data[..] && cc.skylight.Data[..] == skylight.Data[..]
      ensures cc.isAllAir == isAllAir && cc.isDirty == isDirty && cc.cache == cache
      ensures pool.objects == if old(pool.objects) == [] then [] else old(pool.objects[1..])
      ensures pool.Valid() && pool.Excludes(cc)
    {
      cc := CreateObject(pool);
      cc.CopyFrom(this);
      assert forall i :: 0 <= i < |pool.objects| ==> pool.objects[i].IsReset();
    }

    /** The copying half of `Clone`: every field of `src` into this segment. */
    method CopyFrom(src: Chunk)
      requires Valid() && src.Valid() && IsReset() && Repr() !! src.Repr()
      modifies this, blocks, metadata.Data, blocklight.Data, skylight.Data
      ensures Valid() && unchanged(src.Repr())
      ensures blocks[..] == src.blocks[..] && metadata.Data[..] == src.metadata.Data[..]
      ensures blocklight.Data[..] == src.blocklight.Data[..] && skylight.Data[..] == src.skylight.Data[..]
      ensures isAllAir == src.isAllAir && isDirty == src.isDirty && cache == src.cache
    {
      isAllAir := src.isAllAir;
      isDirty := src.isDirty;
      CopyTo(src.blocks, blocks);
      CopyTo(src.metadata.Data, metadata.Data);
      CopyTo(src.blocklight.Data, blocklight.Data);
      CopyTo(src.skylight.Data, skylight.Data);
      if src.cache.Some? {
        cache := src.cache;
      }
    }

    /** Takes a segment from the pool: the oldest queued one, or a new one. */
    static method CreateObject(pool: ChunkPool) returns (c: Chunk)
      modifies pool
      ensures old(pool.objects) != [] ==> c == old(pool.objects[0]) && pool.objects == old(pool.objects[1..])
      ensures old(pool.objects) == [] ==> fresh(c.Repr()) && c.IsReset() && pool.objects == []
      ensures old(pool.Valid()) ==> pool.Valid() && c.IsReset() && pool.Excludes(c)
    {
      c := pool.GetObject();
    }

    /** Resets this segment and queues it for reuse. */
    method PutPool(pool: ChunkPool)
      requires Valid()
      modifies this, blocks, metadata.Data, blocklight.Data, skylight.Data, pool
      ensures IsReset()
      ensures pool.objects == old(pool.objects) + [this]
      ensures old(pool.Valid() && pool.Excludes(this)) ==> pool.Valid()
    {
      Reset();
      pool.PutObject(this);
    }
  }

  /** The storage of every segment in `cs`. */
  ghost function ReprOf(cs: seq<Chunk>): (r: set<object>)
    ensures forall i :: 0 <= i < |cs| ==> cs[i].Repr() <= r
  {
    if cs == [] then {} else cs[0].Repr() + ReprOf(cs[1..])
  }

  /** Every segment of `cs` is in the reset state. */
  ghost predicate AllReset(cs: seq<Chunk>)
    reads ReprOf(cs)
  {
    forall i :: 0 <= i < |cs| ==> cs[i].IsReset()
  }

  /** No two segments of `cs` share storage. */
  ghost predicate Separate(cs: seq<Chunk>)
  {
    forall i, j :: 0 <= i < j < |cs| ==> cs[i].Repr() !! cs[j].Repr()
  }

  /**
    A first-in first-out queue of segments (`ChunkPool<Chunk>`, whose
    generator is `new Chunk()`).
  */
  class ChunkPool {
    var objects: seq<Chunk>

    constructor ()
      ensures objects == []
    {
      objects := [];
    }

    /**
      The discipline the segments' owners keep: every queued segment is in
      the reset state and no two queued segments share storage.
    */
    ghost predicate Valid()
      reads this, ReprOf(objects)
    {
      AllReset(objects) && Separate(objects)
    }

    /** No queued segment shares storage with `c` (so `c` itself is not queued). */
    ghost predicate Excludes(c: Chunk)
      reads this
    {
      forall i :: 0 <= i < |objects| ==> objects[i].Repr() !! c.Repr()
    }

    /** The storage of the segment `GetObject` would hand out next. */
    ghost function HeadRepr(): set<object>
      reads this
    {
      if objects == [] then {} else objects[0].Repr()
    }

    method GetObject() returns (c: Chunk)
      modifies this
      ensures old(objects) != [] ==> c == old(objects[0]) && objects == old(objects[1..])
      ensures old(objects) == [] ==> fresh(c.Repr()) && c.IsReset() && objects == []
      ensures old(Valid()) ==> Valid() && c.IsReset() && Excludes(c)
    {
      if objects != [] {
        c := objects[0];
        objects := objects[1..];
      } else {
        c := new Chunk();
      }
    }

    /** Enqueues at the tail; a reset segment sharing no storage with the queued ones keeps the discipline. */
    method PutObject(item: Chunk)
      modifies this
      ensures objects == old(objects) + [item]
      ensures old(Valid()) && item.IsReset() && old(Excludes(item)) ==> Valid()
    {
      objects := objects + [item];
    }

    /** One round of `FillPool`: a segment from the generator, enqueued. */
    method Generate() returns (item: Chunk)
      modifies this
      ensures objects == old(objects) + [item]
      ensures fresh(item.Repr()) && item.IsReset()
      ensures old(Valid()) ==> Valid()
    {
      item := new Chunk();
      assert Excludes(item);
      PutObject(item);
    }

    /** Queues `count` new segments behind the ones already queued. */
    method FillPool(count: int)
      modifies this
      ensures |objects| == |old(objects)| + (if count > 0 then count else 0)
      ensures objects[..|old(objects)|] == old(objects)
      ensures forall i :: |old(objects)| <= i < |objects| ==> fresh(objects[i].Repr()) && objects[i].IsReset()
      ensures old(Valid()) ==> Valid()
    {
      var i := 0;
      while i < count
        invariant 0 <= i <= (if count > 0 then count else 0)
        invariant |objects| == |old(objects)| + i
        invariant objects[..|old(objects)|] == old(objects)
        invariant forall k :: |old(objects)| <= k < |objects| ==> fresh(objects[k].Repr()) && objects[k].IsReset()
        invariant old(Valid()) ==> Valid()
      {
        var item := Generate();
        i := i + 1;
      }
    }
  }

  /** A segment put back into an empty pool is the next one handed out, already reset. */
  method Recycle(c: Chunk, pool: ChunkPool) returns (r: Chunk)
    requires c.Valid() && pool.objects == []
    modifies c, c.blocks, c.metadata.Data, c.blocklight.Data, c.skylight.Data, pool
    ensures r == c && r.IsReset() && pool.objects == []
  {
    c.PutPool(pool);
    r := Chunk.CreateObject(pool);
  }

  /** Writing to a clone leaves the segment it was taken from as it was: the two share no storage. */
  method WriteToClone(c: Chunk, pool: ChunkPool, x: int, y: int, z: int, bid: byte) returns (cc: Chunk)
    requires c.Valid() && pool.Valid() && pool.Excludes(c) && ValidIndex(x, y, z)
    modifies pool, pool.HeadRepr()
    ensures cc.Valid() && cc.GetBlock(x, y, z) == bid
    ensures c.Valid() && unchanged(c.Repr())
  {
    cc := c.Clone(pool);
    cc.SetBlock(x, y, z, bid);
  }

  /** Reading the serialised form twice with no write in between gives the same bytes. */
  method RereadBytes(c: Chunk) returns (a: seq<byte>, b: seq<byte>)
    requires c.Valid()
    modifies c`cache
    ensures a == b && c.Valid() && c.cache == Some(a)
  {
    a := c.GetBytes();
    b := c.GetBytes();
  }

  /** After an id write, the next serialised form carries the new id at the voxel's slot. */
  method WriteThenBytes(c: Chunk, x: int, y: int, z: int, bid: byte) returns (b: seq<byte>)
    requires c.Valid() && ValidIndex(x, y, z)
    modifies c`cache, c`isDirty, c.blocks
    ensures c.Valid() && |b| == EncodedLength && b[GetIndex(x, y, z)] == bid
    ensures c.cache == Some(b)
  {
    c.SetBlock(x, y, z, bid);
    b := c.GetBytes();
  }

  /** Light is not part of the serialised form: light writes between two reads leave it as it was. */
  method LightKeepsBytes(c: Chunk, x: int, y: int, z: int, blocklight: byte, skylight: byte) returns (a: seq<byte>, b: seq<byte>)
    requires c.Valid() && ValidIndex(x, y, z)
    modifies c`cache, c.blocklight.Data, c.skylight.Data
    ensures a == b && c.Valid()
    ensures c.GetBlocklight(x, y, z) == blocklight & 0x0F && c.GetSkylight(x, y, z) == skylight & 0x0F
  {
    a := c.GetBytes();
    c.SetBlocklight(x, y, z, blocklight);
    c.SetSkylight(x, y, z, skylight);
    b := c.GetBytes();
  }
}
