# Chunk segments and leaf decay in MiNET, modelled in Dafny

This project models two pieces of the MiNET Minecraft server.

**Chunk segments.** A `Chunk` is one 16x16x16 segment of a chunk column. It holds:

- one byte of block id per voxel;
- three packed 4-bit fields: metadata, block light and sky light;
- a cached serialised form (block ids followed by packed metadata);
- a memoised "all air" answer guarded by a dirty flag.

Segments are recycled through a first-in first-out `ChunkPool`.

**Leaf decay.** Two metadata bits drive the decay of a `Leaves` block:

- 0x04 disables decay;
- 0x08 marks a pending check.

A neighbour change only raises the pending bit. The next tick searches for a log through leaves of the same species (the low three bits), at most four face steps away. If it finds one, it clears the bit. Otherwise it replaces the leaf with air, drops its items and notifies its neighbours.

Files:

- `Utils.dfy`: bytes, `Option`, the packed nibble array, bulk fill and copy.
- `Chunk.dfy` (module `Worlds`):
  - the `Chunk` class, whose class invariant `Valid` ties the cache and the all-air memo to the arrays;
  - the `ChunkPool` class, whose `Valid` is the reuse discipline: queued segments are reset and share no storage;
  - the slot arithmetic and the serialised form.
- `Level.dfy` (module `Levels`): the level the block talks to. It is a map from coordinates to blocks plus an ordered log of the mutating calls made on it.
- `Leaves.dfy` (module `Blocks`):
  - the metadata transitions;
  - the drops;
  - the depth-bounded search `FindLog`, as a function that returns the found flag and the visited list it leaves behind, with its soundness;
  - the `Leaves` class with `BlockUpdate` and `OnTick`.
- `LeavesScenarios.dfy`: three small worlds on which the search result is proved.

## Model

| member | source | states |
|---|---|---|
| Worlds.GetIndex | src/MiNET/MiNET/Worlds/Chunk.cs:69-72 | every voxel of the segment gets a slot in [0, 4096), and `Voxel` recovers the voxel from it |
| Worlds.IndexOnto | src/MiNET/MiNET/Worlds/Chunk.cs:69-72 | every slot in [0, 4096) is the index of a voxel of the segment |
| Worlds.IndexInjective | src/MiNET/MiNET/Worlds/Chunk.cs:69-72 | distinct voxels of the segment get distinct slots |
| Worlds.Encode | src/MiNET/MiNET/Worlds/Chunk.cs:126-135 | the serialised form is the block ids followed by the packed metadata bytes; its length is their sum |
| Worlds.Decode | src/MiNET/MiNET/Worlds/Chunk.cs:130-131 | a byte string splits into ids and metadata exactly when it has the serialised length 6144 |
| Worlds.DecodeEncode | src/MiNET/MiNET/Worlds/Chunk.cs:130-131 | decoding the serialised form gives back both fields |
| Worlds.EncodeDecode | src/MiNET/MiNET/Worlds/Chunk.cs:130-131 | every well-formed serialised segment is the encoding of its decoding |
| Worlds.EncodedVoxel | src/MiNET/MiNET/Worlds/Chunk.cs:122-138 | a voxel's id is at its slot of the serialised form, and its metadata nibble is in the part after the ids |
| Worlds.AllZero | src/MiNET/MiNET/Worlds/Chunk.cs:63 | the scan answers true exactly when every block id is 0 |
| Worlds.Chunk.constructor | src/MiNET/MiNET/Worlds/Chunk.cs:40-55 | a new segment is in the reset state: ids, metadata and block light 0, sky light bytes 0xFF, no cache, clean, all air |
| Worlds.Chunk.ResetVoxel | src/MiNET/MiNET/Worlds/Chunk.cs:177-188 | in the reset state every voxel reads id 0, metadata 0, block light 0 and sky light 15 |
| Worlds.Chunk.GetBlock | src/MiNET/MiNET/Worlds/Chunk.cs:74-77 | the id read at a voxel is the byte at its slot of the serialised form, and of the cached bytes when a cache is present |
| Worlds.Chunk.GetMetadata | src/MiNET/MiNET/Worlds/Chunk.cs:98-101 | the metadata read at a voxel is a nibble (at most 15): the one at its slot of the metadata part of the serialised form, and of the cached bytes when a cache is present |
| Worlds.Chunk.GetBlocklight | src/MiNET/MiNET/Worlds/Chunk.cs:86-89 | the block light read at a voxel is a nibble (at most 15) |
| Worlds.Chunk.GetSkylight | src/MiNET/MiNET/Worlds/Chunk.cs:110-113 | the sky light read at a voxel is a nibble (at most 15) |
| Worlds.Chunk.IsAllAir | src/MiNET/MiNET/Worlds/Chunk.cs:59-67 | returns whether every id is 0, leaves the dirty flag clear and keeps the cache and the class invariant |
| Worlds.Chunk.SetBlock | src/MiNET/MiNET/Worlds/Chunk.cs:79-84 | the voxel reads back `bid`, every other voxel keeps its id, the cache is dropped and the dirty flag raised |
| Worlds.Chunk.SetMetadata | src/MiNET/MiNET/Worlds/Chunk.cs:103-108 | the voxel reads back the low four bits of `data`, every other slot keeps its nibble, the cache is dropped and the dirty flag raised |
| Worlds.Chunk.SetBlocklight | src/MiNET/MiNET/Worlds/Chunk.cs:91-96 | the voxel reads back the low four bits of `data`; ids, metadata, sky light, cache and flags are untouched |
| Worlds.Chunk.SetSkylight | src/MiNET/MiNET/Worlds/Chunk.cs:115-120 | the voxel reads back the low four bits of `data`; ids, metadata, block light, cache and flags are untouched |
| Worlds.Chunk.GetBytes | src/MiNET/MiNET/Worlds/Chunk.cs:122-138 | returns the serialised form of ids and metadata (6144 bytes); a present cache is returned as is; afterwards the cache holds the result |
| Worlds.Chunk.Reset | src/MiNET/MiNET/Worlds/Chunk.cs:177-188 | leaves the segment in the reset state |
| Worlds.Chunk.Clone | src/MiNET/MiNET/Worlds/Chunk.cs:143-162 | the copy has the source's four arrays, flags and cache; it shares no storage with the source, which is unchanged; the pool loses its head |
| Worlds.Chunk.CopyFrom | src/MiNET/MiNET/Worlds/Chunk.cs:146-157 | copying into a reset segment makes every array, flag and the cache equal to the source's |
| Worlds.Chunk.CreateObject | src/MiNET/MiNET/Worlds/Chunk.cs:166-169 | takes the pool's head, or a fresh reset segment when the pool is empty; under the pool discipline the result is reset |
| Worlds.Chunk.PutPool | src/MiNET/MiNET/Worlds/Chunk.cs:171-175 | resets the segment, then appends it to the pool; the discipline is kept |
| Worlds.ChunkPool.constructor | src/MiNET/MiNET/Worlds/Chunk.cs:213-218 | a new pool is empty |
| Worlds.ChunkPool.GetObject | src/MiNET/MiNET/Worlds/Chunk.cs:220-225 | removes and returns the head when the queue is non-empty, otherwise returns a fresh reset segment; under the discipline the result is reset and owns its storage |
| Worlds.ChunkPool.PutObject | src/MiNET/MiNET/Worlds/Chunk.cs:229-232 | appends the item at the tail; a reset segment that shares no storage with the queued ones keeps the discipline |
| Worlds.ChunkPool.Generate | src/MiNET/MiNET/Worlds/Chunk.cs:208-209 | one round of the fill loop: the generated segment is new and reset, it is appended at the tail, and the discipline is kept |
| Worlds.ChunkPool.FillPool | src/MiNET/MiNET/Worlds/Chunk.cs:204-211 | appends `max(count, 0)` fresh reset segments behind the queued ones and keeps the discipline |
| Worlds.Recycle | src/MiNET/MiNET/Worlds/Chunk.cs:164-175 | a segment put back into an empty pool is the next one handed out, and it is reset |
| Worlds.WriteToClone | src/MiNET/MiNET/Worlds/Chunk.cs:143-162 | a write to a clone reads back on the clone and leaves the segment it was cloned from unchanged |
| Worlds.RereadBytes | src/MiNET/MiNET/Worlds/Chunk.cs:122-138 | two reads of the serialised form with no write in between return the same bytes, and the second leaves them cached |
| Worlds.WriteThenBytes | src/MiNET/MiNET/Worlds/Chunk.cs:79-84 | after `SetBlock`, the next serialised form (6144 bytes) has `bid` at the voxel's slot, and it is cached |
| Worlds.LightKeepsBytes | src/MiNET/MiNET/Worlds/Chunk.cs:86-96 | block-light and sky-light writes between two reads of the serialised form leave it as it was, while the light values read back |
| Utils.WithNibble | src/MiNET/MiNET/Worlds/Chunk.cs:103-108 | writing one packed slot sets it to the low four bits of the value and leaves every other slot and every other byte as it was |
| Utils.NibbleOfUniform | src/MiNET/MiNET/Worlds/Chunk.cs:184 | bytes filled with one value hold its low half in even slots and its high half in odd slots |
| Utils.Fill | src/MiNET/MiNET/Worlds/Chunk.cs:180-184 | every element of the array equals the fill value |
| Utils.CopyTo | src/MiNET/MiNET/Worlds/Chunk.cs:149-152 | the destination holds the source's contents |
| Utils.NibbleArray.constructor | src/MiNET/MiNET/Worlds/Chunk.cs:43-45 | a new nibble array of `n` slots has `n / 2` zero bytes |
| Utils.NibbleArray.Get | src/MiNET/MiNET/Worlds/Chunk.cs:88 | the indexer read returns a nibble (at most 15) |
| Utils.NibbleArray.Set | src/MiNET/MiNET/Worlds/Chunk.cs:93 | the indexer write changes only the addressed half of one byte, and the slot reads back the low four bits |
| Blocks.MarkPending | src/MiNET/MiNET/Blocks/Leaves.cs:22-35 | a new metadata byte is written exactly when neither 0x04 nor 0x08 is set; it has 0x08 set and agrees with the old byte on every other bit |
| Blocks.MarkPendingIdempotent | src/MiNET/MiNET/Blocks/Leaves.cs:25-31 | a second structural update writes nothing |
| Blocks.MarkPendingMakesPending | src/MiNET/MiNET/Blocks/Leaves.cs:33-45 | after a structural update the next tick runs the check |
| Blocks.Settle | src/MiNET/MiNET/Blocks/Leaves.cs:51 | the species bits are kept, every other bit is cleared, so no check is pending |
| Blocks.GetDrops | src/MiNET/MiNET/Blocks/Leaves.cs:67-85 | at most one item; the apple exactly when the whole byte is 0 and the first draw is 0; otherwise the sapling carrying the metadata exactly when the next draw is 0 |
| Blocks.DecayNeverDropsApple | src/MiNET/MiNET/Blocks/Leaves.cs:42-81 | with the pending bit set, as on the decay path, the apple is never dropped: only the sapling or nothing |
| Blocks.DropCalls | src/MiNET/MiNET/Blocks/Leaves.cs:59-62 | one drop call per item, in the items' order |
| Blocks.FindLog | src/MiNET/MiNET/Blocks/Leaves.cs:87-115 | the visited list only grows (the input is a prefix), stays free of duplicates, and never records a log |
| Blocks.FindLogAround | src/MiNET/MiNET/Blocks/Leaves.cs:101-114 | the same bookkeeping for the six neighbours tried in the order Down, West, East, South, North, Up |
| Blocks.FindLogEntry | src/MiNET/MiNET/Blocks/Leaves.cs:89-99 | a visited coordinate gives false and leaves the list alone; a log gives true at any depth without recording it; any other block is recorded; the search goes deeper only below depth 4 through a same-species leaf |
| Blocks.FindLogSound | src/MiNET/MiNET/Blocks/Leaves.cs:87-115 | when the search succeeds, a log is within the remaining depth budget along face steps through same-species leaves, avoiding the already-visited coordinates |
| Blocks.FindLogAroundSound | src/MiNET/MiNET/Blocks/Leaves.cs:101-114 | success of the neighbour loop from face `k` comes from some neighbour `j >= k` that has such a path |
| Blocks.FarLogNotFound | src/MiNET/MiNET/Blocks/Leaves.cs:87-115 | when every log is farther than the remaining budget (Manhattan distance), the search fails |
| Blocks.CutOffLogNotFound | src/MiNET/MiNET/Blocks/Leaves.cs:87-115 | when no same-species leaf touches a log and the start is not a log, the search fails |
| Blocks.Leaves.constructor | src/MiNET/MiNET/Blocks/Leaves.cs:14-20 | a leaf with the given metadata and position |
| Blocks.Leaves.LogNearby | src/MiNET/MiNET/Blocks/Leaves.cs:49 | when the search `OnTick` runs from this leaf succeeds, a log is within four face steps through leaves of its species |
| Blocks.Leaves.BlockUpdate | src/MiNET/MiNET/Blocks/Leaves.cs:22-35 | nothing happens when decay is disabled or a check is pending; otherwise exactly bit 0x08 is added and one `SetBlock(this, false, false, false)` is issued |
| Blocks.Leaves.UpdateBlocks | src/MiNET/MiNET/Blocks/Leaves.cs:64 | one neighbour notification is appended to the call log |
| Blocks.Leaves.OnTick | src/MiNET/MiNET/Blocks/Leaves.cs:37-65 | with no pending check nothing changes and no call is made; when a log is found the byte is settled and one `SetBlock` is issued; otherwise `SetAir`, one `DropItem` per drop in order, then the neighbour notification, and the leaf becomes air |
| Blocks.BlockUpdateTwice | src/MiNET/MiNET/Blocks/Leaves.cs:22-35 | two structural updates have exactly the effect of one |
| Levels.Level.GetBlock | src/MiNET/MiNET/Blocks/Leaves.cs:91 | the block stored at a coordinate, and air at a coordinate the level does not hold |
| Levels.Level.SetBlock | src/MiNET/MiNET/Blocks/Leaves.cs:52 | the coordinate holds the new block, nothing else changes in the map, and the call with its three flags is appended to the log |
| Levels.Level.SetAir | src/MiNET/MiNET/Blocks/Leaves.cs:58 | the coordinate holds air, nothing else changes in the map, and the call is appended to the log |
| Levels.Level.DropItem | src/MiNET/MiNET/Blocks/Leaves.cs:61 | the map is unchanged and the call with its item is appended to the log |
| LeavesScenarios.LineReachesLog | src/MiNET/MiNET/Blocks/Leaves.cs:101-102 | three steps straight down through oak leaves the search finds the log |
| LeavesScenarios.LongLineMissesLog | src/MiNET/MiNET/Blocks/Leaves.cs:96 | a log five steps away is beyond the depth cap and is not found |
| LeavesScenarios.OtherSpeciesBlocksSearch | src/MiNET/MiNET/Blocks/Leaves.cs:99 | a leaf of another species on the only route blocks the search |

## Left out

- Concurrency is not modelled. The pool's `ConcurrentQueue` is a sequential queue, and the never-locked `_cacheSync` object is not modelled.
- Logging calls and the `~Chunk` finalizer are not modelled. They are diagnostics only.
- The stream and writer in `GetBytes` are taken to produce the plain concatenation of the block ids and the packed metadata.
- The packed nibble array's own source file is not part of this model. Its layout is assumed: slot `i` is in byte `i / 2`, even slots in the low half, masked to four bits.
- `ChunkColumn.Fill` and `Array.Clear` are modelled as whole-array assignments.
- Worlds.Chunk.SetBlock: it, the other setters and the getters require the computed slot to be inside the arrays. The index exception the runtime raises otherwise is not modelled, and neither is 32-bit overflow in the slot arithmetic.
- Worlds.Chunk.GetBytes: it returns the bytes as a value. The caller sharing the cached array with the segment (aliasing) is not modelled.
- Worlds.Chunk.Clone: it requires the pool discipline (queued segments are reset and do not share storage with the one being cloned). Without it, the pooled segment handed out could be the source itself.
- Worlds.Chunk.CreateObject: the process-wide static pool is an explicit `ChunkPool` parameter, here and in `Clone` and `PutPool`.
- The generic `ChunkPool<T>` is specialised to `Chunk`, and its generator is always `new Chunk()`. The null-generator check in its constructor therefore never fires.
- `MaxPoolSize` is declared but never used.
- `IsDirty` is a read-only property; it is the `isDirty` field.
- The level's internals are not modelled: chunk storage, lighting and networking. The level is a block map plus an ordered log of `SetBlock`, `SetAir` and `DropItem` calls, and `UpdateBlocks` is one opaque event in that log. That event leaves the block map alone in the model. In the source, `UpdateBlocks` calls `BlockUpdate` on the six face neighbours, and a neighbouring `Leaves` block with 0x04 and 0x08 clear raises 0x08 and writes itself back with `SetBlock`. Those neighbour effects are not modelled, so the frame `OnTick` states on the block map (only the leaf's own voxel changes) holds for the model only.
- The block kinds the protocol tells apart are: a log, a `Leaves` block (any block whose type is `Leaves`), and anything else.
- The six face offsets are assumed to be Down (0,-1,0), Up (0,1,0), West (-1,0,0), East (1,0,0), North (0,0,-1) and South (0,0,1).
- Coordinates are unbounded integers.
- The time-seeded random generator in `GetDrops` is not modelled. Its two `Next` results are inputs, and probabilities are not modelled.
- The float and static block properties set in the `Leaves` constructor (hardness, blast resistance, flammability, transparency) are left out.
- The `isRandom` argument of `OnTick` and the `blockCoordinates` argument of `BlockUpdate` are unused by the source. The model keeps them and ignores them.
- Completeness of `FindLog` is not claimed. The visited list is shared between sibling branches, so a leaf first reached deep along a detour is refused later on a shorter route. For example, with oak leaves at (0,0,0), (1,0,0), (2,0,0), (0,-1,0), (1,-1,0), (2,-1,0) and a log at (3,0,0), a search from (0,0,0) goes Down first: it reaches (1,0,0) at depth 3 through (0,-1,0) and (1,-1,0), where the log is out of budget, and the origin's East step then finds (1,0,0) already visited, although the log is three steps away. No lemma of this model states that example.
- Direct writes to the public arrays `blocks`, `metadata`, `blocklight` and `skylight` of a `Chunk`, and to a nibble array's backing bytes, are not modelled: the fields are constants of the class and change only through its methods. The class invariant `Valid` (a present cache is the encoding of the ids and metadata, and a clean dirty flag means the all-air memo is right) therefore holds only for writes made through the setters; a caller that writes the arrays directly can break both in the source.
