# Metall's allocator in Dafny

Metall is a persistent memory allocator. A segment of memory is divided into chunks. A chunk either is
cut into equal slots for small objects, found through a tree of bitmap words, or belongs to a run of
chunks that holds one large object. For each small object size there is a list of chunks with a free slot.
Between the callers and the chunks lie caches of free objects, one of which is used by each call. On
closing, the caches are flushed and both directories are written as text.

This project models that core, from the bit tricks to whole runs and thread interleavings, together with
two smaller parts of the repository: the hash index of `string_key_store` and the breadth-first search
kernel of the benchmarks.

`dafny verify dfyconfig.toml` checks everything.

## How the modules fit together

- `Bits`, `BitRange`, `Utilities`: machine words, masks, powers of two.
- `FreeSlots`, `BitTree`, `MultilayerBitset`: slot search. `FreeSlots` is the plain meaning (a set of taken
  positions), `BitTree` the tree, `MultilayerBitset` the loops over one flat array.
- `SizeClasses`: object sizes.
- `ChunkTable` and `ChunkDirectory`, `BinDirectory`, `Text`: the directories, as values and as classes, and
  how they are saved and restored.
- `BlockQueue`, `CacheBudget`, `Threads`, `ObjectCache`: a cache as a queue of blocks, which is a stack for
  each size, and as two doubly linked lists over one array of blocks.
- `Ledger`, `GlobalAllocator`, `LargeAllocation`, `CachedAllocator`, `Allocator`: allocation and
  deallocation as functions on the whole state, with a ledger of who holds which slot.
- `SegmentAllocator`: the same operations in place on the directories and caches; every method is proved
  to do what its function says.
- `Safety`, `Orphans`, `Runs`, `Queries`, `Availability`: what this means for clients, and exactly when a
  request is met.
- `Placement`, `Behaviour`: which offset a request gets and where a freed object goes, without naming the
  functions on the way.
- `Persistence`: closing and opening again.
- `PageRelease`, `ResidentPages`: pages given back to the system.
- `Concurrency`: threads as a state machine over the critical sections; `Solo`: a thread alone does what the
  sequential operations do.
- `StringKeyStore`; `Bfs` and `ParallelBfs`, the search with one thread and with many.

## Hypotheses

- Chunk sizes are powers of two from 512 bytes to 128 MiB (`ValidConfig`): below, the class table has no
  small size above 256 bytes; above, the slot bitmaps of 8-byte objects exceed the 2^24 bits the tables of
  multilayer_bitset.hpp provide for.
- A cache has at least 1024 bytes and caches only sizes of which two refills fit (`ValidSetup`);
  `CompMaxBinNo` computes such a size.
- The storage under the segment is an arbitrary function: asked for a size, it answers with the size it has
  afterwards, and may fail at any time. The one thing asked of it (`Bounded`) is that the segment stays
  below the size at which a chunk past the end of the chunk table would fit.
- Pages divide the chunk (`ValidPaging`). Saving and restoring is for segment sizes of 64 bits (`SizeFits`).
- Which cache a call uses, and the hash function of `string_key_store`, are arbitrary.
- Requests above the largest class have no bin (the index is -1) and are excluded, as are offsets the
  client does not hold.

## Where the code does not do what one would expect

- When no run of unused chunks is long enough for a large object, the clean-up of the failed allocation erases
  chunk number `m_max_num_chunks`, which is outside the table (segment_allocator.hpp:497-501). It does so if
  and only if there is no such run: `LargeAllocation.AllocLargeCorrect`. An example is a request for the whole
  segment while anything is allocated: `Allocator.WholeSegmentOutside`. The assertions at
  chunk_directory.hpp:119 and :128 fail there, and the one at :119 also on the small path when the table is
  full: `ChunkTable.InsertAssertion` is the exact condition. The methods report such an access by a result
  named `outside`; `ChunkTable.EraseAtMeans` says what it does to memory.
- When the segment cannot be extended for a small object, the new chunk stays registered although it is on
  no list (segment_allocator.hpp:482-486). The list of a bin is therefore exact only without such orphans:
  `Orphans.ListsExact`, `Runs.RunHasNoOrphans`, `Runs.EmptyAgain`, `Concurrency.FreeListExact`.
- A refill that fails leaves null offsets in the cache, which are later given to callers, and make
  `all_memory_deallocated` answer false although nothing is held: `Queries.AllDeallocatedMeans` is the exact
  condition, `Queries.DeallocatedButFalse` the example. It does not happen over runs in which there is room
  for every refill: `Availability.RunAnswers`.
- The assertion on the object size in `allocate_aligned` fails for zero bytes with an alignment above 8
  bytes, and only then: `Queries.AlignedSizeCheck`.
- Page release looks at the slot after the last one, which does not exist, unless the last slot ends on a page
  boundary: `ResidentPages.LastSlotDecides`, with `ResidentPages.LastSlotMisaligned` as the example. The
  bitmap does have a bit there and it is clear (`ChunkDirectory.SlotInBitmap`), so the region freed is right for
  every page size.
- Erasing a key from `string_key_store` can hide other keys, and the allocator-extended copy and move
  constructors forget how far to probe: `StringKeyStore.EraseBreaks` and `StringKeyStore.CopyFinds` say
  exactly when. `Rehash` repairs both, but in unique mode keeps whichever duplicate comes last in bucket order.
- Inserting a key with a value into `string_key_store` hashes and compares a view of the key, but stores what it
  reads as a C string where the view starts. A NUL character in the view cuts the key off, and a view that is not
  followed by one is stored with what follows. `StringKeyStore.InsertFinds` is the exact condition for finding the
  key, `StringKeyStore.CutOffExample` and `StringKeyStore.RunOnExample` are examples, and
  `StringKeyStore.OthersFind` says which other keys can be affected. `Rehash` cuts keys off, too.
- `clear` of the object cache takes no cache lock. Beside a push or pop a flush frees objects twice or loses them:
  `Concurrency.FlushExact` is the exact condition, `Concurrency.FlushRaces` the failing step.
- Reading a saved bitmap with more words than it should have writes one word past the end before it is refused:
  `MultilayerBitset.MultilayerBitset.Deserialize` reports this by `outside`.
- Updating no bits at the start of a word shifts by the whole width, which is undefined: `BitRange.NoBits`.
- The breadth-first search uses a level of 65535 for infinity, so it goes wrong exactly when a vertex is
  that far away: `Bfs.BfsData.Kernel`. Its threads race for the words of the visited filter, which does no harm:
  `ParallelBfs.KernelCorrect`.

## Model

| member | source | states |
|---|---|---|
| `Runs.RunIsSafe` | include/metall/kernel/segment_allocator.hpp:150-223 | Over every run of allocate, deallocate and cache flush from any consistent state, whatever cache each call uses and whatever the storage answers: live allocations are pairwise disjoint byte ranges, each at least as large as requested and inside the segment, and the marked slots are the disjoint union of what the client and the caches hold. |
| `Runs.FreshRunIsSafe` | include/metall/kernel/segment_allocator.hpp:113-223 | The same from a fresh allocator, with the ledger written out: every marked slot is held once, by the client or in one place of one cache. |
| `Runs.InitialOk` | include/metall/kernel/segment_allocator.hpp:113-131 | A fresh allocator is consistent and has no orphan chunk. |
| `Runs.StepCorrect` | include/metall/kernel/segment_allocator.hpp:150-223 | Each legal operation keeps everything accounted for and never shrinks the segment. |
| `Runs.FlushAllCorrect` | include/metall/kernel/segment_allocator.hpp:667-670 | After a flush of all caches nothing is cached, the client holds the same objects, and everything is accounted for. |
| `Runs.RunHasNoOrphans` | include/metall/kernel/segment_allocator.hpp:477-488 | Over any run in which extension never fails, every registered small chunk has a marked slot between operations. |
| `Runs.EmptyAgain` | include/metall/kernel/segment_allocator.hpp:553-577 | Once the client has freed everything and the caches are flushed, all lists are empty and only orphan chunks are registered, so the directory is empty exactly when there is no orphan. |
| `Runs.FreedRunIsEmpty` | include/metall/kernel/segment_allocator.hpp:553-577 | From a fresh allocator whose storage never fails: once all objects are freed and the caches flushed, no chunk is in use and every list is empty. |
| `SegmentAllocator.SaveAndRestore` | include/metall/kernel/segment_allocator.hpp:256-293 | Closing and opening again, for every consistent allocator of a 64-bit segment size: what is written is read back by a new allocator, with any number of caches, whose chunk table, lists and segment are the old ones, whose caches are empty, and in which the client holds exactly what it held. |
| `Availability.RunAnswers` | include/metall/kernel/segment_allocator.hpp:228-245 | Over every run from a fresh allocator in which each request of a cached size finds room for a refill, `all_memory_deallocated` answers true exactly when the client holds nothing. |
| `Availability.AllocSmallServed` | include/metall/kernel/segment_allocator.hpp:390-475 | With storage that can be extended, n small objects are allocated if and only if n is at most the room counted chunk by chunk: the free slots of listed chunks and all slots of unused chunks; in bulk or one by one. |
| `Availability.AllocLargeServed` | include/metall/kernel/segment_allocator.hpp:490-505 | With such storage a large object is allocated if and only if a long enough run of unused chunks exists. |
| `Availability.AllocateServed` | include/metall/kernel/segment_allocator.hpp:150-160 | With room, a request through cache, chunks or run is met, and no null offset enters a cache. |
| `Availability.RunFilled` | include/metall/kernel/object_cache.hpp:622-653 | Over every such run no cache ever holds a null offset. |
| `Availability.FreeOneRoom` | include/metall/kernel/segment_allocator.hpp:553-577 | Freeing a slot gives its bin exactly one more object of room, and never takes room from another bin. |
| `Availability.ProvideServed` | include/metall/kernel/segment_allocator.hpp:412-418 | A chunk to take slots from is found or made exactly when there is room. |
| `Availability.PopServed` | include/metall/kernel/object_cache.hpp:595-664 | A cache without null offsets that finds room gives an object and stays without. |
| `Safety.WorldIsSafe` | include/metall/kernel/segment_allocator.hpp:150-223 | In every consistent state what the client holds is disjoint, large enough and in the segment. |
| `Safety.SmallApart` | include/metall/kernel/segment_allocator.hpp:408-431 | Two different small objects do not overlap, whether in one chunk or two. |
| `Safety.LargeApart` | include/metall/kernel/segment_allocator.hpp:490-505 | Two different large objects do not overlap. |
| `Safety.MixedApart` | include/metall/kernel/segment_allocator.hpp:150-160 | A small and a large object do not overlap. |
| `Safety.SizeIsEnough` | include/metall/kernel/object_size_manager.hpp:125-139 | The object size chosen for a request is at least the request. |
| `Orphans.ListsExact` | include/metall/kernel/segment_allocator.hpp:408-488 | Without orphans the list of a bin has no duplicates and is exactly the bin's chunks with a free slot, and every small chunk has a marked slot. |
| `Orphans.AllocManyOrphans` | include/metall/kernel/segment_allocator.hpp:433-475 | Allocation makes no orphan when extension succeeds. |
| `Orphans.FreeOneOrphans` | include/metall/kernel/segment_allocator.hpp:553-577 | Freeing never makes an orphan: a chunk that becomes empty is unregistered. |
| `Orphans.AllocateOrphans` | include/metall/kernel/segment_allocator.hpp:150-160 | A whole allocate, with refill and eviction, makes no orphan when extension succeeds. |
| `Orphans.DeallocateOrphans` | include/metall/kernel/segment_allocator.hpp:211-223 | A whole deallocate, with eviction, makes no orphan. |
| `Concurrency.RunKeeps` | include/metall/kernel/segment_allocator.hpp:390-577 | Every interleaving of any number of threads at the critical sections, with extensions that may fail and objects that pass from thread to thread, keeps the invariant and the lock order. |
| `Concurrency.StepKeeps` | include/metall/kernel/segment_allocator.hpp:390-577 | Each atomic step of any thread keeps the invariant: one owner per slot, one owner per large object, each list exact, up to orphans, for whoever holds its lock. |
| `Concurrency.InitialOk` | include/metall/kernel/segment_allocator.hpp:113-131 | The state with no chunk and no lock held satisfies the invariant and the lock order. |
| `Concurrency.NoTwoOwners` | include/metall/kernel/segment_allocator.hpp:390-406 | A slot held by a thread, also by the only one, is held by no other thread and by no cache, and is marked. |
| `Concurrency.OneOwner` | include/metall/kernel/object_cache.hpp:601-664 | Over all threads and all caches together a slot is owned at most once. |
| `Solo.TakesAlone` | include/metall/kernel/segment_allocator.hpp:390-431 | A thread that meets no other at the lock of a bin allocates, step by step, the same slot and leaves the same state as the sequential allocation. |
| `Solo.TakesNewAlone` | include/metall/kernel/segment_allocator.hpp:390-488 | The same from a new chunk: its first slot, and the chunk is the list of the bin. |
| `Solo.FailsAlone` | include/metall/kernel/segment_allocator.hpp:477-488 | If the extension fails its steps leave the chunk registered, unlisted and an orphan, as the sequential allocation does. |
| `Solo.FreesAlone` | include/metall/kernel/segment_allocator.hpp:541-577 | Its steps to free a slot, with the erasing of an emptied chunk under the chunk lock, leave the state that the sequential deallocation leaves. |
| `Solo.TakesLargeAlone` | include/metall/kernel/segment_allocator.hpp:490-505 | A thread alone registers a large object at the lowest place with enough unused chunks. |
| `Solo.FreesLargeAlone` | include/metall/kernel/segment_allocator.hpp:646-655 | It frees one by clearing its run. |
| `Solo.StepsAreRun` | include/metall/kernel/segment_allocator.hpp:390-577 | Such steps are a legal run of the threads. |
| `Concurrency.FreeListExact` | include/metall/kernel/segment_allocator.hpp:541-577 | Whenever nobody holds the lock of a bin, its list is without duplicates exactly the chunks of the bin with a free slot that are not orphans, and the orphans of the bin are exactly its chunks without a marked slot. |
| `Concurrency.StaleEntry` | include/metall/kernel/segment_allocator.hpp:565-575 | Between erasing a chunk and taking it off its list the list still names it, although the chunk may already belong to another bin; every other entry is exact up to orphans. |
| `Concurrency.WaitsUpward` | include/metall/kernel/segment_allocator.hpp:390-577 | A thread waits only for a lock that ranks above every lock it holds: cache, then bin, then chunk. |
| `Concurrency.OrderKept` | include/metall/kernel/segment_allocator.hpp:390-577 | Each step keeps the lock order. |
| `Concurrency.ChainRises` | include/metall/kernel/segment_allocator.hpp:390-577 | Along any chain of waiting threads the locks waited for rise. |
| `Concurrency.NoDeadlock` | include/metall/kernel/segment_allocator.hpp:390-577 | There is no cyclic wait. |
| `Concurrency.MarkSlotKeeps` | include/metall/kernel/segment_allocator.hpp:408-431 | Marking a slot of the front chunk under the bin lock keeps the invariant. |
| `Concurrency.UnmarkKeeps` | include/metall/kernel/segment_allocator.hpp:553-563 | Unmarking a slot under the bin lock keeps the invariant. |
| `Concurrency.RegisterChunkKeeps` | include/metall/kernel/segment_allocator.hpp:477-488 | Registering a new chunk under the chunk lock keeps the invariant. |
| `Concurrency.FailKeeps` | include/metall/kernel/segment_allocator.hpp:481-486 | A failed extension leaves its chunk registered, unlisted and an orphan, and keeps the invariant. |
| `Concurrency.OrphansComeFromFailures` | include/metall/kernel/segment_allocator.hpp:477-488 | A run without a failed extension makes no orphan, so that from the empty state the lists stay exact. |
| `Concurrency.EraseKeeps` | include/metall/kernel/segment_allocator.hpp:565-573 | Erasing an empty chunk under the chunk lock keeps the invariant, although the list is adjusted later. |
| `Concurrency.ListKeeps` | include/metall/kernel/segment_allocator.hpp:477-488 | Putting a chunk on its list, or taking it off, as a step of its own keeps the invariant. |
| `Concurrency.TakeLargeKeeps` | include/metall/kernel/segment_allocator.hpp:490-505 | Registering a large object keeps the invariant. |
| `Concurrency.GiveLargeKeeps` | include/metall/kernel/segment_allocator.hpp:646-655 | Erasing a large object, by whichever thread has it now, keeps the invariant. |
| `Concurrency.HandOverKeeps` | include/metall/kernel/segment_allocator.hpp:211-223 | Handing a small or large object to another thread, which may then free it, keeps the invariant: still one owner. |
| `Concurrency.CacheKeeps` | include/metall/kernel/object_cache.hpp:595-710 | Moving an object between a thread and the cache it has locked keeps the invariant. |
| `Concurrency.FlushExact` | include/metall/kernel/object_cache.hpp:486-505 | `clear` takes no cache lock: a flush keeps the invariant if and only if, when the cache is reset, it still holds exactly what the flush had read in it. |
| `Concurrency.FlushRaces` | include/metall/kernel/object_cache.hpp:486-505 | A push or pop of another thread between the reading and the reset, under the lock, breaks the invariant. |
| `Allocator.AllocateCorrect` | include/metall/kernel/segment_allocator.hpp:150-160 | The offset returned was held by nobody, is now held by the client for that request, and nothing else the client holds changes; a null result changes nothing the client holds. Zero bytes give null and change nothing. |
| `Allocator.AllocateSmallCorrect` | include/metall/kernel/segment_allocator.hpp:375-388 | The same for small requests, through a cache or not. |
| `Allocator.AllocateLargeCorrect` | include/metall/kernel/segment_allocator.hpp:490-505 | The same for large requests. |
| `Allocator.WholeSegmentOutside` | include/metall/kernel/segment_allocator.hpp:497-501 | Where the maximum size is a power of two: a request for all of it, while the client holds anything, makes the clean-up erase at a number outside the chunk table. |
| `Allocator.DeallocateCorrect` | include/metall/kernel/segment_allocator.hpp:211-223 | Exactly the object given back leaves the client's hands; everything stays accounted for; null changes nothing. |
| `Allocator.DeallocateSmallCorrect` | include/metall/kernel/segment_allocator.hpp:527-539 | The same for a small object, through a cache or not. |
| `Allocator.DeallocateLargeCorrect` | include/metall/kernel/segment_allocator.hpp:646-655 | The same for a large object. |
| `Allocator.DeallocateBranch` | include/metall/kernel/segment_allocator.hpp:211-223 | The bin recorded for the chunk tells small from large objects of the client, and no offset is both. |
| `Behaviour.FreedIsCached` | include/metall/kernel/object_cache.hpp:666-710 | A freed object of a cached size goes on top of its stack in the cache used. That cache may lose the bottom of its stacks to eviction and nothing else; with room left, nothing does and no chunk changes. No other cache changes. |
| `Behaviour.FreedStaysMarked` | include/metall/kernel/segment_allocator.hpp:527-539 | The slot of a freed object that is cached stays marked. |
| `Behaviour.FreedIsReused` | include/metall/kernel/segment_allocator.hpp:150-223 | The next request of that size through the same cache gets the very object, for every number of bytes of the size class, and the chunks are not touched. |
| `Behaviour.FreedDirectly` | include/metall/kernel/segment_allocator.hpp:533-538 | A freed object of another small size goes back to its chunk at once, and no cache changes. |
| `Behaviour.HitTakesTop` | include/metall/kernel/object_cache.hpp:655-664 | While the cache has objects of the size, the top of the stack is given, and nothing changes but that stack. |
| `Behaviour.MissRefills` | include/metall/kernel/object_cache.hpp:622-664 | When it has none, as many objects as a refill are allocated, after eviction has made room; the last of them is given and the others are the newest block. |
| `Behaviour.UncachedAllocates` | include/metall/kernel/segment_allocator.hpp:375-388 | Small sizes above the last cached one come from the chunks, one object, and no cache changes. |
| `Behaviour.LargeAllocates` | include/metall/kernel/segment_allocator.hpp:490-505 | A large request gets the lowest place with enough unused chunks, if the segment holds them or can be made to; otherwise, or without such a place, it gets null and nothing changes. Caches never change. |
| `Behaviour.LargeFreed` | include/metall/kernel/segment_allocator.hpp:646-655 | Freeing a large object clears exactly the chunks of its size class from where it starts. |
| `Behaviour.FirstRequest` | include/metall/kernel/segment_allocator.hpp:375-475 | On a fresh allocator the first request gets the last slot of a refill taken from the start of chunk 0, and the cache holds the slots before it in order. |
| `Behaviour.FirstSmallest` | include/metall/kernel/segment_allocator.hpp:375-475 | So the first request of up to 8 bytes gets offset 504. |
| `Behaviour.BatchFromNewChunk` | include/metall/kernel/segment_allocator.hpp:433-475 | A batch that fits a new chunk is the first slots of the lowest unused chunk, in order. |
| `Behaviour.FlushFromIs` | include/metall/kernel/object_cache.hpp:486-505 | A flush frees all blocks cache by cache, and in each cache bin by bin, newest block first. |
| `CachedAllocator.PopCorrect` | include/metall/kernel/object_cache.hpp:595-664 | Popping moves one object from cache to caller; with refill and eviction included, everybody else keeps what they hold. |
| `CachedAllocator.PushObjectCorrect` | include/metall/kernel/object_cache.hpp:666-710 | Pushing moves one object from caller to cache, with eviction included, and everybody else keeps what they hold. |
| `CachedAllocator.RefillCorrect` | include/metall/kernel/object_cache.hpp:622-653 | A refill leaves the cache with a non-empty active block for the bin and moves nobody else's objects. |
| `CachedAllocator.EvictOk` | include/metall/kernel/object_cache.hpp:712-748 | The objects of evicted blocks go back to the chunks and the others stay cached. |
| `CachedAllocator.FlushEmpties` | include/metall/kernel/object_cache.hpp:486-505 | Flushing a cache leaves marked exactly what the others hold. |
| `CachedAllocator.AffordableRefill` | include/metall/kernel/object_cache.hpp:326-350 | The bin cut-off keeps one refill of every cached bin within the budget. |
| `GlobalAllocator.AllocSmallCorrect` | include/metall/kernel/segment_allocator.hpp:390-406 | Each offset handed out belongs to a slot that was free, no slot is handed out twice, and the invariant holds even when the storage fails half-way. |
| `GlobalAllocator.AllocManyCorrect` | include/metall/kernel/segment_allocator.hpp:433-475 | The same for the bulk path. |
| `GlobalAllocator.AllocSinglesCorrect` | include/metall/kernel/segment_allocator.hpp:408-431 | The same for one call per object. |
| `GlobalAllocator.BulkIsSingles` | include/metall/kernel/segment_allocator.hpp:390-475 | Whenever the bulk path succeeds it gives the same offsets in the same order, and leaves the same state, as one call per object. |
| `GlobalAllocator.NewChunkOk` | include/metall/kernel/segment_allocator.hpp:477-488 | A new chunk is listed and ready when extension succeeds; otherwise it stays registered, unlisted and unmarked, and the invariant holds. |
| `GlobalAllocator.ProvideOk` | include/metall/kernel/segment_allocator.hpp:412-418 | A front chunk with a free slot is found or made without changing any marked slot. |
| `GlobalAllocator.MarkFrontOk` | include/metall/kernel/segment_allocator.hpp:418-431 | Marking slots of the front chunk adds exactly their offsets to the marked ones, and takes the chunk off its list exactly when it is full. |
| `GlobalAllocator.FreeOneCorrect` | include/metall/kernel/segment_allocator.hpp:553-577 | Freeing removes exactly the slot's offset from the marked ones and keeps lists and table right, for full, last and other slots. |
| `Placement.FreedComesBack` | include/metall/kernel/segment_allocator.hpp:408-431 | A slot freed from a full chunk is the next one allocated from its bin, and then table, lists and segment are as before. |
| `Placement.FreedLists` | include/metall/kernel/segment_allocator.hpp:553-577 | What one deallocation does to the lists: a slot of a full chunk puts the chunk in front, the last slot erases the chunk and takes it out, and any other slot changes no list. All other entries keep their order. |
| `Placement.FromFront` | include/metall/kernel/segment_allocator.hpp:408-431 | An object of a bin with a list is the lowest free slot of the front chunk, which leaves the list if that was its last. |
| `Placement.FromNewChunk` | include/metall/kernel/segment_allocator.hpp:477-488 | An object of a bin without a list is the first slot of the lowest unused chunk, if the segment holds that chunk or can be made to; if not, the result is null and the chunk stays registered and unlisted. |
| `Placement.NoChunkLeft` | include/metall/kernel/segment_allocator.hpp:477-480 | Without an unused chunk every offset is null and nothing changes. |
| `Placement.StorageNotAsked` | include/metall/kernel/segment_allocator.hpp:507-524 | Inside the present segment the storage is not asked: result and state are the same for every storage, and the segment keeps its size. |
| `Placement.BulkFails` | include/metall/kernel/segment_allocator.hpp:433-446 | In bulk the first failure is the last: one chunk is left behind, however many objects were asked for. |
| `Placement.ThresholdIsFour` | include/metall/kernel/segment_allocator.hpp:396-405 | Up to three objects are allocated one by one, each with a failure of its own; from four on in bulk. |
| `Placement.FreeAllConcat` | include/metall/kernel/segment_allocator.hpp:541-551 | The offsets of a batch are freed in their order. |
| `Placement.FreeBlocksConcat` | include/metall/kernel/object_cache.hpp:725-746 | Blocks are freed in their order. |
| `Placement.FreeOneBlock` | include/metall/kernel/object_cache.hpp:736-742 | The objects of a block are freed from its bottom to its top, in the bin of the block. |
| `Placement.SlotIsAt` | include/metall/kernel/segment_allocator.hpp:423-430 | Slots lie side by side from the start of their chunk, and chunks from the start of the segment. |
| `GlobalAllocator.FreeAllCorrect` | include/metall/kernel/segment_allocator.hpp:541-551 | The same for a batch of offsets; null offsets are skipped. |
| `GlobalAllocator.FreeBlocksCorrect` | include/metall/kernel/object_cache.hpp:723-747 | The same for a sequence of cache blocks. |
| `GlobalAllocator.SlotCount` | include/metall/kernel/chunk_directory.hpp:222-229 | A chunk never has more marked slots than slots. |
| `LargeAllocation.AllocLargeCorrect` | include/metall/kernel/segment_allocator.hpp:490-505 | A large object gets the lowest long enough run of unused chunks, all of it in the segment. A failed allocation leaves directory, lists and segment as they were. The erase of its clean-up lies outside the table if and only if no run of unused chunks is long enough; otherwise it clears the run just registered. No slot changes. |
| `Placement.LargeFrom` | include/metall/kernel/segment_allocator.hpp:490-505 | A large object starts at the lowest place with enough unused chunks, registers exactly these, and enlarges the segment only if it has to; if it cannot, everything is as it was. |
| `LargeAllocation.WholeTableOutside` | include/metall/kernel/segment_allocator.hpp:497-501 | A request as long as the table erases outside of it as soon as any chunk is in use. |
| `LargeAllocation.WholeTableBin` | include/metall/kernel/object_size_manager.hpp:57-63 | There is such a size class wherever the segment may have a power of two of chunks. |
| `LargeAllocation.FreeLargeCorrect` | include/metall/kernel/segment_allocator.hpp:646-655 | Freeing clears exactly the object's own run and changes no slot. |
| `LargeAllocation.LargeRoundTrip` | include/metall/kernel/segment_allocator.hpp:490-505 | Allocating and freeing a large object restores the chunk table. |
| `LargeAllocation.PutErase` | include/metall/kernel/chunk_directory.hpp:583-623 | Erasing the run just registered gives the table back. |
| `Ledger.Decode` | include/metall/kernel/segment_allocator.hpp:558-560 | Chunk and slot number can be read back from an offset, and the object ends inside its chunk. |
| `Ledger.MarkOne` | include/metall/kernel/chunk_directory.hpp:160-173 | Marking a free slot adds exactly one offset. |
| `Ledger.UnmarkOne` | include/metall/kernel/chunk_directory.hpp:207-216 | Unmarking a marked slot removes exactly its offset. |
| `Ledger.MarkMany` | include/metall/kernel/chunk_directory.hpp:183-202 | Marking several free slots adds exactly their offsets, once each. |
| `Ledger.DropChunk` | include/metall/kernel/chunk_directory.hpp:127-154 | Registering or erasing a chunk without marked slots changes no marked offset. |
| `Queries.AllDeallocatedMeans` | include/metall/kernel/segment_allocator.hpp:228-245 | The answer is true exactly when the client holds nothing and, besides, no cache holds a null offset or no chunk is in use at all. |
| `Queries.DeallocatedButFalse` | include/metall/kernel/segment_allocator.hpp:228-245 | One failed request on a fresh allocator makes the answer false although the client holds nothing. |
| `Queries.FailedRefill` | include/metall/kernel/segment_allocator.hpp:433-446 | A refill that fails leaves null offsets in the cache and an orphan chunk. |
| `Queries.VisitAll` | include/metall/kernel/segment_allocator.hpp:688-700 | Walking all bins of all caches visits every cached object exactly as often as it is cached. |
| `Queries.TickOffMeans` | include/metall/kernel/segment_allocator.hpp:676-703 | Ticking the visited offsets off a set succeeds exactly when they are that set, each once, with no null among them. |
| `Queries.OffsetAligned` | include/metall/kernel/segment_allocator.hpp:171-207 | Every live object whose request is a multiple of a power of two from 8 to the chunk size starts at a multiple of it, in every bin, chunk and slot. |
| `Queries.AllocateAlignedCorrect` | include/metall/kernel/segment_allocator.hpp:171-207 | A non-null result is a fresh object at a multiple of the alignment, and the arguments were acceptable. |
| `Queries.AlignedMeans` | include/metall/kernel/segment_allocator.hpp:171-207 | Exactly the powers of two from 8 to the chunk size, with a multiple of them as the size, are passed on to `allocate`, with its result and effect; any other request gets null and changes nothing. |
| `Queries.AlignedSizeCheck` | include/metall/kernel/segment_allocator.hpp:197-199 | The check that the object size is a multiple of the alignment holds exactly when the request is positive or the alignment is the smallest size. |
| `Queries.PowerOf2Means` | include/metall/kernel/segment_allocator.hpp:182-185 | The alignments accepted are exactly the powers of two. |
| `PageRelease.RoundingCorrect` | include/metall/detail/utilities.hpp:61-77 | For every integer, negative ones included, the results are the least multiple not below and the greatest not above. |
| `PageRelease.NeighbourExists` | include/metall/kernel/segment_allocator.hpp:596-630 | Where the start of a slot lies inside a page, there is a slot before it. Where the end does, the chunk does not end there, and there is a slot after it if the last slot ends on a page boundary. |
| `PageRelease.ReleasedExactly` | include/metall/kernel/segment_allocator.hpp:589-593 | A region is freed exactly for slots of at least two pages that are not below the hint. |
| `PageRelease.RangeBounds` | include/metall/kernel/segment_allocator.hpp:596-641 | For every page size that divides the chunk: the freed range is not empty, lies on page boundaries and inside the chunk, and is the slot up to one page at each end. |
| `PageRelease.RangeSparesMarked` | include/metall/kernel/segment_allocator.hpp:596-641 | No byte of a marked slot is freed. |
| `PageRelease.RangeComplete` | include/metall/kernel/segment_allocator.hpp:596-641 | Every page the slot touches is freed, unless a marked neighbour touches it too. |
| `ResidentPages.RunPages` | include/metall/kernel/segment_allocator.hpp:553-644 | Over any run a page that stays resident has a marked slot or a large object on it, or belongs to a chunk in use whose objects are too small to be released singly. |
| `ResidentPages.StepPages` | include/metall/kernel/segment_allocator.hpp:553-663 | Each operation keeps that. |
| `ResidentPages.FreePages` | include/metall/kernel/segment_allocator.hpp:553-644 | Freeing a slot releases every page nothing in use lies on any more. |
| `ResidentPages.GiveLargePages` | include/metall/kernel/segment_allocator.hpp:646-663 | Freeing a large object releases its pages. |
| `ResidentPages.FreedRangeIsSafe` | include/metall/kernel/segment_allocator.hpp:585-644 | In every reachable table the range freed with a slot is page-aligned, inside the chunk, not empty and free of marked slots, whatever slot ends inside a page; the neighbour after it exists if the last slot ends on a page boundary. |
| `ResidentPages.LastSlotDecides` | include/metall/kernel/segment_allocator.hpp:618-630 | The slot after a misaligned end exists for every slot of a chunk exactly when the last slot ends on a page boundary. |
| `ResidentPages.LastSlotMisaligned` | include/metall/kernel/segment_allocator.hpp:618-630 | It does not for the bin of 224 KiB, of which nine fit a chunk of 2 MiB, with 64 KiB pages. |
| `SegmentAllocator.SegmentAllocator.constructor` | include/metall/kernel/segment_allocator.hpp:113-131 | A new allocator is consistent, empty, untouched and has empty caches. |
| `SegmentAllocator.SegmentAllocator.Allocate` | include/metall/kernel/segment_allocator.hpp:150-160 | In place: keeps the invariant, and result and new state are those of the verified allocation; says whether the clean-up went outside the chunk table, which it does exactly when there is no room for a large request. |
| `SegmentAllocator.SegmentAllocator.AllocateAligned` | include/metall/kernel/segment_allocator.hpp:171-207 | In place: null without effect for unacceptable arguments, else the verified allocation, with the same report. |
| `SegmentAllocator.SegmentAllocator.Deallocate` | include/metall/kernel/segment_allocator.hpp:211-223 | In place: keeps the invariant, and the new state is that of the verified deallocation. |
| `SegmentAllocator.SegmentAllocator.AllMemoryDeallocated` | include/metall/kernel/segment_allocator.hpp:228-245 | In place: true exactly when the client holds nothing and no cache holds a null offset, or no chunk is in use. |
| `SegmentAllocator.SegmentAllocator.AllSmallAllocationsAreCached` | include/metall/kernel/segment_allocator.hpp:676-703 | The loops over caches, bins and objects decide whether the cached offsets are the marked ones, each once. |
| `SegmentAllocator.SegmentAllocator.MarkedOffsets` | include/metall/kernel/segment_allocator.hpp:677-686 | The offsets collected are exactly those of the marked slots. |
| `SegmentAllocator.SegmentAllocator.Serialize` | include/metall/kernel/segment_allocator.hpp:256-274 | After the flush the marked slots are exactly the client's; the texts are those of the two directories. |
| `SegmentAllocator.SegmentAllocator.Deserialize` | include/metall/kernel/segment_allocator.hpp:279-293 | Reading into a fresh allocator what serialize wrote for any consistent state succeeds and restores the whole state: used chunks with bins, bitmaps and counts, the high-water mark, and every list in its order. |
| `SegmentAllocator.Reopen` | include/metall/kernel/segment_allocator.hpp:279-293 | A new allocator that reads the texts of a state with empty caches is in that state. |
| `Persistence.DirectoriesRoundTrip` | include/metall/kernel/segment_allocator.hpp:256-293 | For every consistent state both directories are read back as they were: lists in their order, chunks with kind, bin, bitmap and count, and the high-water mark. |
| `Persistence.StateFits` | include/metall/kernel/chunk_directory.hpp:299-358 | In every consistent state of a 64-bit segment size all numbers that are written fit 64 bits; unused chunks, whose old bin number is not written, are not constrained. |
| `Persistence.OtherCaches` | include/metall/kernel/segment_allocator.hpp:279-293 | A state with empty caches stays consistent with another number of empty caches. |
| `SegmentAllocator.SegmentAllocator.AllocateSmallObject` | include/metall/kernel/segment_allocator.hpp:375-388 | In place: the small allocation, through the chosen cache when the bin is cached. |
| `SegmentAllocator.SegmentAllocator.AllocateFromGlobal` | include/metall/kernel/segment_allocator.hpp:390-406 | In place: one object at a time below the threshold of four, in bulk from it on. |
| `SegmentAllocator.SegmentAllocator.AllocateOneFromGlobal` | include/metall/kernel/segment_allocator.hpp:408-431 | In place: one slot of the front chunk, or of a new one. |
| `SegmentAllocator.SegmentAllocator.AllocateManyFromGlobal` | include/metall/kernel/segment_allocator.hpp:433-475 | In place: slots chunk by chunk; what could not be allocated is null. |
| `SegmentAllocator.SegmentAllocator.InsertNewSmallObjectChunk` | include/metall/kernel/segment_allocator.hpp:477-488 | In place: registers a chunk, extends the segment, lists the chunk only if that worked. |
| `SegmentAllocator.SegmentAllocator.AllocateLargeObject` | include/metall/kernel/segment_allocator.hpp:490-505 | In place: registers the run; if the segment cannot be extended, erases at the number found without looking whether it is one, and says whether it lay outside the table, which is so exactly when no run fits. |
| `SegmentAllocator.SegmentAllocator.ExtendSegment` | include/metall/kernel/segment_allocator.hpp:507-524 | Extends only when needed and reports whether the size suffices. |
| `SegmentAllocator.SegmentAllocator.DeallocateSmallObject` | include/metall/kernel/segment_allocator.hpp:527-539 | In place: back to the chosen cache or to the chunks. |
| `SegmentAllocator.SegmentAllocator.DeallocateFromGlobal` | include/metall/kernel/segment_allocator.hpp:541-551 | In place: a batch of offsets goes back to the chunks. |
| `SegmentAllocator.SegmentAllocator.DeallocateOneFromGlobal` | include/metall/kernel/segment_allocator.hpp:553-577 | In place: a slot of a full chunk relists the chunk, the last slot erases it; says which. |
| `SegmentAllocator.SegmentAllocator.DeallocateOneReleasing` | include/metall/kernel/segment_allocator.hpp:553-583 | In place, with slot-level page release on: the region freed is the one proved safe and complete. |
| `SegmentAllocator.SegmentAllocator.FreeSlotRange` | include/metall/kernel/segment_allocator.hpp:585-644 | For every page size that divides the chunk: the region computed by looking at the neighbouring bits in the directory, also at the one after the last slot, is the one proved safe and complete. |
| `SegmentAllocator.SegmentAllocator.DeallocateLargeObject` | include/metall/kernel/segment_allocator.hpp:646-655 | In place: clears the object's run. |
| `SegmentAllocator.SegmentAllocator.ClearObjectCache` | include/metall/kernel/segment_allocator.hpp:667-670 | In place: flushes every cache. |
| `SegmentAllocator.SegmentAllocator.PopFromCache` | include/metall/kernel/object_cache.hpp:466-475 | In place: pop with its two callbacks, of which eviction runs before the refill. |
| `SegmentAllocator.SegmentAllocator.PushToCache` | include/metall/kernel/object_cache.hpp:477-482 | In place: evicted objects go back to the chunks before the object is stored. |
| `SegmentAllocator.SegmentAllocator.FlushOneCache` | include/metall/kernel/object_cache.hpp:488-504 | In place: one cache's objects go back to the chunks, and then the headers are reset. |
| `SegmentAllocator.NewCaches` | include/metall/kernel/object_cache.hpp:579-593 | Creates the given number of distinct empty caches. |
| `ObjectCache.ObjectCache.constructor` | include/metall/kernel/object_cache.hpp:284-292 | A new cache is well formed and empty, with no block touched. |
| `ObjectCache.ObjectCache.Push` | include/metall/kernel/object_cache.hpp:666-710 | Evicts oldest blocks only as far as needed, then the object is on top of its bin's stack; both linked lists stay well formed, the byte count stays the sum over the blocks and within the budget. |
| `ObjectCache.ObjectCache.PushEnd` | include/metall/kernel/object_cache.hpp:686-710 | The part after room has been made: the object is on top of its bin's stack, and lists, byte count and budget stay right. |
| `ObjectCache.ObjectCache.PopBegin` | include/metall/kernel/object_cache.hpp:611-634 | An empty active block is given back; a refill is needed exactly when the bin then has no block, and there is room for it. |
| `ObjectCache.ObjectCache.PopEnd` | include/metall/kernel/object_cache.hpp:636-663 | The refill becomes the newest block, and the top object of the bin is taken; lists, byte count and budget stay right. |
| `ObjectCache.ObjectCache.MakeRoom` | include/metall/kernel/object_cache.hpp:712-748 | Ends, never meets an empty list, and leaves a free block and room for the bytes; evicts a prefix of the age list. |
| `ObjectCache.ObjectCache.EvictOldest` | include/metall/kernel/object_cache.hpp:725-746 | The oldest block leaves both lists with exactly its objects, whether it is its bin's active block, whose header is then reset, or a full one. |
| `ObjectCache.OldestActiveAlone` | include/metall/kernel/object_cache.hpp:740-743 | An active block that is the oldest of all is its bin's only block, so resetting the bin's header loses nothing. |
| `ObjectCache.ObjectCache.AddBlock` | include/metall/kernel/object_cache.hpp:637-652 | A free block becomes the newest of its bin and of all. |
| `ObjectCache.ObjectCache.ReleaseBlock` | include/metall/kernel/object_cache.hpp:615-619 | A block leaves both lists and joins the free list; its bin's header moves to the next older block if it was active. |
| `ObjectCache.ObjectCache.TakeBlock` | include/metall/kernel/object_cache.hpp:165-182 | A free block is neither in use nor listed as free afterwards; used, free and untouched blocks still make up all blocks. |
| `ObjectCache.ObjectCache.NoFreeBlock` | include/metall/kernel/object_cache.hpp:162 | There is no free block exactly when all blocks are in use. |
| `ObjectCache.ObjectCache.VisitBin` | include/metall/kernel/object_cache.hpp:509-536 | The iterator yields the bin's stack from the top, every object once, also past an empty active block. |
| `ObjectCache.ObjectCache.FlushBin` | include/metall/kernel/object_cache.hpp:491-501 | One bin's blocks are handed back newest first, each with its own number of objects. |
| `ObjectCache.ObjectCache.FlushAllBins` | include/metall/kernel/object_cache.hpp:486-505 | What the deallocator gets is bin by bin, newest block first, and is exactly what was cached. |
| `ObjectCache.ObjectCache.Clear` | include/metall/kernel/object_cache.hpp:486-505 | Exactly the cached objects are handed back and the cache is empty. |
| `ObjectCache.ObjectCache.ResetHeaders` | include/metall/kernel/object_cache.hpp:295-301 | The cache is as new. |
| `ObjectCache.LinkNewCorrect` | include/metall/kernel/object_cache.hpp:77-87 | Linking a block in as the newest of both lists appends it to the queue and keeps both lists well formed. |
| `ObjectCache.UnlinkCorrect` | include/metall/kernel/object_cache.hpp:62-75 | Disconnecting any used block takes exactly it out of both lists. |
| `ObjectCache.ReleaseCorrect` | include/metall/kernel/object_cache.hpp:185-189 | Unregistering, disconnecting and pushing on the free list together keep the lists well formed and the blocks partitioned. |
| `ObjectCache.QueuePacked` | include/metall/kernel/object_cache.hpp:109-119 | In well-formed lists every block but a bin's newest is full. |
| `ObjectCache.PartitionCovers` | include/metall/kernel/object_cache.hpp:150-189 | Every block is in use, free or untouched, and never two of these. |
| `ObjectCache.ChainStack` | include/metall/kernel/object_cache.hpp:788-800 | The objects along a bin's list are the bin's stack. |
| `ObjectCache.ChainFlush` | include/metall/kernel/object_cache.hpp:492-501 | The blocks along a bin's list, newest first, are what a flush hands back for the bin. |
| `Threads.AppendThread` | include/metall/kernel/object_cache.hpp:77-87 | A doubly linked list stays well formed when a block is linked in at its newest end. |
| `Threads.RemoveThread` | include/metall/kernel/object_cache.hpp:62-75 | A doubly linked list stays well formed when any block is disconnected. |
| `BlockQueue.PushCorrect` | include/metall/kernel/object_cache.hpp:686-705 | Push appends to the bin's stack and touches no other. |
| `BlockQueue.PushPlace` | include/metall/kernel/object_cache.hpp:686-705 | A push grows the active block in its place; only if that holds 64 objects, or there is none, a new block becomes the newest of the cache. No other block changes. |
| `BlockQueue.TakeTopCorrect` | include/metall/kernel/object_cache.hpp:657-663 | Pop takes the last of the bin's stack and touches no other. |
| `BlockQueue.DropEmptyCorrect` | include/metall/kernel/object_cache.hpp:613-620 | Giving back an empty block changes no stack. |
| `BlockQueue.EvictCorrect` | include/metall/kernel/object_cache.hpp:725-746 | Evicting the oldest block removes a prefix of one stack and touches no other. |
| `BlockQueue.FlushCorrect` | include/metall/kernel/object_cache.hpp:486-505 | A flush hands back exactly the cached objects. |
| `BlockQueue.FlushReversed` | include/metall/kernel/object_cache.hpp:491-502 | Of a bin the newer blocks are flushed before the older ones. |
| `BlockQueue.FlushOne` | include/metall/kernel/object_cache.hpp:494-499 | A block is flushed with its bin, and not at all if it is empty. |
| `BlockQueue.FlushOrderIs` | include/metall/kernel/object_cache.hpp:490-502 | A flush of the whole cache gives the blocks of each bin as a flush of that bin does, and no other bin. |
| `BlockQueue.FlushSorted` | include/metall/kernel/object_cache.hpp:490 | It goes through the bins in increasing order. |
| `BlockQueue.CachedPush` | include/metall/kernel/object_cache.hpp:702-705 | Push adds exactly one object to what is cached. |
| `BlockQueue.CachedTakeTop` | include/metall/kernel/object_cache.hpp:657-663 | Pop removes exactly one object from what is cached. |
| `CacheBudget.CompMaxBinNo` | include/metall/kernel/object_cache.hpp:326-350 | Up to the bin returned two refills of each bin fit the budget, unless not even the first bin does; the bin never exceeds that of the largest request. |
| `CacheBudget.SmallestBudget` | include/metall/kernel/object_cache.hpp:326-350 | The smallest workable budget is 1024 bytes, and then two blocks fit. |
| `CacheBudget.BlocksFit` | include/metall/kernel/object_cache.hpp:357-366 | A cache has exactly as many blocks of 512 bytes as fit its budget. |
| `CacheBudget.RefillFits` | include/metall/kernel/object_cache.hpp:310-321 | A refill is as many objects as fit 4096 bytes, no more and no fewer, but at least 8 and at most 64. |
| `CacheBudget.MakeRoom` | include/metall/kernel/object_cache.hpp:712-748 | What is evicted and what stays make up the queue, and there is room afterwards. |
| `CacheBudget.MakeRoomMinimal` | include/metall/kernel/object_cache.hpp:723-747 | Nothing is evicted beyond what is needed. |
| `CacheBudget.MakeRoomExact` | include/metall/kernel/object_cache.hpp:712-748 | What stays is the longest part of the newest blocks that keeps the budget with the new bytes and leaves a block free. |
| `CacheBudget.BytesAre` | include/metall/kernel/object_cache.hpp:661-706 | The cached bytes are the objects of all blocks times their sizes. |
| `CacheBudget.MakeRoomStacks` | include/metall/kernel/object_cache.hpp:712-748 | Of each stack only a prefix is evicted. |
| `CacheBudget.BytesPush` | include/metall/kernel/object_cache.hpp:706 | The cached bytes grow by the object size. |
| `CacheBudget.BytesTakeTop` | include/metall/kernel/object_cache.hpp:661-662 | The cached bytes shrink by the object size. |
| `CacheBudget.BytesDropEmpty` | include/metall/kernel/object_cache.hpp:613-620 | Giving back an empty block changes no byte count. |
| `ChunkDirectory.ChunkDirectory.constructor` | include/metall/kernel/chunk_directory.hpp:89-94 | A new directory has only unused chunks. |
| `ChunkDirectory.ChunkDirectory.Size` | include/metall/kernel/chunk_directory.hpp:261 | The size is one more than the greatest used chunk, and everything from it on is unused. |
| `ChunkDirectory.ChunkDirectory.InsertSmall` | include/metall/kernel/chunk_directory.hpp:546-578 | Takes the lowest unused chunk; fails only if none exists. |
| `ChunkDirectory.ChunkDirectory.InsertLarge` | include/metall/kernel/chunk_directory.hpp:583-623 | Takes the lowest run of unused chunks that is long enough; fails only if none exists. |
| `ChunkDirectory.ChunkDirectory.Erase` | include/metall/kernel/chunk_directory.hpp:127-154 | Clears a small chunk, or a head with the bodies after it, and moves the high-water mark to the greatest used chunk; a number past the table is reported and leaves the table as it is. |
| `ChunkDirectory.ChunkDirectory.EraseLarge` | include/metall/kernel/chunk_directory.hpp:140-152 | The loop clears the head and all bodies that follow and nothing else. |
| `ChunkDirectory.ChunkDirectory.FindNextUsedChunkBackward` | include/metall/kernel/chunk_directory.hpp:625-634 | Finds the greatest used chunk, or none. |
| `ChunkDirectory.ChunkDirectory.FindAndMarkSlot` | include/metall/kernel/chunk_directory.hpp:160-173 | Marks the lowest free slot; count and bitmap stay in step. |
| `ChunkDirectory.ChunkDirectory.FindAndMarkManySlots` | include/metall/kernel/chunk_directory.hpp:183-202 | Marks the lowest free slots, as many as asked for or as are left, in increasing order. |
| `ChunkDirectory.ChunkDirectory.UnmarkSlot` | include/metall/kernel/chunk_directory.hpp:207-216 | Unmarks exactly that slot; count and bitmap stay in step. |
| `ChunkDirectory.ChunkDirectory.SlotsState` | include/metall/kernel/chunk_directory.hpp:222-240 | The stored count tells whether all or none of the slots are marked. |
| `ChunkDirectory.ChunkDirectory.MarkedSlot` | include/metall/kernel/chunk_directory.hpp:246-254 | Reads one bit of the bitmap, also past the last slot, where it is clear. |
| `ChunkDirectory.SlotInBitmap` | include/metall/kernel/chunk_directory.hpp:246-254 | The bitmap has a bit for every slot, and for the position after the last one unless the slots fill the chunk. |
| `ChunkDirectory.ChunkDirectory.GetAllMarkedSlots` | include/metall/kernel/chunk_directory.hpp:458-475 | Lists exactly the marked slots of all small chunks, each once. |
| `ChunkDirectory.ChunkDirectory.NumUsedLargeChunks` | include/metall/kernel/chunk_directory.hpp:477-487 | Counts exactly the chunks that belong to large objects, and so is zero exactly when there are none. |
| `ChunkDirectory.ChunkDirectory.Serialize` | include/metall/kernel/chunk_directory.hpp:299-358 | The text is the rows of all used chunks in order. |
| `ChunkDirectory.SavedChunkLines` | include/metall/kernel/chunk_directory.hpp:299-358 | The text read line by line: one line for each used chunk, in order, with chunk, bin and kind (1 small, 2 head, 3 body), and for a small chunk the count and the words of the bitmap. |
| `ChunkDirectory.ChunkDirectory.Deserialize` | include/metall/kernel/chunk_directory.hpp:363-456 | Result and new table are those of the row-by-row reading. |
| `ChunkDirectory.LoadLargeLine` | include/metall/kernel/chunk_directory.hpp:375-396 | Any line with a chunk, a bin and kind 2 or 3, however it is spaced, makes that chunk the head or a body of a large object; other kinds and chunks outside the table are refused. |
| `ChunkDirectory.LoadSmallLine` | include/metall/kernel/chunk_directory.hpp:397-440 | A line with kind 1, a count and words makes the chunk small with that bin, count and bitmap, and is refused exactly when chunk, bin, count or number of words is impossible. |
| `ChunkDirectory.LoadBlankLine` | include/metall/kernel/chunk_directory.hpp:375-383 | A blank line is skipped. |
| `ChunkDirectory.ChunksRoundTrip` | include/metall/kernel/chunk_directory.hpp:299-456 | Reading what was written into a fresh table restores kinds, bins, bitmaps, counts and the high-water mark, gaps included; nothing is asked of the numbers left in unused entries. |
| `ChunkDirectory.LoadEntry` | include/metall/kernel/chunk_directory.hpp:375-444 | Reading a written row restores that entry and goes on with the next. |
| `ChunkDirectory.LoadSmallPart` | include/metall/kernel/chunk_directory.hpp:397-440 | Reading back the count and bitmap of a small chunk restores both. |
| `ChunkDirectory.CountFits` | include/metall/kernel/chunk_directory.hpp:407-413 | A valid count passes the check against the number of slots. |
| `ChunkTable.RunsDisjoint` | include/metall/kernel/chunk_directory.hpp:583-623 | No two large objects share a chunk. |
| `ChunkTable.RunEnds` | include/metall/kernel/chunk_directory.hpp:583-623 | Each head is followed by exactly its object's bodies. |
| `ChunkTable.EraseRun` | include/metall/kernel/chunk_directory.hpp:127-154 | Erasing a large object clears exactly its own run. |
| `ChunkTable.EraseAtMeans` | include/metall/kernel/chunk_directory.hpp:127-154 | Whatever lies in memory past the table: an erase inside changes the table only; one outside leaves the table as it is and clears what it finds. |
| `ChunkTable.InsertAssertion` | include/metall/kernel/chunk_directory.hpp:110-122 | The final assertion of an insert holds if and only if there was room, for small chunks as for large ones; a full table breaks it. |
| `ChunkTable.EraseSmallOk` | include/metall/kernel/chunk_directory.hpp:127-154 | Erasing a small chunk clears exactly it and keeps the table well formed. |
| `ChunkTable.EraseLargeOk` | include/metall/kernel/chunk_directory.hpp:127-154 | Erasing a large object keeps the table well formed. |
| `ChunkTable.InsertSmallOk` | include/metall/kernel/chunk_directory.hpp:546-578 | Registering a small chunk changes one unused entry and keeps the table well formed. |
| `ChunkTable.InsertLargeOk` | include/metall/kernel/chunk_directory.hpp:583-623 | Registering a large object uses only unused chunks and keeps the table well formed. |
| `ChunkTable.FirstFit` | include/metall/kernel/chunk_directory.hpp:583-623 | The place found has enough unused chunks, and no lower place has. |
| `ChunkTable.LastUsed` | include/metall/kernel/chunk_directory.hpp:625-634 | The mark is used, or there is none, and everything above it is unused. |
| `ChunkTable.SmallObjects` | include/metall/kernel/chunk_directory.hpp:282-287 | At least two objects of every small bin fit a chunk, and never more than the bitmap can hold. |
| `ChunkTable.AsManyAsFit` | include/metall/kernel/chunk_directory.hpp:282-287 | A chunk has as many slots as fit, no more and no fewer, and the segment as many chunks. |
| `ChunkTable.LargeObjects` | include/metall/kernel/chunk_directory.hpp:583-586 | Large objects are whole chunks. |
| `BinDirectory.BinDirectory.constructor` | include/metall/kernel/bin_directory.hpp:87-88 | All lists are empty. |
| `BinDirectory.BinDirectory.Insert` | include/metall/kernel/bin_directory.hpp:131-138 | Puts the value at the front of its bin's list and changes no other. |
| `BinDirectory.BinDirectory.Pop` | include/metall/kernel/bin_directory.hpp:142-149 | Removes the front of the list. |
| `BinDirectory.BinDirectory.Erase` | include/metall/kernel/bin_directory.hpp:155-173 | Removes the first occurrence and says whether there was one. |
| `BinDirectory.BinDirectory.Clear` | include/metall/kernel/bin_directory.hpp:176-180 | Empties every list. |
| `BinDirectory.BinDirectory.Serialize` | include/metall/kernel/bin_directory.hpp:200-225 | The text is the rows of all lists in order. |
| `BinDirectory.SavedLines` | include/metall/kernel/bin_directory.hpp:200-225 | The text read line by line: one line for each chunk of each list, with the numbers of bin and chunk, bin by bin and from the front of each list. |
| `BinDirectory.SavedExample` | include/metall/kernel/bin_directory.hpp:209-213 | For example, the lists [3, 10], [] and [7] are saved as the lines `0 3`, `0 10` and `2 7`. |
| `BinDirectory.BinDirectory.Deserialize` | include/metall/kernel/bin_directory.hpp:229-267 | Result and lists are those of the row-by-row reading. |
| `BinDirectory.LoadLine` | include/metall/kernel/bin_directory.hpp:234-263 | Any line that holds two numbers, however it is spaced, appends the second to the list of the first; a bin outside the table is refused. |
| `BinDirectory.LoadBlank` | include/metall/kernel/bin_directory.hpp:234-242 | A blank line is skipped. |
| `BinDirectory.BinsRoundTrip` | include/metall/kernel/bin_directory.hpp:200-267 | Reading what was written restores every list in its order. |
| `BinDirectory.ErasedCorrect` | include/metall/kernel/bin_directory.hpp:155-173 | From a list without duplicates exactly that value goes. |
| `BinDirectory.ErasedAt` | include/metall/kernel/bin_directory.hpp:164-170 | What goes is the first occurrence; the rest keeps its order. |
| `Text.ReadDecimal` | include/metall/kernel/bin_directory.hpp:209-240 | A written number is read back, and what follows it is left. |
| `Text.ReadNumbersOf` | include/metall/kernel/multilayer_bitset.hpp:217-257 | A written list of numbers is read back. |
| `Text.GetLineOf` | include/metall/kernel/chunk_directory.hpp:416-417 | The rest of a line is read without the next line. |
| `Text.ReadInLine` | include/metall/kernel/chunk_directory.hpp:375-383 | Reading a number from a text is reading it from its first line, if that is not blank. |
| `Text.NumbersHold` | include/metall/kernel/chunk_directory.hpp:299-358 | A line of written numbers holds these numbers and no more. |
| `Text.Digits` | include/metall/kernel/bin_directory.hpp:209-213 | Numbers are written in decimal, as three examples show. |
| `MultilayerBitset.MultilayerBitset.Allocate` | include/metall/kernel/multilayer_bitset.hpp:144-153 | A new bitset has no bit set. |
| `MultilayerBitset.MultilayerBitset.FindAndSet` | include/metall/kernel/multilayer_bitset.hpp:167-176 | For every size from 1 to 2^24 and every state that is not full, takes the least clear bit, which is below the size. |
| `MultilayerBitset.MultilayerBitset.FindAndSetMany` | include/metall/kernel/multilayer_bitset.hpp:181-190 | Gives the same positions in the same order and the same words, index words included, as that many single find-and-sets. |
| `MultilayerBitset.MultilayerBitset.FindAndSetManyInSingleBlock` | include/metall/kernel/multilayer_bitset.hpp:292-301 | The same for a bitset of one word. |
| `MultilayerBitset.MultilayerBitset.Reset` | include/metall/kernel/multilayer_bitset.hpp:194-202 | Clears exactly that bit and keeps the index exact. |
| `MultilayerBitset.MultilayerBitset.Get` | include/metall/kernel/multilayer_bitset.hpp:206-212 | Reads any bit of the lowest layer, also beyond the size. |
| `MultilayerBitset.MultilayerBitset.Serialize` | include/metall/kernel/multilayer_bitset.hpp:217-229 | The text is all words as decimal numbers. |
| `MultilayerBitset.MultilayerBitset.Deserialize` | include/metall/kernel/multilayer_bitset.hpp:235-257 | For every text: one word is read for a bitset of one word; for a tree the words are written in order, the answer is whether their number is right, and a word is written past the end exactly if there are too many. |
| `MultilayerBitset.FindInMultilayers` | include/metall/kernel/multilayer_bitset.hpp:382-406 | One word per layer leads to the least clear leaf bit. |
| `MultilayerBitset.SetInMultilayers` | include/metall/kernel/multilayer_bitset.hpp:408-427 | In place on the flat array: the tree with that slot set. |
| `MultilayerBitset.ResetInMultilayers` | include/metall/kernel/multilayer_bitset.hpp:429-452 | In place on the flat array: the tree with that slot cleared. |
| `MultilayerBitset.FindAndSetManyInMultilayers` | include/metall/kernel/multilayer_bitset.hpp:321-379 | Takes the n lowest clear bits in increasing order, whole words at a time, and never reads past the last leaf word. |
| `MultilayerBitset.TablesFit` | include/metall/kernel/multilayer_bitset.hpp:39-62 | Each column of the three tables describes one tree with room for 2^i bits. |
| `MultilayerBitset.IndexComputed` | include/metall/kernel/multilayer_bitset.hpp:39-62 | The column used is the number of trailing zeros of the next power of two of the size. |
| `MultilayerBitset.CapacityFits` | include/metall/kernel/multilayer_bitset.hpp:39-62 | The lowest layer has at least as many bits as asked for, and exactly as many only for powers of two from 8 on. |
| `MultilayerBitset.CountAllBlocks` | include/metall/kernel/multilayer_bitset.hpp:478-490 | The loop adds up all layers. |
| `MultilayerBitset.WordsOfNats` | include/metall/kernel/multilayer_bitset.hpp:217-257 | Words survive the way through numbers. |
| `BitTree.FindIsLeast` | include/metall/kernel/multilayer_bitset.hpp:382-406 | In a tree whose parent bits say exactly which child words are full, the search finds the least clear slot. |
| `BitTree.SetSlotCorrect` | include/metall/kernel/multilayer_bitset.hpp:408-427 | Setting a slot adds just that slot and keeps the index exact. |
| `BitTree.ResetSlotCorrect` | include/metall/kernel/multilayer_bitset.hpp:429-452 | Clearing a slot removes just that slot and keeps the index exact. |
| `BitTree.FindAndSetCorrect` | include/metall/kernel/multilayer_bitset.hpp:303-319 | Find and set takes the least clear slot. |
| `BitTree.FindAndSetTimesCorrect` | include/metall/kernel/multilayer_bitset.hpp:303-319 | n single steps take the n lowest clear slots. |
| `BitTree.LeavesDetermineTree` | include/metall/kernel/multilayer_bitset.hpp:382-452 | The index words are determined by the leaves. |
| `BitTree.ManyIsTimes` | include/metall/kernel/multilayer_bitset.hpp:321-379 | Any exact tree with the n lowest free slots added is the tree n single steps give. |
| `BitTree.MaskedRun` | include/metall/kernel/multilayer_bitset.hpp:340-349 | Writing a run by mask and then setting its last bit is the same as setting the run bit by bit. |
| `FreeSlots.LeastFree` | include/metall/kernel/multilayer_bitset.hpp:382-406 | The position is free and all before it are taken. |
| `FreeSlots.FirstFreeFacts` | include/metall/kernel/multilayer_bitset.hpp:321-379 | The n lowest free positions were free, are below the size and increase. |
| `FreeSlots.FirstFreeRun` | include/metall/kernel/multilayer_bitset.hpp:340-349 | A run of free positions after a full prefix is taken first. |
| `Bits.FirstFalseBitIsFirst` | include/metall/kernel/multilayer_bitset.hpp:468-476 | The leading-zero trick finds the first clear bit of any word that is not full. |
| `Bits.GetSet` | include/metall/detail/bitset.hpp:73-77 | Set changes exactly that bit. |
| `Bits.GetReset` | include/metall/detail/bitset.hpp:90-94 | Reset changes exactly that bit. |
| `Bits.GetMask` | include/metall/detail/bitset.hpp:97-111 | A mask has exactly the bits asked for. |
| `Bits.FullBlockBits` | include/metall/detail/bitset.hpp:56-58 | A word counts as full exactly when all its bits are set. |
| `Bits.EmptyBlockBits` | include/metall/detail/bitset.hpp:61-63 | A word counts as empty exactly when all its bits are clear. |
| `BitRange.UpdateNBits` | include/metall/detail/bitset.hpp:116-167 | Exactly the n bits from the start take the new value, in one word or across several; no bits at the start of a word are updated with the mask given by a shift by the whole width, and nothing changes if that shift gives zero. |
| `BitRange.NoBits` | include/metall/detail/bitset.hpp:97-111 | That mask leaves every word alone if and only if the shift gives zero; where shifts go modulo the width it is the whole word. |
| `Utilities.NextPowerOf2Correct` | include/metall/detail/utilities.hpp:41-54 | If m is a power of two and m < n <= 2m, the bit smearing gives 2m, which is zero when it does not fit 64 bits. |
| `Utilities.TableIndexCorrect` | include/metall/detail/utilities.hpp:41-95 | For every size from 1 to 2^63 the two bit tricks give the rounded-up logarithm. |
| `SizeClasses.ObjectSizeIndex` | include/metall/kernel/object_size_manager.hpp:125-139 | For every chunk size 2^m from 512 and every request the short cuts agree with a full linear search: the least class not smaller than the request, or -1 exactly when it exceeds the last class. |
| `SizeClasses.SizeIndex` | include/metall/kernel/object_size_manager.hpp:114-122 | The linear search from the start finds the least class that holds the request, or none does. |
| `SizeClasses.FindInSizeTable` | include/metall/kernel/object_size_manager.hpp:114-122 | The scan from an offset finds the least class if all earlier classes are too small. |
| `SizeClasses.BitTrickIsLeast` | include/metall/kernel/object_size_manager.hpp:128-135 | From 9 to 256 bytes the leading-zero formula gives the least class. |
| `SizeClasses.ClassesIncrease` | include/metall/kernel/object_size_manager.hpp:71-107 | The classes increase strictly, from small to large. |
| `SizeClasses.SmallSizesAre` | include/metall/kernel/object_size_manager.hpp:71-107 | The small sizes are exactly the powers of two from 8 to half a chunk and the three steps of a quarter after each but the last. |
| `SizeClasses.InitSizeTable` | include/metall/kernel/object_size_manager.hpp:71-107 | The table built by the loops is the closed form of the classes. |
| `SizeClasses.FillClass2` | include/metall/kernel/object_size_manager.hpp:83-95 | The middle loop fills in the classes between 256 bytes and half a chunk. |
| `SizeClasses.CountClass2` | include/metall/kernel/object_size_manager.hpp:39-54 | The counting loop counts those classes. |
| `SizeClasses.CountLarge` | include/metall/kernel/object_size_manager.hpp:57-63 | The counting loop counts the doublings of the chunk size up to the maximum. |
| `SizeClasses.SmallWaste` | include/metall/kernel/object_size_manager.hpp:71-139 | From 8 bytes to half a chunk four times the waste is less than the request. |
| `SizeClasses.LargeWaste` | include/metall/kernel/object_size_manager.hpp:71-139 | Above half a chunk the class is less than twice the request. |
| `SizeClasses.ClassAligned` | include/metall/kernel/segment_allocator.hpp:197-199 | A request that is a multiple of a power of two from 8 to the chunk size gets an object size that is one too. |
| `SizeClasses.PowerOfSlots` | include/metall/kernel/object_size_manager.hpp:71-107 | When a power of two of objects, eight or more, is what fits a chunk, they fill it. |
| `StringKeyStore.FindIdCorrect` | include/metall/container/string_key_store.hpp:297-313 | With the probe invariant a key is found exactly when it is there, and under its one id. |
| `StringKeyStore.IdsMean` | include/metall/container/string_key_store.hpp:327-347 | A home id is the hash, or 0 if the hash is the number that stands for no id; after the greatest id comes 0. |
| `StringKeyStore.AddOk` | include/metall/container/string_key_store.hpp:281-292 | Adding at a key's id, or at the first free id after its home, keeps the probe invariant for the greater of the two distances. |
| `StringKeyStore.EraseBreaks` | include/metall/container/string_key_store.hpp:237-240 | After erasing a key every remaining key is found exactly when the erased id was on nobody's way. |
| `StringKeyStore.EraseLosesExample` | include/metall/container/string_key_store.hpp:237-240 | Two keys with one hash: erasing the first makes the second unfindable. |
| `StringKeyStore.CopyFinds` | include/metall/container/string_key_store.hpp:80-93 | An allocator-extended copy finds all its keys exactly when every item is at its key's home. |
| `StringKeyStore.CopyLoses` | include/metall/container/string_key_store.hpp:80-93 | Two keys with one hash: the second is lost in such a copy. |
| `StringKeyStore.GoneRound` | include/metall/container/string_key_store.hpp:285-288 | The probe comes round only when all ids are taken. |
| `StringKeyStore.InsertValid` | include/metall/container/string_key_store.hpp:130-143 | In a valid state, if the view of the key has no NUL character and is followed by one, or the value is replaced: the key gets the value, no other key is affected, and the state stays valid. |
| `StringKeyStore.InsertFinds` | include/metall/container/string_key_store.hpp:130-143 | Whichever items of one id a search looks at: an inserted key is found if and only if its view has no NUL character and is followed by one, or the value is replaced, as the stored key is read as a C string. |
| `StringKeyStore.CutOffExample` | include/metall/container/string_key_store.hpp:130-143 | A key with a NUL character inserted into an empty store may be missed, whatever follows it. |
| `StringKeyStore.RunOnExample` | include/metall/container/string_key_store.hpp:130-143 | The first two characters of "abc" inserted as a view into an empty store are stored as "abc" and may be missed. |
| `StringKeyStore.StoredWhole` | include/metall/container/string_key_store.hpp:138-140 | The key is stored as given exactly if its view has no NUL character and is followed by one. |
| `StringKeyStore.OthersFind` | include/metall/container/string_key_store.hpp:130-143 | An insert that stores another key leaves the ids and values of all keys alone but the one given and the one stored. |
| `StringKeyStore.OneAnswer` | include/metall/container/string_key_store.hpp:297-313 | With one key per id it does not matter which of the items with an id a search looks at. |
| `StringKeyStore.InsertSound` | include/metall/container/string_key_store.hpp:130-143 | Also in states that lost keys an insert of a terminated view keeps every id to one key. |
| `StringKeyStore.FoundIsSound` | include/metall/container/string_key_store.hpp:297-313 | In such states a lookup may miss its key but never gives a value of another. |
| `StringKeyStore.Reordered` | include/metall/container/string_key_store.hpp:256-264 | Another order of the items gives each key the same values in another order. |
| `StringKeyStore.StringKeyStore.constructor` | include/metall/container/string_key_store.hpp:72-74 | A new store is empty and valid. |
| `StringKeyStore.StringKeyStore.Insert` | include/metall/container/string_key_store.hpp:130-143 | In any state one item is added, or in unique mode a value replaced. In a valid state the key gets the value, no other key is affected and the key is found if and only if its view has no NUL character and is followed by one, or the value is replaced. Otherwise all keys but the one given and the one stored keep their ids and values. |
| `StringKeyStore.StringKeyStore.InsertDefault` | include/metall/container/string_key_store.hpp:106-123 | Inserts the whole key unless unique and present; says which; all other keys keep their values. |
| `StringKeyStore.StringKeyStore.Find` | include/metall/container/string_key_store.hpp:209-212 | In a valid state: points at an item of the key, or at the end exactly when the key has no value. After an erase it may miss the key but never points at another. |
| `StringKeyStore.StringKeyStore.Count` | include/metall/container/string_key_store.hpp:172-175 | The number of the key's values. |
| `StringKeyStore.StringKeyStore.EqualRange` | include/metall/container/string_key_store.hpp:219-224 | In a valid state the key's values; after an erase some of them and no others. |
| `StringKeyStore.StringKeyStore.Erase` | include/metall/container/string_key_store.hpp:237-240 | From a valid state exactly the key's items go and are counted, an absent key changes nothing, and the store stays valid exactly when the erased id was on nobody's way. |
| `StringKeyStore.StringKeyStore.Rehash` | include/metall/container/string_key_store.hpp:256-264 | From any state, also one with holes and duplicates, whatever order the items are walked in. Without NUL characters in keys the probe invariant holds again and the pairs stay, or in unique mode each key keeps exactly one of its values. Without unique keys the pairs are the old ones with the keys cut off at NUL characters. All old keys are found again if and only if none has a NUL character. |
| `StringKeyStore.StringKeyStore.Clear` | include/metall/container/string_key_store.hpp:164-167 | The store is empty and valid. |
| `StringKeyStore.StringKeyStore.FindInternalId` | include/metall/container/string_key_store.hpp:297-313 | The loop is the bounded probe. |
| `StringKeyStore.StringKeyStore.GenerateInternalId` | include/metall/container/string_key_store.hpp:281-292 | Ends at the first free id from the key's home on, and the recorded distance covers it. |
| `StringKeyStore.StringKeyStore.FindOrGenerateInternalId` | include/metall/container/string_key_store.hpp:318-325 | The id is shared with exactly the items of the key, and an item added there keeps the probe invariant. |
| `Bfs.BfsData.Kernel` | bench/bfs/kernel.hpp:51-86 | With one thread, on every graph, the search ends; the levels are the distances (infinite exactly for unreachable vertices) if and only if no vertex is 65535 steps away, and then the greatest finite level is returned. |
| `ParallelBfs.KernelCorrect` | bench/bfs/kernel.hpp:51-86 | On any number of threads, however the iterations over the vertices interleave at their reads and writes, loads and stores of whole words of the filter included: a search that ends gives the distances if and only if no vertex is 65535 steps away, and then returns the greatest one, after one pass more. |
| `ParallelBfs.KernelEnds` | bench/bfs/kernel.hpp:51-86 | If no vertex is 65535 steps away, no sequence of completed passes is longer than the number of vertices, whatever the interleavings, and a finished search exists. |
| `ParallelBfs.FinishAll` | bench/bfs/kernel.hpp:57-77 | From any state of a level all its iterations can be brought to their end. |
| `ParallelBfs.RunKeeps` | bench/bfs/kernel.hpp:61-77 | Every interleaving of the iterations of a level keeps all levels right: vertices within n steps keep their distance, others have none or n + 1, and are then within n + 1 steps. |
| `ParallelBfs.LevelEnds` | bench/bfs/kernel.hpp:57-77 | When all iterations of a level are done, exactly the vertices within n + 1 steps have a level, their distance, and the flag says whether there are new ones. |
| `ParallelBfs.WriteLevelKeeps` | bench/bfs/kernel.hpp:72 | A level written from stale reads, perhaps for the second time, is right. |
| `ParallelBfs.WriteFilterKeeps` | bench/bfs/kernel.hpp:73 | A store of a word of the filter, loaded earlier, that undoes other stores or brings back undone ones does no harm. |
| `ParallelBfs.IterationEnds` | bench/bfs/kernel.hpp:66-76 | Each step of an iteration brings it nearer to its end and delays no other. |
| `Bfs.BfsData.constructor` | bench/bfs/kernel.hpp:41-46 | Only the source has a level and is visited. |
| `Bfs.BfsData.VisitLevel` | bench/bfs/kernel.hpp:57-77 | A pass visits exactly the unvisited neighbours of the current level, and tells whether there were any. |
| `Bfs.BfsData.VisitNeighbours` | bench/bfs/kernel.hpp:66-76 | The inner loop visits exactly the unvisited neighbours of one vertex. |
| `Bfs.FewVertices` | bench/bfs/kernel.hpp:20-22 | With at most 65535 vertices none is too far. |
| `Bfs.RowIsTooFar` | bench/bfs/kernel.hpp:20-22 | With 65536 vertices one can be: the last of a row. |
| `Bfs.WalkTo` | bench/bfs/kernel.hpp:51-86 | What is within n steps can be walked to in at most n edges. |
| `Bfs.WalkIsNear` | bench/bfs/kernel.hpp:51-86 | What can be walked to in n edges is within n steps. |
| `Bfs.AllSeen` | bench/bfs/kernel.hpp:61-77 | After a whole level exactly the vertices first reached in the next step have been seen. |

## Left out

- SegmentAllocator.SegmentAllocator.Deserialize: states the round trip from what `Serialize` wrote; other texts are covered only by the row-by-row reading of the two directories, where an out-of-range row, or a bitmap of one word with none or several numbers, counts as a failure. Numbers are read without signs.
- Concurrency.StepKeeps: a cache is touched only under its lock, so that a flush is assumed to run while nobody pushes or pops (`FlushExact` says what happens otherwise); refilling, evicting and flushing are made of single steps in any order; a large request that fails is one step without effect.
- Bfs.BfsData.Kernel: looks at the vertices of a level in order; other interleavings are those of `ParallelBfs`.
- ParallelBfs.KernelCorrect: each read and each write is one step, seen by all threads at once.
- Chunk directory entries hold their bitmap words as a value, not by reference.
- The callbacks of the object cache are modelled by returning the blocks to hand back and taking the refill as an argument; `SegmentAllocator` calls the other component in between. Several blocks evicted by one call, or flushed, go back together once they are collected; an object is pushed, or a refill made, after that.
- The unordered multimap of `string_key_store` is a sequence of items in the order in which they came, and a search looks at the first item with an id; `MayFind` allows any of them, and `Rehash` any order.
- Integer widths: chunk numbers and byte counts are unbounded; words, ids, levels and saved numbers have their 16 or 64 bits.
- The power-of-two test of alignments is the mathematical one.
- Freeing a region of the segment has no effect in the model other than the pages named as released.
- Bitset blocks of other widths than 64 bits, static_bitset and the sorted-bin variant of the bin directory.
- Segment storage itself: mmap, files, privateer, umap, snapshots and cloning.
- The manager, object directories, STL allocators, fallback allocator and C API, which forward to the segment allocator.
- Choosing a cache by CPU or thread number, MurmurHash, logging, profile output, UUIDs and MPI.
- JSON containers, concurrent_map and the other containers, and all programs but the breadth-first search kernel.
