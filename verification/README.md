# Mooncake Store, modelled in Dafny

This project models the parts of Mooncake Store where correctness is hard to see
from one function, and proves what they promise.

- **Offset allocator.** `SmallFloat`, `Bits`, `Tiling`, `TilingFacts`, `BinLists`,
  `HeapArrays`, `HeapFacts`, `OffsetCore`, `Grants` and `OffsetAllocators`: the two-level
  segregated-fit allocator over its node, bin and slot arrays, its 64-bit wrapper, and the
  handles that own its grants.
  One invariant ties the arrays to a tiling of the storage; everything a caller relies on
  is proved about that tiling.
- **Eviction.** `Metadata`, `Selection`, `BatchEvict` (one shard), `EvictPasses` (both passes
  over all shards, as functions), `EvictOrder` (how many objects go, from the lists of leases
  alone), `EvictFront` (which ones go, and in what order), `EvictMaster` (the loops of the
  source) and `EvictWitness`: the two-pass, nearly least-recently-used eviction.
- **Segments.** `Segments`: mounting and the two phases of unmounting, over the five indexes;
  `Monitor`: one round of the client monitor.
- **The master.** `ObjectOps` gives each operation on objects as a function, `ObjectMeanings`
  what it does to every field of every entry; `MasterService` is the class that carries them
  out, with its gauge of allocated bytes.
- **The cluster.** `Cluster` is the master as a state machine whose steps are critical
  sections: puts, reads, removals, evictions, mounts, unmounts, deallocations, heartbeats and
  the client monitor interleave freely. Each mounted segment has the allocator that `Grants`
  gives as a value, tiles and grants; `LiveGrants` ties every live buffer to a grant of its own.
  `ClusterProofs` has one lemma per step, `ClusterTheorems` the
  results over all runs, `LeaseRuns` what leases, statuses and sizes guarantee over all runs,
  `PutRuns` what a put installs, `MonitorRuns` whom the monitor expires, `RunWitness` and `PutWitness` runs that show where the
  guarantees end, `ByteSums`, `Maps` and `Sequences` sums and lists. `Options` is the option type.
- **Client batch put.** `BatchPut`: the staged pipeline over a batch of operations.
- **Slab allocator.** `Buddy`: the buddy-style allocator of the Python binding.

Machine integers are unbounded integers with the 32- and 64-bit wrap-around written out
where the source has it. Bitmap words are sequences of bits. Times are integers of one clock
that never goes back; eviction ratios are reals. The outside world enters as parameters: the
allocator an allocation strategy picks, the answers of remote calls and transfers, fresh
memory from the system, the keys a regular expression matches, the random start shard.

Where the code does less than its comments or its callers expect, the model follows the code,
and a lemma gives the exact condition under which it does what is expected:

- requests whose rounding wraps at 64 bits: `Grants.FakeSizeMeaning`, with a request that is
  granted in `OffsetAllocators.GrantWrapped`;
- live requests of zero bytes: `TilingFacts.FreeRegionsAreGaps`;
- candidates without memory replicas, which use up the thresholds of the second eviction pass:
  `EvictOrder.BoundExactly`, with an input in `EvictWitness.DiskOnlyCandidateBlocks`;
- equal leases at the threshold, which can let an older object stay behind a younger one:
  `EvictFront.OrderExactly`, with an input in `EvictWitness.TiesBreakTheOrder`;
- puts on an entry that was just emptied: `PutRuns.PutInstalls`, with a run in
  `PutWitness.PutInstallsNothing`;
- revokes on objects without bytes: `LeaseRuns.PutRevokeExact`, with an input in
  `PutWitness.RevokeTakesComplete`; no reachable state has such an object (`LeaseRuns.RevokeSpares`);
- RemoveAll on objects being written: `LeaseRuns.RemoveAllExactly`, with a run in
  `RunWitness.RemoveAllTakesWrites`;
- unmounts on behalf of another client: `Segments.CommitOwners`;
- start answers that get lost: `BatchPut.LostAnswers`;
- a slab freed with a length of another class: `Buddy.GiveKeeps`.

A destructor that keeps an allocator alive during a sweep lets a buffer outlive its segment
(`RunWitness.PinnedBufferSurvives`); the theorems beside it leave out what such a destructor hid.

In the cluster, an allocation step cuts one tile of its allocator per buffer, as
`OffsetAllocator.Allocate` does (`Cuts` in its contract), and a deallocation step releases the
tile of a buffer that is gone, as `FreeAllocation` does. No step asks whether there is room:
that live bytes fit is proved from the tiles (`LiveGrants.LoadFits`).

`dafny verify dfyconfig.toml` checks the whole project.

## Model

| member | source | states |
|---|---|---|
| SmallFloat.GaloisUp | Mooncake/mooncake-store/src/offset_allocator.cpp:61-85 | rounding up is the lower adjoint of the bin value: `RoundUp(s) <= b` iff `s <= FloatToUint(b)`, for every 32-bit size and every bin |
| SmallFloat.GaloisDown | Mooncake/mooncake-store/src/offset_allocator.cpp:87-105 | rounding down is the upper adjoint: `b <= RoundDown(s)` iff `FloatToUint(b) <= s` |
| SmallFloat.RoundUpWaste | Mooncake/mooncake-store/src/offset_allocator.cpp:61-116 | rounding up never shrinks a request and wastes less than an eighth of it, within 32 bits |
| SmallFloat.BinRange | Mooncake/mooncake-store/src/offset_allocator.cpp:53-116 | a request has a bin exactly up to MAX_BIN_SIZE; every larger one gets bin 240, whose 32-bit value is 0 |
| SmallFloat.BinValueRoundTrip | Mooncake/mooncake-store/src/offset_allocator.cpp:107-116 | a bin's value is in its own bin, rounding either way |
| SmallFloat.NoTruncation | Mooncake/mooncake-store/src/offset_allocator.cpp:107-116 | no value of bins 0..239 is truncated to 32 bits |
| Bits.FindLowestSetBitAfter | Mooncake/mooncake-store/src/offset_allocator.cpp:120-126 | the lowest set bit at or above the start, and NO_SPACE iff there is none |
| Tiling.SplitKeeps | Mooncake/mooncake-store/src/offset_allocator.cpp:205-268 | cutting a free tile keeps the storage tiled: contiguous, no two adjacent free tiles, distinct nodes; free bytes drop by what was cut |
| Tiling.ReleaseKeeps | Mooncake/mooncake-store/src/offset_allocator.cpp:290-354 | merging a freed tile with its free neighbours keeps the storage tiled, and adds its size to the free bytes |
| TilingFacts.Disjoint | Mooncake/mooncake-store/src/offset_allocator.cpp:161-439 | no byte of the storage is in two tiles |
| TilingFacts.FreeRegionsAreGaps | Mooncake/mooncake-store/src/offset_allocator.cpp:271-354 | the free regions are exactly the maximal runs of unused bytes iff used bytes lie between any two of them |
| TilingFacts.NoEmptySeparates | Mooncake/mooncake-store/src/offset_allocator.cpp:191-288 | that condition holds whenever no request of zero bytes is live |
| TilingFacts.EmptyUsedSplitsGap | Mooncake/mooncake-store/src/offset_allocator.cpp:191-288 | a live request of zero bytes can split one gap into two free regions |
| TilingFacts.ReleaseUndoesSplit | Mooncake/mooncake-store/src/offset_allocator.cpp:271-354 | free right after allocate gives back the same tiling |
| TilingFacts.FreeingAllLeavesOne | Mooncake/mooncake-store/src/offset_allocator.cpp:290-354 | freeing everything, in whatever order, leaves one free region over the whole storage |
| HeapArrays.InsertedKeeps | Mooncake/mooncake-store/src/offset_allocator.cpp:356-390 | inserting a node at the head of its bin keeps every bin list acyclic and doubly linked, the bins exact, both bitmap levels in step, and live and free slots a partition |
| HeapArrays.UnlinkedKeeps | Mooncake/mooncake-store/src/offset_allocator.cpp:392-439 | unlinking a node anywhere in its bin list keeps the same, and clears bitmap bits exactly when bins become empty |
| BinLists.SlotsPartition | Mooncake/mooncake-store/src/offset_allocator.cpp:161-200 | live nodes and the free-slot stack partition the node slots in use |
| HeapArrays.SearchBinLowest | Mooncake/mooncake-store/src/offset_allocator.cpp:206-234 | the two-level bitmap search finds the lowest non-empty bin at or above the wanted one, and none iff all are empty |
| HeapFacts.FreedRefits | Mooncake/mooncake-store/src/offset_allocator.cpp:290-354 | a freed block can be requested again at its original size |
| HeapFacts.LargestRequest | Mooncake/mooncake-store/src/offset_allocator.cpp:448-466 | the value of the highest non-empty bin is the largest request the search can meet |
| HeapFacts.BinCount | Mooncake/mooncake-store/src/offset_allocator.cpp:468-482 | the length of a bin list is the number of free tiles of that bin |
| OffsetCore.Allocator.InsertNodeIntoBin | Mooncake/mooncake-store/src/offset_allocator.cpp:356-390 | takes the top slot for a new free node; bin lists, bitmaps and slots stay in agreement, free storage grows by the size, every other node keeps its place |
| OffsetCore.Allocator.RemoveNodeFromBin | Mooncake/mooncake-store/src/offset_allocator.cpp:392-439 | unlinks a free node and returns its slot; bin lists, bitmaps and slots stay in agreement, free storage drops by the size, every node keeps its place |
| OffsetCore.Allocator.FindBin | Mooncake/mooncake-store/src/offset_allocator.cpp:202-237 | finds a bin iff some free tile is in the rounded-up bin or above, and then the lowest such bin, whose tiles all fit |
| OffsetCore.Allocator.Allocate | Mooncake/mooncake-store/src/offset_allocator.cpp:191-288 | fails iff the slots are used up or no free tile is in the rounded-up bin or above; otherwise cuts exactly the rounded-up size off a tile of the lowest such bin |
| OffsetCore.Allocator.Free | Mooncake/mooncake-store/src/offset_allocator.cpp:290-354 | merges the block with exactly its free neighbours and files the result; the heap invariant is kept |
| OffsetCore.Allocator.StorageReport | Mooncake/mooncake-store/src/offset_allocator.cpp:448-466 | reports the sum of free sizes; a request of one byte or more is at most the largest region iff allocate can meet it |
| OffsetCore.Allocator.StorageReportFull | Mooncake/mooncake-store/src/offset_allocator.cpp:468-482 | walks every bin list and reports the number of free tiles of each bin |
| OffsetCore.Allocator.Reset | Mooncake/mooncake-store/src/offset_allocator.cpp:161-184 | leaves one free tile over the whole storage and the heap invariant |
| OffsetCore.Allocator.constructor | Mooncake/mooncake-store/src/offset_allocator.cpp:129-139 | the invariant holds from the start |
| Grants.CalculateMultiplier | Mooncake/mooncake-store/src/offset_allocator.cpp:536-543 | the smallest shift that brings the capacity down to the largest bin |
| Grants.FakeSizeMeaning | Mooncake/mooncake-store/src/offset_allocator.cpp:573-577 | the request in units is the exact ceiling iff the 64-bit addition does not wrap; otherwise it is zero units |
| OffsetAllocators.OffsetAllocator.constructor | Mooncake/mooncake-store/src/offset_allocator.cpp:554-561 | starts as the heap of that capacity: one free tile, no grant, in the smallest units that fit |
| OffsetAllocators.OffsetAllocator.Allocate | Mooncake/mooncake-store/src/offset_allocator.cpp:563-601 | fails iff the request is zero, too large, the slots are used up or no free tile fits; otherwise cuts one tile for it and adds one grant with its size and count |
| OffsetAllocators.OffsetAllocator.FreeAllocation | Mooncake/mooncake-store/src/offset_allocator.cpp:650-659 | releases the tile of that node and takes back exactly its grant, with its size and count |
| OffsetAllocators.OffsetAllocator.StorageReport | Mooncake/mooncake-store/src/offset_allocator.cpp:603-611 | in bytes: every request without wrap-around, of whatever size, is at most the largest region iff allocate can meet it |
| Grants.GrantsDisjoint | Mooncake/mooncake-store/src/offset_allocator.cpp:563-601 | live grants of requests without wrap-around lie inside the region and are pairwise disjoint, for every capacity and size |
| Grants.GrantsSplit | Mooncake/mooncake-store/src/offset_allocator.cpp:563-601 | a new grant sits at its tile's scaled offset, and its tile covers the request iff the addition did not wrap |
| Grants.GrantsRelease | Mooncake/mooncake-store/src/offset_allocator.cpp:650-659 | freeing one grant leaves every other grant on its tile |
| Grants.SoundTotal | Mooncake/mooncake-store/src/offset_allocator.cpp:563-601 | the live requests without wrap-around add up to no more than the used bytes, whatever else is live |
| Grants.GrantsWithinCapacity | Mooncake/mooncake-store/src/allocator.cpp:151-187 | so an allocator never hands out more than the capacity of its segment, wrapped requests aside |
| Grants.CutHeapKeeps | Mooncake/mooncake-store/src/offset_allocator.cpp:563-601 | cutting a tile for a request keeps the heap well formed, and its node had no grant |
| Grants.ReleaseHeapKeeps | Mooncake/mooncake-store/src/offset_allocator.cpp:650-659 | releasing a used tile keeps the heap well formed, takes exactly its grant and frees exactly its bytes |
| LiveGrants.GrantAllKeeps | Mooncake/mooncake-store/src/master_service.cpp:411-445 | granting slices one after the other gives each buffer a grant that no other buffer holds |
| LiveGrants.ReleaseBacks | Mooncake/mooncake-store/src/allocator.cpp:190-207 | giving back a grant that no buffer holds leaves every live buffer its own grant |
| LiveGrants.LoadFits | Mooncake/mooncake-store/src/allocator.cpp:151-207 | when every live buffer holds a grant of its own, the live bytes of an allocator are at most its grants, and those at most its capacity |
| OffsetAllocators.Handle.Move | Mooncake/mooncake-store/src/offset_allocator.cpp:492-502 | the grant changes hands; every grant still has exactly one holder |
| OffsetAllocators.Handle.MoveAssign | Mooncake/mooncake-store/src/offset_allocator.cpp:504-526 | gives back the old grant, then takes over the other, between handles of one allocator or of two; self-assignment changes nothing; one holder per grant of each allocator |
| OffsetAllocators.Handle.Destroy | Mooncake/mooncake-store/src/offset_allocator.cpp:528-534 | gives back the grant it holds, if any; one holder per remaining grant |
| OffsetAllocators.AllocateHandle | Mooncake/mooncake-store/src/offset_allocator.cpp:563-601 | a handle that is returned holds a new grant |
| OffsetAllocators.LiveHandles | Mooncake/mooncake-store/src/offset_allocator.cpp:484-534 | the handles of an allocator are as many as its live grants and asked for as many bytes as are granted, under any moves; so the two counters count handles and their bytes |
| OffsetAllocators.GrantWrapped | Mooncake/mooncake-store/src/offset_allocator.cpp:573-577 | a new allocator of 2^33 bytes grants a request of 2^64 - 1 bytes, because rounding it up wraps |
| Selection.NthSmallest | Mooncake/mooncake-store/src/master_service.cpp:840-843 | what std::nth_element leaves at an index: at most that many values are smaller, more than that many are no larger |
| Selection.NthExact | Mooncake/mooncake-store/src/master_service.cpp:840-843 | with distinct values the threshold cuts off exactly the n + 1 smallest |
| Selection.NthUnique | Mooncake/mooncake-store/src/master_service.cpp:840-843 | the order statistic is unique, so whatever nth_element implementation gives the threshold |
| EvictMaster.FirstPassShard | Mooncake/mooncake-store/src/master_service.cpp:805-877 | one shard: takes exactly the evictable objects whose lease is at most the nth candidate lease; survivors are exactly the leases above; nothing else is touched |
| EvictMaster.FirstPass | Mooncake/mooncake-store/src/master_service.cpp:796-877 | every shard is left with exactly its leases past its own threshold; the no-pin and soft-pin lists are what the source collects; with distinct leases never more than the share of the objects goes |
| EvictOrder.FirstLeaves | Mooncake/mooncake-store/src/master_service.cpp:836-877 | which leases each shard keeps, in terms of the candidates of that shard and the number taken before it |
| EvictOrder.TakenWithin | Mooncake/mooncake-store/src/master_service.cpp:836-850 | with distinct leases a shard never gives more than is missing, and exactly that, as far as it has it, when every candidate has a memory replica |
| EvictOrder.FirstWithinTarget | Mooncake/mooncake-store/src/master_service.cpp:796-850 | with distinct leases the first pass never exceeds the target, after any number of shards |
| EvictOrder.NoPinMade | Mooncake/mooncake-store/src/master_service.cpp:811-877 | the no-pin list is made up of the survivors that can be evicted and of the memory-less candidates of shards that were passed over |
| EvictMaster.SecondPass | Mooncake/mooncake-store/src/master_service.cpp:890-987 | over all shards: the exact number evicted, and the survivors are exactly those past the threshold iff the budget covers what is up to it |
| EvictFront.SweepRest | Mooncake/mooncake-store/src/master_service.cpp:907-983 | a sweep of the second pass over a shard takes the first eligible objects in visiting order, as many as the budget allows: exactly who survives, for every budget |
| EvictFront.SweepAllRest | Mooncake/mooncake-store/src/master_service.cpp:890-987 | the same over all shards, for both forms of the second pass |
| EvictOrder.EvictCounts | Mooncake/mooncake-store/src/master_service.cpp:796-1000 | the number evicted for every input, from the lists of leases alone |
| EvictOrder.BoundExactly | Mooncake/mooncake-store/src/master_service.cpp:879-1000 | at least min(share of the lower bound, evictable objects) go iff up to the threshold the memory-less candidates leave room for that many; and never more than that or the first pass |
| EvictOrder.MemoryMeetsBound | Mooncake/mooncake-store/src/master_service.cpp:879-1000 | when no memory-less candidate is listed, exactly max(first pass, min(share of the lower bound, evictable objects)) go |
| EvictOrder.CutExactly | Mooncake/mooncake-store/src/master_service.cpp:890-987 | the second pass takes everything up to its threshold iff no ties push the threshold beyond the number aimed at |
| EvictFront.FrontExactly | Mooncake/mooncake-store/src/master_service.cpp:890-987 | a sweep leaves no object that should have gone before one that went iff every object before the threshold is visited among the first eligible ones |
| EvictFront.OrderExactly | Mooncake/mooncake-store/src/master_service.cpp:879-987 | for every call: who survives the second pass, and that it keeps the order of leases, and of pins, iff every object before the threshold is visited among the first eligible ones it aims at |
| EvictOrder.DistinctInOrder | Mooncake/mooncake-store/src/master_service.cpp:890-987 | with distinct leases the second pass takes exactly the globally oldest survivors |
| EvictMaster.EvictShards | Mooncake/mooncake-store/src/master_service.cpp:796-1000 | both passes together: safety, exact bytes, the bound and the order with their exact conditions; the branch that should not happen is unreachable, every index is in range |
| BatchEvict.SweepSafe | Mooncake/mooncake-store/src/master_service.cpp:853-868 | entry by entry, in order: only objects with an expired lease and complete memory replicas lose anything, soft-pinned ones only in pass B; such an object stays iff it has a disk replica and bytes, and then has exactly its disk replicas, its size, lease and pin |
| BatchEvict.SweepBytes | Mooncake/mooncake-store/src/master_service.cpp:859-868 | the bytes released are the drop in bytes held; the freed size that is counted is the same when sizes are right |
| EvictPasses.EvictAllSafe | Mooncake/mooncake-store/src/master_service.cpp:796-1000 | the same for a whole call: nothing under lease or being written is touched, soft-pinned objects only when that is allowed, replicas on disk never; the bytes released are the drop in bytes held, and sizes stay right |
| EvictPasses.ShareMeans | Mooncake/mooncake-store/src/master_service.cpp:807-809 | the number aimed at is the ratio of the objects, rounded up |
| EvictMaster.EvictionMaster.BatchEvict | Mooncake/mooncake-store/src/master_service.cpp:773-1016 | from any start shard: safety, the freed size is the drop of the gauge, bound and order with their exact conditions, and when the eviction flag is cleared |
| EvictWitness.DiskOnlyCandidateBlocks | Mooncake/mooncake-store/src/master_service.cpp:811-828 | an input of two passes over 3 shards in which a candidate with only a disk replica uses up the threshold: one object goes where two are promised |
| EvictWitness.TiesBreakTheOrder | Mooncake/mooncake-store/src/master_service.cpp:905-934 | an input in which two objects of one lease go and an older one stays: the order is not kept |
| Metadata.WithoutMemoryBytes | Mooncake/mooncake-store/include/master_service.h:349-357 | an object without its memory replicas holds no bytes |
| Metadata.MemoryBytes | Mooncake/mooncake-store/src/master_service.cpp:859-868 | bytes held are size times number of memory replicas, when every replica adds up to the size |
| Segments.MountAgrees | Mooncake/mooncake-store/src/segment.cpp:7-87 | mounting keeps all indexes in agreement and adds exactly the size, or changes nothing |
| Segments.PrepareAgrees | Mooncake/mooncake-store/src/segment.cpp:118-177 | preparing an unmount keeps them in agreement |
| Segments.PreparedIsOut | Mooncake/mooncake-store/src/segment.cpp:118-177 | after preparing, the segment's allocator is in no list and every other one still is |
| Segments.CommitAgrees | Mooncake/mooncake-store/src/segment.cpp:179-209 | committing a prepared segment keeps them in agreement and lowers the capacity by the size |
| Segments.CommitAgreesExactly | Mooncake/mooncake-store/src/segment.cpp:179-209 | commit keeps the agreement iff the segment is out of service and the capacity given is its size, or nothing when there is no such segment |
| Segments.CommitOwners | Mooncake/mooncake-store/src/segment.cpp:183-200 | the client lists stay exact iff the client given at commit is the owner |
| Segments.MountOwners | Mooncake/mooncake-store/src/segment.cpp:78-82 | mounting keeps the client lists exact |
| Segments.SegmentManager.constructor | Mooncake/mooncake-store/src/segment.cpp:7-87 | starts empty, in agreement |
| Segments.SegmentManager.MountSegment | Mooncake/mooncake-store/src/segment.cpp:7-87 | each error code iff its reason holds, and the new indexes: the segment is there, in service, iff there was no error; agreement is kept |
| Segments.SegmentManager.ReMountSegment | Mooncake/mooncake-store/src/segment.cpp:89-116 | fails iff a good segment of the list is still being unmounted; every good one before that is in service afterwards, what was mounted stays as it is, and nothing else is mounted; agreement is kept |
| Segments.RemountMeans | Mooncake/mooncake-store/src/segment.cpp:89-116 | the same about the indexes as a function of the list, by induction over it |
| Segments.SegmentManager.PrepareUnmountSegment | Mooncake/mooncake-store/src/segment.cpp:118-177 | each error code iff its reason holds, the size for the metrics and the new indexes: the segment is unmounting and without allocator iff there was no error; agreement is kept |
| Segments.SegmentManager.CommitUnmountSegment | Mooncake/mooncake-store/src/segment.cpp:179-209 | the new indexes, for any id, client and capacity |
| Segments.SegmentManager.GetClientSegments | Mooncake/mooncake-store/src/segment.cpp:211-224 | the error code, and the mounted segments on the client's list in its order |
| Segments.SegmentsOfExact | Mooncake/mooncake-store/src/segment.cpp:211-224 | those are exactly the segments that the list names and that are mounted |
| Segments.SegmentsOfOnce | Mooncake/mooncake-store/src/segment.cpp:211-224 | as they were mounted, each once when the list has it once |
| Segments.SegmentManager.QuerySegments | Mooncake/mooncake-store/src/segment.cpp:237-253 | succeeds iff a segment of that name is in service, and then gives the size of one of them and the bytes its allocator has in use |
| Monitor.FindExpired | Mooncake/mooncake-store/src/master_service.cpp:1023-1045 | every heartbeat extends its client to now + live time, and exactly the clients of the table that were not heard of and whose time is over expire, each once |
| Monitor.RefreshedMeans | Mooncake/mooncake-store/src/master_service.cpp:1025-1031 | what the table holds after the queue is drained |
| Monitor.PrepareExpired | Mooncake/mooncake-store/src/master_service.cpp:1053-1088 | the batch has exactly the segments in service on the expired clients' lists, each once, with its size and the client whose list it is on; afterwards none of them is in service and the indexes agree |
| Monitor.CommitBatch | Mooncake/mooncake-store/src/master_service.cpp:1090-1102 | the new indexes, client lists included: exactly the segments of the batch go, and the indexes agree |
| Monitor.CommitAllOwners | Mooncake/mooncake-store/src/master_service.cpp:1090-1102 | the client lists stay exact when every segment of the batch goes on behalf of its owner |
| Monitor.ExpireClients | Mooncake/mooncake-store/src/master_service.cpp:1053-1102 | the whole round: exactly the segments in service of the expired clients go, the indexes agree and every client list is exact again |
| ClusterTheorems.StepKeeps | Mooncake/mooncake-store/src/master_service.cpp:83-216 | every step of every thread keeps the whole invariant of the cluster |
| ClusterTheorems.RunKeeps | Mooncake/mooncake-store/src/master_service.cpp:83-216 | so does every interleaving |
| ClusterTheorems.IndexesAgree | Mooncake/mooncake-store/src/segment.cpp:28-209 | in every reachable state the indexes agree, UNMOUNTING segments have no allocator, and each belongs to exactly one unmount or expiry under way |
| ClusterTheorems.NothingBehindTheSweep | Mooncake/mooncake-store/src/master_service.cpp:169-216 | behind the sweep of an unmount no object, installed or being put, has a buffer of its segments; none is left when it commits |
| ClusterProofs.SweepClears | Mooncake/mooncake-store/src/master_service.cpp:169-182 | sweeping one shard leaves only buffers of allocators that exist |
| ClusterProofs.PutFrame | Mooncake/mooncake-store/src/master_service.cpp:401-469 | a put that holds its shard's lock brings no buffer of a dead allocator behind a sweep |
| ClusterTheorems.CommittedIsGone | Mooncake/mooncake-store/src/segment.cpp:179-209 | a committed segment's allocator is out of use, unless a destructor kept it alive during the sweep |
| ClusterTheorems.GoneForGood | Mooncake/mooncake-store/src/master_service.cpp:184-216 | and no object ever has a buffer of it again, over any later run |
| RunWitness.PinnedBufferSurvives | Mooncake/mooncake-store/src/allocator.cpp:12-22 | a run in which a buffer destructor keeps the allocator alive during the sweep, and a buffer outlives its segment and its capacity |
| ClusterTheorems.CapacityNeverExceeded | Mooncake/mooncake-store/src/allocator.cpp:151-207 | live bytes never exceed the mounted capacity, over every run without such a destructor; no step asks for room |
| ClusterTheorems.MissedWerePinned | Mooncake/mooncake-store/src/master_service.cpp:169-182 | in every reachable state an allocator that a sweep missed, or that leaked, was kept alive by a destructor before |
| ClusterTheorems.BytesWithinCapacity | Mooncake/mooncake-store/src/allocator.cpp:12-22 | the same for every reachable state in which no allocator was missed by a sweep |
| ClusterTheorems.LoadWithinGrants | Mooncake/mooncake-store/src/allocator.cpp:151-207 | in every reachable state the live bytes of each allocator are at most its sound grants, those at most its capacity, and that is the size of its segment |
| ClusterTheorems.NoOrphans | Mooncake/mooncake-store/src/master_service.cpp:83-167 | in high-availability mode the owner of each segment in service and each OK client is in the ping queue, has a time-to-live, or is in the batch being expired |
| ClusterTheorems.ExpiredAreOut | Mooncake/mooncake-store/src/master_service.cpp:1018-1104 | after a batch, no expired client is OK or has a segment in service |
| ClusterTheorems.MountedStep | Mooncake/mooncake-store/src/master_service.cpp:83-216 | one step of any thread: a segment comes in service iff it is mounted and was not there, leaves service iff an unmount or an expiry prepares it, and is gone iff that is committed; its description never changes |
| ClusterTheorems.RemountStops | Mooncake/mooncake-store/src/master_service.cpp:119-167 | a remount under way stops exactly at a good segment that is still being unmounted, and otherwise goes on with the next |
| ClusterTheorems.JobStep | Mooncake/mooncake-store/src/master_service.cpp:184-216 | one step of any thread: an unmount under way is there from its preparation to its end, and exactly its sweeps take it on, one shard each |
| ClusterTheorems.DeallocateMeans | Mooncake/mooncake-store/src/allocator.cpp:190-207 | giving back a buffer takes its grant and no other, and the free bytes of its allocator grow by its tile; no other allocator changes |
| MonitorRuns.DeadlineStep | Mooncake/mooncake-store/src/master_service.cpp:1023-1045 | one step of any thread: a client has a deadline iff its heartbeat was just taken off the queue, or it had one that was not over; and which one |
| MonitorRuns.BatchStep | Mooncake/mooncake-store/src/master_service.cpp:1033-1102 | one step of any thread: who is in the batch being expired |
| MonitorRuns.OkStep | Mooncake/mooncake-store/src/master_service.cpp:1053-1063 | one step of any thread: a client becomes OK iff it ends a remount, and ceases to be iff its batch begins |
| MonitorRuns.TimedRun | Mooncake/mooncake-store/src/master_service.cpp:1025-1031 | in every reachable state the deadline of a client is its last heartbeat plus the time to live |
| MonitorRuns.ExpiresExactly | Mooncake/mooncake-store/src/master_service.cpp:1033-1045 | in every reachable state the monitor expires exactly the clients with a deadline that were last heard of more than the time to live before |
| MonitorRuns.ExpiredWereSilent | Mooncake/mooncake-store/src/master_service.cpp:1033-1102 | over every run, whoever is in a batch was found silent for longer than the time to live by an earlier search |
| MonitorRuns.HeardStays | Mooncake/mooncake-store/src/master_service.cpp:1025-1045 | over every run, a client whose deadline no search has passed stays known, with no earlier deadline |
| PutRuns.PutInstalls | Mooncake/mooncake-store/src/master_service.cpp:401-469 | whatever runs meanwhile, a successful put installs its object iff the key had no entry; an entry emptied of stale replicas stays and the put's buffers are given back |
| PutWitness.PutInstallsNothing | Mooncake/mooncake-store/src/master_service.cpp:405-469 | a run in which a put gets its buffers and is emplaced, and its key keeps an entry without replicas |
| PutRuns.LockedRun | Mooncake/mooncake-store/src/master_service.cpp:401-409 | no other thread touches the entry of a key whose shard a put has locked |
| PutRuns.PutStartAllocates | Mooncake/mooncake-store/src/master_service.cpp:411-445 | what PutStart builds is what the allocation step of the cluster takes, whenever allocators in service granted it |
| MasterService.Master.constructor | Mooncake/mooncake-store/src/master_service.cpp:16-81 | starts empty with a gauge of zero |
| MasterService.Master.CleanupStaleHandles | Mooncake/mooncake-store/src/master_service.cpp:656-673 | drops exactly the stale replicas, lowers the gauge by their bytes, and says whether none is left |
| MasterService.Master.Open | Mooncake/mooncake-store/include/master_service.h:446-462 | opening an entry drops stale replicas, and the entry when none is left |
| MasterService.Master.ClearInvalidHandles | Mooncake/mooncake-store/src/master_service.cpp:169-182 | shard by shard, does that for every object, and the gauge stays exact |
| MasterService.Master.ClearShard | Mooncake/mooncake-store/src/master_service.cpp:169-182 | one shard of it: exactly the objects of the shard are cleaned |
| MasterService.Master.GrantLease | Mooncake/mooncake-store/include/master_service.h:336-346 | extends the lease of one entry and nothing else; what extending means is ObjectMeanings.ReadMeans |
| MasterService.Master.ExistKey | Mooncake/mooncake-store/src/master_service.cpp:218-238 | true iff a complete replica is left, and then a lease is granted |
| MasterService.Master.GetReplicaList | Mooncake/mooncake-store/src/master_service.cpp:326-359 | the error code, the complete replicas, as often and in the order they are there and no other, and a lease unless garbage collection is on |
| MasterService.Master.PutStart | Mooncake/mooncake-store/src/master_service.cpp:372-470 | the error code for every input, both ways; on success every other entry is as it was, and a key without entry gets one replica per reply, each buffer of its slice with the allocator and node that were granted for it, and a disk replica iff there is a disk; on failure every byte is given back: the gauge is exact in every case |
| MasterService.Master.AllocateReplicas | Mooncake/mooncake-store/src/master_service.cpp:411-445 | succeeds iff every slice of every replica is granted, and then each buffer has the size of its slice and what was granted for it; a failure midway returns all bytes taken |
| MasterService.NewSizesOk | Mooncake/mooncake-store/src/master_service.cpp:411-469 | the buffers of every memory replica it builds add up to the object's size |
| MasterService.Master.PutEnd | Mooncake/mooncake-store/src/master_service.cpp:472-491 | completes exactly the replicas of the type that are being written |
| MasterService.Master.PutRevoke | Mooncake/mooncake-store/src/master_service.cpp:493-513 | the error code; erases exactly the replicas of the type, and the entry when nothing valid is left |
| MasterService.Master.Remove | Mooncake/mooncake-store/src/master_service.cpp:535-558 | the error code; removes only when the lease is over and every replica is complete |
| MasterService.Master.RemoveByRegex | Mooncake/mooncake-store/src/master_service.cpp:560-607 | removes exactly the matching removable objects and counts them |
| MasterService.Master.RemoveAll | Mooncake/mooncake-store/src/master_service.cpp:609-640 | removes exactly the objects whose lease is over, whatever their status; the freed size is the drop of the gauge |
| MasterService.Master.DestroyBuffers | Mooncake/mooncake-store/src/allocator.cpp:12-22 | destroying buffers lowers the gauge by their bytes |
| ObjectOps.LiveExact | Mooncake/mooncake-store/src/master_service.cpp:656-673 | cleaning keeps every replica that is not stale, as often as it was there, and no other |
| ObjectOps.EvictIsStrip | Mooncake/mooncake-store/src/master_service.cpp:859-872 | an eviction step of the cluster does to its entry what a pass of BatchEvict does, and nothing to any other |
| ObjectMeanings.CleanupMeans | Mooncake/mooncake-store/src/master_service.cpp:656-673 | cleaning keeps exactly the usable replicas, as often and in their order, and nothing else changes; some are left iff one is usable |
| ObjectMeanings.AccessMeans | Mooncake/mooncake-store/include/master_service.h:446-462 | opening an entry cleans it and erases it iff no replica is usable; no other entry changes |
| ObjectMeanings.PutCheckMeans | Mooncake/mooncake-store/src/master_service.cpp:401-409 | a put is refused iff its key has a usable replica; an entry without one stays, empty |
| ObjectMeanings.SweepMeans | Mooncake/mooncake-store/src/master_service.cpp:169-182 | one shard of ClearInvalidHandles: which entries go, and what is left of the others |
| ObjectMeanings.ReadMeans | Mooncake/mooncake-store/src/master_service.cpp:218-238 | a read extends the lease, and the soft pin when there is one, to exactly now plus the time to live or to what it was, iff a complete replica is left; with garbage collection GetReplicaList extends nothing |
| ObjectMeanings.PutEndMeans | Mooncake/mooncake-store/src/master_service.cpp:472-491 | replica by replica: complete iff of the type and being written, otherwise as it was; the soft pin is extended as by a read, the lease to now |
| ObjectMeanings.PutRevokeMeans | Mooncake/mooncake-store/src/master_service.cpp:493-513 | each error code iff its reason holds; an accepted revoke leaves exactly the replicas of the other type, and the entry iff there are some and the object has bytes |
| ObjectMeanings.RemoveMeans | Mooncake/mooncake-store/src/master_service.cpp:535-558 | each error code iff its reason holds; an accepted removal takes the entry and no other, a refused one changes nothing |
| ObjectMeanings.RemoveManyMeans | Mooncake/mooncake-store/src/master_service.cpp:560-640 | which entries RemoveByRegex and RemoveAll take, and that the others stay as they are |
| ObjectMeanings.EmplaceMeans | Mooncake/mooncake-store/src/master_service.cpp:463-469 | the put's object is installed iff the key has no entry; no other entry changes |
| ObjectMeanings.EvictsMeans | Mooncake/mooncake-store/src/master_service.cpp:853-982 | when each of the three rules lets an object go, in terms of its lease, pin and replicas |
| ObjectMeanings.EvictMeans | Mooncake/mooncake-store/src/master_service.cpp:859-872 | an evicted entry stays iff it has a disk replica and bytes, and then has exactly its disk replicas; no other entry changes |
| ObjectOps.CleanupHolds | Mooncake/mooncake-store/include/types.h:380-390 | a cleaned object only has buffers of allocators that exist |
| LeaseRuns.LeaseProtects | Mooncake/mooncake-store/src/master_service.cpp:218-238 | in every reachable state a read at time t keeps every complete replica until t + ttl, over every run of all operations, unless its segment goes |
| LeaseRuns.LeaseHolds | Mooncake/mooncake-store/src/master_service.cpp:493-640 | the same for any lease, however it was granted |
| LeaseRuns.StepKept | Mooncake/mooncake-store/src/master_service.cpp:472-640 | one step: nothing takes a complete replica under lease, and only its end, its revoke or a RemoveAll past its lease takes a replica being written to memory |
| LeaseRuns.EvictKeeps | Mooncake/mooncake-store/src/master_service.cpp:853-982 | no eviction pass takes an object under lease or with memory replicas being written |
| LeaseRuns.EvictorRun | Mooncake/mooncake-store/src/master_service.cpp:782-919 | over every run, every lease the eviction thread listed was over when it started, whatever happens between its passes; so its threshold of pass A spares every lease that runs |
| LeaseRuns.WriteHolds | Mooncake/mooncake-store/src/master_service.cpp:535-558 | over every run in which no RemoveAll reaches its shard with a time past its lease, a memory replica being written is not taken by removal or eviction |
| LeaseRuns.PutRevokeExact | Mooncake/mooncake-store/src/master_service.cpp:493-513 | an accepted revoke erases the entry of an object with a complete replica iff the object has no bytes |
| LeaseRuns.RevokeSpares | Mooncake/mooncake-store/src/master_service.cpp:493-513 | in every reachable state objects have bytes, so an accepted revoke leaves an entry with a complete replica |
| PutWitness.RevokeTakesComplete | Mooncake/mooncake-store/src/master_service.cpp:493-513 | an object without bytes whose complete replica an accepted revoke takes |
| LeaseRuns.RemoveAllExactly | Mooncake/mooncake-store/src/master_service.cpp:609-640 | one shard of RemoveAll takes a key iff the key is in that shard and its lease is over at that time; it changes nothing else |
| RunWitness.RemoveAllTakesWrites | Mooncake/mooncake-store/src/master_service.cpp:622-632 | a run at whose end an object being written is there, and one step of RemoveAll takes it |
| LeaseRuns.StatusesUniform | Mooncake/mooncake-store/include/types.h:392-406 | in every reachable state replicas of one key and type share one status, PROCESSING or COMPLETE, the buffers of every memory replica add up to the size of its object, and no object is without bytes |
| LeaseRuns.EvictionFrees | Mooncake/mooncake-store/src/master_service.cpp:859-868 | in every reachable state an eviction lowers the bytes held by exactly the size it counts as freed |
| LeaseRuns.StepForward | Mooncake/mooncake-store/include/master_service.h:323-357 | one step: an entry comes from the entry before it, with statuses only moving from PROCESSING to COMPLETE, or from the put under way |
| LeaseRuns.RunForward | Mooncake/mooncake-store/include/master_service.h:323-357 | over every run in which an entry lasts, its replicas only go or become complete, its size stays, and neither its lease nor its soft pin ends earlier |
| LeaseRuns.PinHolds | Mooncake/mooncake-store/include/master_service.h:336-346 | in every reachable state a read or the end of a put at time t keeps a soft pin until t + soft ttl as long as the entry lasts, over every run of all operations; until then only pass B of an eviction can take it |
| LeaseRuns.EvictLeavesDisk | Mooncake/mooncake-store/src/master_service.cpp:859-872 | in every reachable state an evicted object is still there iff it has a replica on disk, and then has exactly those; no other object changes |
| BatchPut.BatchPut | Mooncake/mooncake-store/src/client.cpp:975-994 | every grant the client learned of is settled exactly once, ended iff everything was delivered and revoked otherwise; the exact result of every operation: what its end was answered, or the error that stopped it, or a failed call, with an already existing object as success |
| BatchPut.WaitedMeans | Mooncake/mooncake-store/src/client.cpp:602-830 | an operation is to be ended iff all transfers were delivered, to be revoked iff it was granted and not delivered |
| BatchPut.WaitedBlames | Mooncake/mooncake-store/src/client.cpp:602-830 | which error an operation that is not ended is left with, and that it is resolved |
| BatchPut.FirstBlame | Mooncake/mooncake-store/src/client.cpp:787-831 | an operation that was submitted whole is blamed for the first of its transfers that failed, in the order of the replicas |
| BatchPut.StartBatchPut | Mooncake/mooncake-store/src/client.cpp:668-714 | each operation takes its answer, or all fail when the number of answers is wrong |
| BatchPut.SubmitTransfers | Mooncake/mooncake-store/src/client.cpp:716-785 | submits memory replicas up to the first failure and skips resolved operations |
| BatchPut.WaitForTransfers | Mooncake/mooncake-store/src/client.cpp:787-831 | waits for all transfers and keeps the first error |
| BatchPut.FinalizeBatchPut | Mooncake/mooncake-store/src/client.cpp:833-943 | ends and revokes exactly the operations that need it, once each, and leaves none unresolved |
| BatchPut.CollectResults | Mooncake/mooncake-store/src/client.cpp:945-973 | for every operation: success when the object exists already, otherwise its result as it is |
| BatchPut.LostAnswers | Mooncake/mooncake-store/src/client.cpp:690-699 | a grant of the master is settled, by an end or a revoke, iff its answer reaches the client; a grant whose answer got lost stays |
| Buddy.SlabAllocator.FindClassId | Mooncake/mooncake-integration/transfer_engine/transfer_engine_py.cpp:151-156 | the smallest class that fits, and -1 iff none does |
| Buddy.SlabAllocator.AddChunk | Mooncake/mooncake-integration/transfer_engine/transfer_engine_py.cpp:159-166 | a new chunk becomes free blocks of the largest class; the tiling of all chunks is kept |
| Buddy.SlabAllocator.DoBuddyAllocate | Mooncake/mooncake-integration/transfer_engine/transfer_engine_py.cpp:158-178 | terminates with a free block of the class, splitting as far up as needed, and asks for a chunk iff no larger block is free; handed-out blocks are untouched |
| Buddy.SlabAllocator.AllocateManagedBuffer | Mooncake/mooncake-integration/transfer_engine/transfer_engine_py.cpp:180-194 | hands out a block of the smallest fitting class that was not handed out, or memory of its own; a chunk is taken from the system iff no free block is large enough |
| Buddy.SlabAllocator.FreeManagedBuffer | Mooncake/mooncake-integration/transfer_engine/transfer_engine_py.cpp:196-208 | takes back exactly that block or large buffer; the blocks go on tiling the chunks iff the length is of the class the block was handed out for |
| Buddy.GiveKeeps | Mooncake/mooncake-integration/transfer_engine/transfer_engine_py.cpp:196-208 | pushing a block on the free list of a class keeps the tiling iff it is its own class |
| Buddy.LayoutDetermined | Mooncake/mooncake-integration/transfer_engine/transfer_engine_py.cpp:158-208 | the free lists and the handed-out blocks determine where every block is, so no other reading of the lists restores the tiling |
| Buddy.SlabAllocator.constructor | Mooncake/mooncake-integration/transfer_engine/transfer_engine_py.cpp:132-132 | starts with no chunk, in order |
| Buddy.HalveKeeps | Mooncake/mooncake-integration/transfer_engine/transfer_engine_py.cpp:168-177 | splitting keeps all blocks disjoint, inside their chunk, of exact class size, and adding up to 2 GB per chunk |
| Buddy.HandedApart | Mooncake/mooncake-integration/transfer_engine/transfer_engine_py.h:35-41 | a handed-out block overlaps no other block, free or handed out, and lies in one chunk |

## Left out

- Which allocator the random strategy picks and how often it retries: any mounted allocator, or none, may answer.
- CacheLib allocators, `SimpleAllocator` and the client's buffer allocator: foreign code or raw memory.
- The alignment checks of CacheLib segments when mounting.
- Leader election and view versions.
- Remote calls, transfers, file and disk storage backends, thread pools, metric formatting, configuration.
- The garbage-collection thread's own queue; its removals are ordinary removals, which respect leases.
- The eviction thread's loop and watermark arithmetic around BatchEvict; rounding of floating-point ratios.
- Regular-expression matching: the matching keys are a parameter.
- `GetReplicaListByRegex`, which neither cleans stale replicas nor grants leases.
- Batched forms of the master's operations, which only loop over the single ones.
- Allocation metrics and histograms of the offset allocator.
- EvictMaster.EvictionMaster.BatchEvict: is about one call without interference; the interleaved form of each eviction is the step `Evict` of the cluster.
- Monitor.ExpireClients: is about one round without interference; the interleaved round is the steps `ExpireBegin` to `JobEnd` of the cluster.
- ClusterTheorems.CapacityNeverExceeded: leaves out runs in which a destructor keeps an allocator alive, because PinnedBufferSurvives shows such a run.
- ClusterTheorems.NothingBehindTheSweep: leaves out allocators that a destructor kept alive during the sweep, for the same reason.
- OffsetCore.Allocator.constructor: supposes an initial capacity of at least one node; with none the source starts from a slot number it never set.
- OffsetAllocators.OffsetAllocator.constructor: supposes the same, and that the region does not run past the end of the address space.
- OffsetCore.Allocator.Free: is called for a block that is in use, as the source asserts.
- Grants.GrantsDisjoint: is about requests without wrap-around at 64 bits; what becomes of the others is stated by FakeSizeMeaning and GrantsSplit.
- MasterService.Master.PutStart: leaves out that the total length could wrap at 64 bits, which takes 2^40 slices.
- Buddy.SlabAllocator.AllocateManagedBuffer: supposes that the system has memory when no free block is large enough; the source does not check.
- Buddy.SlabAllocator.FreeManagedBuffer: supposes that the buffer was handed out, as a block or as large memory as its length says; otherwise the source passes the system memory it did not give.
- The client monitor's endless loop around one round, and its sleeping.
