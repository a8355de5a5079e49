# Pronto in Dafny

Pronto makes ordinary objects persistent: every method call on an object is recorded in a semantic redo log, the heap
the objects live in is snapshotted copy-on-write, and a restart restores the snapshot and replays the log. This project
models the parts that carry this promise and proves it of the model.

| part | files |
|---|---|
| heap: chunks with boundary tags, size-class lists, allocation, coalescing, growing, big chunks, blocks, page bitmap, byte count | `HeapLayout`, `BucketLists`, `FreeListShape`, `AllocSteps`, `FreeSteps`, `ReallocSteps`, `TornSteps`, `FreeSite`, `ReleaseSteps`, `FreeList`, `PageBitmap`, `HeapBits`, `ByteCount`, `BigChunk`, `GlobalAlloc`, `ObjectAlloc` |
| snapshot: freeze gate, copy-on-write, image, restore | `FreezeGate`, `CopyOnWrite`, `CopyProgress`, `PageImage`, `Restore` |
| log: bytes, scan, replay, commit order, end to end | `RedoLog`, `Recover`, `CommitOrder`, `SnapshotReplay`, `GatedRun`, `GatedExact`, `LogReplay`, `HashMap`, `HashMapFile`, `SortVector`, `AbortChains` |
| threads: main thread and persister, recovery of nested calls | `Handshake`, `HandshakeLog`, `NestedRecovery`, `NestedProgress` |
| matching of elements and matchers in the vendored mock library | `Matching` |
| concrete inputs on which the code does not do what it is meant to do | `Departures` |

How to read it. Code that works in place is a class or a method with loops (`FreeList`, `GlobalAlloc`, `PageBitmap`,
`ObjectAlloc`, `RedoLog`, `MaxBipartiteMatchState`, `PersistentVector`); its stores are also functions on memory, and the
lemmas about these functions carry the proof. Protocols between threads are state machines whose steps are single loads,
stores or compare-and-swap operations, and their theorems speak of every run. Heap addresses are counted in 64-byte lines.

The main results:

- `ObjectAllocs.ObjectAlloc.Alloc`, `Dealloc`, `Realloc`, for every size: chunks tile every block with right tags, no two free
  chunks touch, the bucket lists hold exactly the free chunks, a page bit of a block that belongs to a list or to a big chunk is
  set if and only if the page meets a chunk in use, and no operation changes the contents of another chunk in use. Each has its
  exact condition, and where it fails no choice of chunks tiles the blocks, or no shape at all starts at the bucket heads. Blocks
  that a big free with a truncated size leaves behind belong to nobody, and their bits stay set.
- `Restores.SnapshotRestoresHeap`, `Restart`: whatever workers, fault handlers and writers do, the restored list has the frozen
  shape and contents if and only if each of its blocks held a chunk in use, and no shape otherwise; the release of free blocks
  that ends the restart finds none in either case. `CopyProgress.RunsEnd`, `CopyOnWrites.WritesArrive`: the copying ends
  and loses no write. `FreezeGates.FreezeComes`, `ReleaseOpens`: the freeze can always be reached, and its release frees everyone.
- `GatedRuns.GatedRestore`: for every run of the freeze gate and the calls, every freeze and every crash, when snapshot plus log
  suffix gives the state that a replay of the whole log gives. `GatedExact.FreezeExact`: a freeze is safe against every
  continuation if and only if no commit is outstanding. `LogReplays.FileRestore`, `FileEndToEnd`: the first of these from the
  bytes of a log file whose torn ranges spare the ids played, and `HashMapFiles.MapFileEndToEnd` from those bytes to the hash map.
- `Recoveries.LogRoundTrip`, `Recover`; `AbortChains.AnalysisAgrees`: what the two scans of the log find, with torn and tight
  entries in any order, what recovery plays, and when they agree.
- `Handshakes.HandshakeSafe`, `AnswerArrives`, `HandshakeLogs.CommitExact`, `LogRecordsCalls` for every interleaving of the
  loads: which calls the log records, how, and which of them are committed; `InBoundsExact`, `WaitExact`: at which depths of
  nesting the persister stays inside its buffer.
- `NestedRecoveries.RunsAtMatchingEntry`, `WrongExact`; `NestedProgress.RecoveryCompletes`, `RunsEnd`: when recovery of nested
  calls is safe, that it ends, and when it can complete.
- `Matchings.MaxBipartiteMatchState.Compute`, `FindPairing`: the matching is maximum although each element is searched once.

Where the code does not do what it is meant to do, the model does what the code does, with a concrete input that shows it
and the exact condition under which the intended property holds:

| departure | input | condition |
|---|---|---|
| a split reads the size of the remainder before it is set | `FreeLists.StaleSizeExample` | `FreeLists.FreeList.Alloc`, `Realloc` |
| growing in place leaves the byte count alone | `Departures.CountUnderflow` | `ByteCounts.CountRight`, `FreeUnderflows` |
| sizes of big chunks have 29 bits | `Departures.BigLost`, `BigTakenForSmall` | `BigChunks.BigBlocksBack`, `ObjectAllocs.ObjectAlloc.Dealloc`, `Realloc` |
| so have sizes of free regions | `Departures.MapLeak`, `ReleaseLeak` | `GlobalAllocator.GlobalAlloc.Alloc`, `Release` |
| the saved table has room for sixteen free regions | `Departures.RegionLost` | `GlobalAllocator.GlobalAlloc.SaveAndLoad` |
| a wholly free block is neither saved nor restored nor released | `Departures.LineFreed`, `FreeBlockLost` | `Restores.RestoredHeap`, `Restart` |
| the scan steps one line too far after an entry without padding, and gives the entry after a torn one the commit id zero | `Recoveries.TightExample`, `AbortChains.TornFirstExample` | `Recoveries.ScanExact`, `AbortChains.AnalysisAgrees` |
| a transaction counts down before its commit is written, so that a freeze can lose a later commit | `GatedRuns.LostThroughGate` | `GatedRuns.GatedRestore`, `GatedExact.FreezeExact` |
| the persister loads the number of active transactions up to three times in a turn | `Handshakes.OvershootsByOne`, `Overshoots` | `Handshakes.InBoundsExact`, `WaitExact` |
| a recovering child stores the parent it waits for before the commit id | `NestedProgress.ConfusedExample` | `NestedRecoveries.GateExact`, `WrongExact` |
| recovery can wait for ever when logs disagree about the order of the outermost transactions | `NestedProgress.InvertedOrderStuck`, `CrossedOrderStuck` | `NestedProgress.RecoveryCompletes` |

Taken as given: memory is sequentially consistent and a store is durable at its persist call; memory protection, copies
and file mapping do what they say, and newly mapped memory is zero; there is one snapshot per run and a fixed set of
registered threads; the log analysis finds no match in an empty heap, where the source looks at the top of it. The thread
hash, the number of bytes asked for, which thread runs next and what the application writes are parameters.

## Model

| member | source | states |
|---|---|---|
| HeapLayout.BucketSmallest | src/ckpt_alloc.cpp:684-688 | the bucket of a size is the first whose cap is at least the size |
| HeapLayout.CapsDouble | src/ckpt_alloc.cpp:637-645 | cap `b` is two to the power `b`, in lines |
| HeapLayout.BucketKept | src/ckpt_alloc.cpp:723-738 | a chunk cut down to more than the previous cap stays in its bucket |
| HeapLayout.ChunksDisjoint | src/ckpt_alloc.cpp:698-708 | right boundary tags imply that chunks of a block do not overlap |
| HeapLayout.TilingPartitions | src/ckpt_alloc.cpp:698-708 | right boundary tags imply that each line of a block is in exactly one chunk |
| HeapLayout.SplitTiled | src/ckpt_alloc.cpp:723-757 | splitting a chunk keeps all tags right, with one more chunk |
| HeapLayout.MergeTiled | src/ckpt_alloc.cpp:826-852 | merging a chunk into its predecessor keeps all tags right, with one chunk less |
| BucketLists.UnlinkThreaded | src/ckpt_alloc.cpp:814-818 | unlinking removes just that chunk from its doubly linked list and keeps all others |
| BucketLists.PushThreaded | src/ckpt_alloc.cpp:887-894 | pushing puts the chunk in front of the list of its size class and keeps all others |
| FreeListShape.SplitStep | src/ckpt_alloc.cpp:723-757 | the whole free-list invariant survives a split, up to the chunk that is off the lists |
| FreeListShape.MergeStep | src/ckpt_alloc.cpp:826-852 | the whole free-list invariant survives a merge, up to the chunk that is off the lists |
| FreeListShape.PushStep | src/ckpt_alloc.cpp:887-894 | listing the one missing chunk restores the whole invariant if both its neighbours are in use |
| AllocSteps.HeadOutcome | src/ckpt_alloc.cpp:739-759 | using the start of a free chunk restores the invariant exactly when the stale size word gives the right last bit; otherwise the tags are torn |
| AllocSteps.TornNoTiling | src/ckpt_alloc.cpp:746-752 | with torn tags no set of chunk starts tiles the blocks |
| AllocSteps.HeadElsewhere | src/ckpt_alloc.cpp:750-755 | in other blocks a split writes one word at most, the offset in the first header of the next block, when the rest ends its block and is not marked so |
| AllocSteps.AllocatedMeans | src/ckpt_alloc.cpp:773-812 | one more chunk in use, disjoint from all others, whose contents are unchanged |
| FreeSteps.FreedMeans | src/ckpt_alloc.cpp:860-885 | one chunk in use less, and the contents of all others are unchanged |
| FreeSteps.MergingFinish | src/ckpt_alloc.cpp:820-894 | free, merge with both neighbours, list again: the invariant holds |
| FreeSites.StrayNoShape | src/ckpt_alloc.cpp:860-866 | a bucket head that starts a block with the last bit set and has not the size of the block leaves no choice of blocks, chunks and lists with a shape |
| ReallocSteps.ExtendedMeans | src/ckpt_alloc.cpp:911-933 | the chunk has grown over its free neighbour; its contents and all others stay |
| ReallocSteps.SplitUpOutcome | src/ckpt_alloc.cpp:916-923 | the copied and corrected header of the remainder restores the invariant |
| ReallocSteps.AbsorbOutcome | src/ckpt_alloc.cpp:924-928 | absorbing the whole neighbour restores the invariant |
| FreeLists.FreeList.FindBucket | src/ckpt_alloc.cpp:684-688 | the loop computes the bucket function |
| FreeLists.FreeList.RemoveChunkFromBuckets | src/ckpt_alloc.cpp:814-818 | memory, bucket heads and lists after the unlink |
| FreeLists.FreeList.AddFreeChunk | src/ckpt_alloc.cpp:887-894 | memory, bucket heads and lists after the push |
| FreeLists.FreeList.Search | src/ckpt_alloc.cpp:719-764 | first fit from the bucket of the size upwards; nothing found means every list searched is too small |
| FreeLists.FreeList.FindFit | src/ckpt_alloc.cpp:710-771 | a free chunk that is large enough, or none of the free chunks is |
| FreeLists.FirstFitFirst | src/ckpt_alloc.cpp:719-764 | what the search stops at is large enough, and every chunk searched before it, in its list or in one of a smaller class, is too small |
| FreeLists.KeepsBucketMeans | src/ckpt_alloc.cpp:723-724 | a chunk is cut at its end exactly if something is left and the rest is in the bucket the chunk is in |
| FreeLists.FreeList.CarveTail | src/ckpt_alloc.cpp:723-738 | cutting the tail off a chunk that stays in its bucket allocates it, just these last lines of the chunk |
| FreeLists.FreeList.CarveHead | src/ckpt_alloc.cpp:739-759 | using the head and listing the rest allocates it, exactly when the stale size is harmless; otherwise the tags are torn |
| FreeLists.FreeList.AllocFresh | src/ckpt_alloc.cpp:779-809 | a fresh block is split into the chunk and a listed remainder |
| FreeLists.FreeList.Alloc | src/ckpt_alloc.cpp:773-812 | the invariant holds again, with one more chunk in use, exactly when the split is safe, and otherwise no tiling exists; the new chunk is the end of the first chunk found that is large enough if its rest stays in its bucket, the start of it otherwise, and the start of a block of its own, taken only then, if none is; the byte count goes up by the size |
| FreeLists.StaleSizeExample | src/ckpt_alloc.cpp:746-752 | one line, then 30000 lines from an empty list is a split that is not safe |
| FreeLists.FreeList.FreeAndCoalesce | src/ckpt_alloc.cpp:820-858 | the chunk is free and merged with free neighbours, in a whole heap, in a torn one, and for a chunk of no list |
| FreeLists.FreeList.Dealloc | src/ckpt_alloc.cpp:860-885 | the chunk is freed, its trimmed page range cleared, the byte count lowered as a word |
| FreeLists.FreeList.DeallocMarked | src/ckpt_alloc.cpp:860-885 | page bits and byte count stay right for a chunk of the list; a chunk of no list is taken over exactly when it has the size of a block, and otherwise the list has no shape left |
| FreeLists.FreeList.AllocMarked | src/ckpt_alloc.cpp:505-513 | allocation and marking give a valid list with exact page bits and byte count, exactly when the split is safe; otherwise no tiling exists |
| FreeLists.FreeList.Move | src/ckpt_alloc.cpp:901-910 | allocate, copy, free, mark: all is well exactly when the split is safe; otherwise, after the free too, no tiling exists; and a chunk of no list leaves the list without shape |
| FreeLists.FreeList.Realloc | src/ckpt_alloc.cpp:896-936 | contents kept, size reached, all other chunks and their contents kept, page bits exact, exactly unless the chunk moves by an unsafe split; the byte count misses just the lines gained in place |
| FreeLists.StaysExactly | src/ckpt_alloc.cpp:899-911 | the chunk stays in place if and only if it is large enough, or the next chunk of the tiling is free and has the missing lines, be it just these |
| FreeLists.FreeList.BigAlloc | src/ckpt_alloc.cpp:938-954 | whole fresh blocks, header with the stored size, pages marked; the global allocator is valid exactly if the blocks fit a free region or the rest of a new one fits its field |
| FreeLists.FreeList.BigDealloc | src/ckpt_alloc.cpp:956-963 | the blocks that the header size stands for go back, with their bits cleared; the global allocator is valid exactly if the merged run fits its field |
| BigChunks.BigBlocksBack | src/ckpt_alloc.cpp:938-963 | a big chunk gives back the blocks it took if and only if its size fits 29 bits |
| Departures.BigLost | src/ckpt_alloc.cpp:938-963 | a chunk of 258 blocks gives back two |
| Departures.BigTakenForSmall | src/ckpt_alloc.cpp:531-540 | from a new heap: a chunk of 256 blocks and 100 lines is freed as one of 100 lines, and the list has no shape left |
| BigChunks.BigBitsBack | src/ckpt_alloc.cpp:223-247 | marking a big chunk and clearing its blocks restores the bitmap |
| ByteCounts.MoveCounts | src/ckpt_alloc.cpp:902-906 | a move keeps: the count is what the chunks hold without the lines gained in place, as a 64-bit word |
| ByteCounts.GrowCounts | src/ckpt_alloc.cpp:930-932 | growing in place keeps it by adding to those lines, the count unchanged |
| ByteCounts.CountRight | src/ckpt_alloc.cpp:870 | the count is what the chunks hold if and only if the lines gained in place come to nothing |
| ByteCounts.FreeUnderflows | src/ckpt_alloc.cpp:867-870 | the assertion before the subtraction holds if and only if the other chunks hold at least the lines gained in place |
| Departures.CountUnderflow | src/ckpt_alloc.cpp:867-870 | from a new heap: allocate a line, grow it in place, free it, and the count wraps |
| PageBitmaps.PageBitmap.SetBitmap | src/ckpt_alloc.cpp:191-206 | sets the bits of just the pages the range meets |
| PageBitmaps.PageBitmap.UnsetBitmap | src/ckpt_alloc.cpp:208-221 | clears the bits of just the pages the range meets |
| PageBitmaps.PageBitmap.SetBitmapForBigAlloc | src/ckpt_alloc.cpp:223-236 | the cell-at-a-time path sets the same bits as the page-at-a-time path |
| PageBitmaps.PageBitmap.UnsetBitmapForBigDealloc | src/ckpt_alloc.cpp:238-247 | clears the bits of just the pages of these blocks |
| HeapBits.ClearedInside | src/ckpt_alloc.cpp:869-885 | the trimmed bounds are ordered, lie inside the merged chunk, and take in every page of the freed chunk that is wholly free |
| HeapBits.FreeBits | src/ckpt_alloc.cpp:860-885 | trimmed clearing keeps the bitmap exact |
| HeapBits.GrowBits | src/ckpt_alloc.cpp:930-932 | marking the lines gained keeps the bitmap exact |
| HeapBits.MarkBits | src/ckpt_alloc.cpp:506-512 | marking the new chunk makes the bitmap exact |
| ObjectAllocs.Lines | src/ckpt_alloc.cpp:497-500 | header added and rounded up to whole lines |
| ObjectAllocs.Widths | src/ckpt_alloc.hpp:30 | the sizes in lines and blocks are those of the source in bytes: blocks of 2 MB, 29-bit size fields, 64-bit counter, 4 KB pages |
| ObjectAllocs.ListFrame | src/ckpt_alloc.cpp:495-540 | work of one list leaves every other list, its chunks in use, their contents and bits alone |
| ObjectAllocs.ObjectAlloc.AllocSmall | src/ckpt_alloc.cpp:506-513 | exactly when the split is safe: a fresh chunk of the right size, all lists and big chunks valid with exact page bits, all contents kept; otherwise no tiling of the list exists |
| ObjectAllocs.ObjectAlloc.AllocBig | src/ckpt_alloc.cpp:514-521 | fresh blocks, all contents kept; all lists and big chunks valid with exact page bits exactly when the blocks fit a free region or the rest of a new one fits its field |
| ObjectAllocs.ObjectAlloc.Alloc | src/ckpt_alloc.cpp:495-525 | both of these, by the size in lines |
| ObjectAllocs.ObjectAlloc.Dealloc | src/ckpt_alloc.cpp:531-540 | null is ignored; a chunk of a list is freed with all lists and big chunks valid, page bits exact, contents kept; a big chunk goes where its 29-bit size field sends it, all is valid exactly if the field holds a block, or more and the merged run fits, and all its blocks come back exactly if its size fits 29 bits |
| ObjectAllocs.ObjectAlloc.Realloc | src/ckpt_alloc.cpp:542-560 | null and sizes above a block are refused; a chunk that is large enough stays; otherwise old contents in a chunk that is large enough and all lists valid with exact page bits, exactly unless it moves by an unsafe split, and then no tiling of the list exists; a big chunk whose size field holds less than the request moves like a small one and leaves the list in its header without shape, or crashes the copy if the field is zero |
| GlobalAllocator.GlobalAlloc.Alloc | src/ckpt_alloc.cpp:89-136 | fresh blocks, the last ones of the first free region that is large enough or else of a new one at the end of memory; free and handed-out blocks still partition the mapped ones exactly when the remainder of a new region fits its field |
| GlobalAllocator.GrownWhole | src/ckpt_alloc.cpp:111-119 | the pool size doubled to fit a request is a whole number of pools, so the mapped extent always is |
| GlobalAllocator.GrownLeast | src/ckpt_alloc.cpp:111-119 | and it is the first of the doublings that is large enough |
| Departures.MapLeak | src/ckpt_alloc.cpp:124-131 | 513 blocks from a new allocator: blocks of the new region are lost |
| GlobalAllocator.GlobalAlloc.TryMergingRegions | src/ckpt_alloc.cpp:138-177 | terminates with an entry that has no free neighbour |
| GlobalAllocator.GlobalAlloc.Release | src/ckpt_alloc.cpp:179-189 | the maximal free run around the blocks is one entry, exactly when it fits the field; otherwise blocks are lost |
| Departures.ReleaseLeak | src/ckpt_alloc.cpp:179-189 | 200 blocks taken from a new allocator and given back: blocks are lost |
| GlobalAllocator.GlobalAlloc.Save | src/ckpt_alloc.cpp:308-330 | the words written, the extent being added up over the regions |
| GlobalAllocator.Load | src/ckpt_alloc.cpp:332-373 | the extent and the regions the words stand for |
| GlobalAllocator.GlobalAlloc.SaveAndLoad | src/ckpt_alloc.cpp:299-373 | the same extent, a whole number of pools, and the same free list exactly when the object tables leave entries beyond the sixteenth alone; always for at most sixteen |
| GlobalAllocator.TablesWhole | src/snapshot.cpp:240-262 | the object tables, written last, are whole and where they are looked for, whatever the allocator needed |
| Departures.RegionLost | src/ckpt_alloc.cpp:308-330 | of seventeen free regions the last is overwritten by the first word of an object table |
| PageImages.EightZeroUnused | src/snapshot.cpp:519-528 | eight zero cells mean that no page of the block is marked |
| PageImages.CopyBlock | src/snapshot.cpp:384-402 | marked pages are copied whole, of the others the first line, and nothing else |
| PageImages.RestoreWorker | src/snapshot.cpp:506-546 | the used blocks of the share are restored from the image, all else is untouched |
| PageImages.RestoreAll | src/snapshot.cpp:548-580 | all shares together restore the largest multiple of four blocks, which is all of them when whole pools are mapped |
| Restores.HeaderPageMarked | src/snapshot.cpp:386-399 | every chunk header and free-list link is in a saved line, because free chunks are never adjacent |
| Restores.PayloadMarked | src/snapshot.cpp:386-399 | every line of a chunk in use is in a saved line |
| Restores.RestoredHeap | src/snapshot.cpp:506-546 | the restored list satisfies its whole invariant if and only if no block of it was wholly free, and otherwise no choice of blocks, chunks and lists gives it a shape; contents in use come back in any case |
| Restores.RestoredWalk | src/ckpt_alloc.cpp:1084-1099 | in restored memory the last bucket leads to its end or to the first lost header, and no chunk on the way is a whole block |
| FreeLists.FreeList.ReleaseFreeBlocks | src/ckpt_alloc.cpp:1084-1099 | a well-shaped list loses exactly its wholly free blocks, each handed over once, and stays well shaped with all contents; on a path without such blocks nothing changes |
| Departures.LineFreed | src/ckpt_alloc.cpp:860-885 | from a new heap: allocate a line and free it, and the block of the list is wholly free |
| Departures.FreeBlockLost | src/snapshot.cpp:506-546 | such a list has no shape in the restored memory |
| Restores.SnapshotRestoresHeap | src/snapshot.cpp:124-170 | from freeze to restored memory, for every interleaving: the frozen shape and contents if and only if each block held a chunk in use, no shape otherwise |
| Restores.Restart | src/snapshot.cpp:612-625 | to the end of the restart: the release of free blocks finds none and changes nothing |
| CopyOnWrites.MarkPagesReadOnly | src/snapshot.cpp:268-306 | a block is marked used and protected if and only if one of its pages is marked |
| CopyOnWrites.NextInv | src/snapshot.cpp:172-213 | each step of workers, fault handlers and writers keeps protected blocks as frozen and the image right as far as copied |
| CopyOnWrites.FinishSucceeds | src/snapshot.cpp:210-213 | the second compare-and-swap of a copying thread always finds its lock |
| CopyOnWrites.SnapshotIsFrozenMemory | src/snapshot.cpp:117-170 | at the end every block used at the freeze was taken exactly once, is saved and writable, and its image is the frozen memory on all saved lines |
| CopyOnWrites.WritesArrive | src/snapshot.cpp:172-213 | copying loses no write: at any point memory has the last write to each line, and frozen contents where there was none |
| CopyOnWrites.ImageOnlyFrozen | src/snapshot.cpp:172-213 | nothing but frozen contents of lines to be saved comes into the image |
| CopyOnWrites.HandlerOpens | src/snapshot.cpp:172-213 | when a handler returns, having copied or having waited, the store that faulted can go on |
| CopyOnWrites.NeverStuck | src/snapshot.cpp:117-122 | until then some worker, handler or the final scan can move |
| CopyProgress.StepFalls | src/snapshot.cpp:172-213 | every step but an application write lowers the measure, faults included; a write leaves it |
| CopyProgress.RunsEnd | src/snapshot.cpp:117-170 | in every run workers, handlers and the scan take no more steps than the measure of its start |
| CopyProgress.EndsComplete | src/snapshot.cpp:117-122 | a run in which none of them can move any more is a complete snapshot |
| FreezeGates.NextInv | src/thread.cpp:296-315 | each step keeps: all locks set from the scan on, no thread seen inactive comes past the gate |
| FreezeGates.NoneRunsWhileFrozen | src/snapshot.cpp:215-238 | from the end of the scan to the release no thread is past the gate |
| FreezeGates.HeldUntilRelease | src/thread.cpp:303-315 | a thread held back goes on only after the release |
| FreezeGates.ReleaseOpens | src/thread.cpp:303-315 | once the release is over, every thread held back can go on, and no check holds another one back |
| FreezeGates.FreezeComes | src/snapshot.cpp:223-238 | every run that has come to the wait for running transactions has a continuation that ends in the freeze |
| FreezeGates.ReleaseComes | src/snapshot.cpp:422-430 | from the freeze on the release can run to its end, and then every lock is clear |
| FreezeGates.FlickerExample | src/thread.cpp:296-305 | the active count can be one while frozen |
| GatedRuns.NoneCommitting | src/snapshot.cpp:222-238 | while frozen, no thread is between its count-down and its commit if and only if every logged entry has its commit id stored |
| FreezeGates.CommitWhileFrozenExample | src/thread.cpp:351 | a commit can be outstanding while frozen |
| RedoLogs.WordValue | src/nv_log.cpp:88-97 | a stored word is read back |
| RedoLogs.OffsetsIncrease | src/nv_log.cpp:86-87 | reserved ranges never overlap |
| RedoLogs.RedoLog.Reserve | src/nv_log.cpp:76-87 | the next range of whole lines, all other ranges as they were |
| RedoLogs.RedoLog.Append | src/nv_log.cpp:76-101 | the uncommitted entry is the last one, and no byte before it has changed |
| RedoLogs.RedoLog.Commit | src/nv_log.cpp:103-111 | the next commit id is in this entry, all others are as they were |
| Recoveries.ScanFinds | src/nv_object.cpp:131-167 | what the scan finds of any mixture of filled and torn ranges |
| Recoveries.ScanSound | src/nv_object.cpp:131-167 | whatever the file holds, all that the scan finds is in it, tag behind magic word, with its own commit id or none |
| Recoveries.FindMagicFirst | src/nv_object.cpp:142-147 | the search over a torn entry finds the first line that has the magic word |
| Recoveries.NestedParses | src/nv_object.cpp:157-164 | a nested entry has 16 bytes of arguments, whatever the dry run of the object would say |
| Recoveries.ScanExact | src/nv_object.cpp:131-167 | the scan finds exactly the entries with their commit ids if and only if none directly follows one without padding and every torn range is stepped over, or followed by another or by an uncommitted entry |
| Recoveries.TightExample | src/nv_object.cpp:165-167 | of two one-line entries, the first without padding, the scan finds the first only |
| Recoveries.TornEntries | src/nv_object.cpp:141-149 | all commit ids are seen if and only if no committed entry follows a torn one and the log does not end torn, but for torn lines stepped over |
| Recoveries.LogRoundTrip | src/nv_object.cpp:110-167 | append, then scan, with torn reservations in between: entries, ids and tags come back, exactly under these conditions; of a nested entry only its 16 bytes are asked, of another one that its dry run gives its length |
| Recoveries.TornRun | src/nv_object.cpp:141-149 | the run of ids ends where that of the ids in the log does if and only if no entry behind a torn one has an id of it |
| Recoveries.PushSorted | src/nv_object.cpp:72-74 | the priority queue gives the smallest id first |
| Recoveries.RunEndLongest | src/nv_object.cpp:169-204 | the run of ids that is played is the longest one without gap |
| Recoveries.Recover | src/nv_object.cpp:110-207 | exactly the longest gap-free run after the last played id is played, ascending, each id once; the queue is empty at the end if and only if no id lies beyond a gap |
| CommitOrders.NextInv | src/thread.cpp:332-351 | each step keeps: live state is the replay in id order followed by what waits for an id |
| CommitOrders.LiveIsReplay | src/nv_log.cpp:103-111 | whenever nothing applied waits for its id, the live state is the replay in commit order |
| SnapshotReplays.RestoreExact | src/snapshot.cpp:582-636 | recovery reflects exactly the entries that a replay from the log head plays if and only if none in the snapshot is missing there and no entry before the saved tail got its id before one behind it |
| SnapshotReplays.FrozenEntries | src/snapshot.cpp:255-257 | at a freeze the entries before the saved tail are exactly those whose operations the live state is the replay of |
| SnapshotReplays.RestoredState | src/snapshot.cpp:582-636 | and then it ends in the same state, although calls applied at the freeze have their ids in another order |
| SnapshotReplays.EndToEnd | src/snapshot.cpp:582-636 | in particular when at the freeze no applied call waits for an id and the ids assigned by then are stored at the crash; and it is the live state if no call is under way |
| SnapshotReplays.LaterCommitLost | src/thread.cpp:347-351 | a call applied without id at the freeze makes every later logged and later committed entry that is played from the head missing from the recovered state |
| SnapshotReplays.LostCommitExample | src/thread.cpp:347-351 | a run in which a durable commit is lost so |
| GatedRuns.MovedAgrees | src/thread.cpp:296-351 | each move of gate and calls keeps the phase of every call in line with the place of its thread |
| GatedRuns.FrozenAtFreeze | src/snapshot.cpp:222-238 | what the gate establishes: while frozen every call under way is applied and logged |
| GatedRuns.GatedRestore | src/snapshot.cpp:582-636 | for every run, every frozen point and every later crash: the exact condition, and the same state under it |
| GatedRuns.GatedEndToEnd | src/snapshot.cpp:582-636 | a freeze with no commit outstanding loses nothing, whatever happens until the crash |
| GatedExact.FreezeExact | src/snapshot.cpp:222-238 | at a freeze no commit is outstanding if and only if recovery reflects just what a replay from the head plays, for every crash of every continuation |
| GatedRuns.LostThroughGate | src/thread.cpp:347-351 | one run of gate and calls from the freeze to the lost commit: recovery ends with 1, the live state and a replay have 3 |
| GatedRuns.AppliedAtFreezeExample | src/thread.cpp:351 | the gate can freeze with a call applied and without commit id |
| LogReplays.SlotIds | src/nv_log.cpp:103-111 | the ids in the file from a slot on are the stored ids of the entries from there on |
| LogReplays.RecoveryReplays | src/nv_object.cpp:131-204 | what recovery plays of the scanned file is the replay of the end-to-end property if and only if no entry behind a torn one has an id of the run |
| LogReplays.PlaysArgs | src/nv_object.cpp:150-167 | where a played record points the file holds the arguments of the operation |
| LogReplays.FileRestore | src/snapshot.cpp:582-636 | from the saved file offset and the bytes of the log file, for every freeze and every crash: the exact condition, and the same state under it |
| LogReplays.FileEndToEnd | src/snapshot.cpp:582-636 | with no commit outstanding at the freeze the same state, and the live one if no call is under way |
| HashMaps.ArgsRoundTrip | benchmark/persistent/hash_map.hpp:121-164 | playing a logged insert finds the logged key and value |
| HashMaps.InsertParses | benchmark/persistent/hash_map.hpp:145-164 | the dry run gives the length of the logged arguments, whatever follows them |
| HashMaps.InsertsCommute | benchmark/persistent/hash_map.hpp:80-91 | inserts into different buckets commute |
| HashMaps.InsertAdds | benchmark/persistent/hash_map.hpp:80-91 | an insert adds its own pair, once, to the bucket of its key, and leaves all else alone |
| HashMaps.ReplayElements | benchmark/persistent/hash_map.hpp:80-91 | a replay adds just the pairs inserted, each as often as it was, and keeps each in the bucket of its key |
| HashMaps.HashMapReplay | benchmark/persistent/hash_map.hpp:80-91 | for every interleaving of inserts the live map is the replay in commit order; it holds just the pairs inserted, each in the bucket of its key |
| HashMaps.HashMapEndToEnd | benchmark/persistent/hash_map.hpp:80-91 | the end-to-end property for the hash map, for every run of gate and inserts |
| HashMapFiles.InsertsRead | benchmark/persistent/hash_map.hpp:145-164 | what is played from the bytes of the file are the logged inserts |
| HashMapFiles.MapFileEndToEnd | benchmark/persistent/hash_map.hpp:121-164 | the end-to-end property from the strings in the log file to the map, which holds just the pairs played, each in the bucket of its key |
| SortVectors.PersistentVector.Exchange | benchmark/sort-vector.cpp:45-55 | the two elements are exchanged and the swap is logged |
| SortVectors.PersistentVector.Partition | benchmark/sort-vector.cpp:146-157 | elements at most the pivot in front of it, the others behind it; the vector is the replay of the logged swaps, all of them inside the range |
| SortVectors.PersistentVector.QuickSort | benchmark/sort-vector.cpp:159-173 | all swaps stay in the slice, which is reordered, and sorted if and only if its elements are pairwise comparable; replaying the logged swaps on the old vector gives the new one |
| SortVectors.OneWordSorted | benchmark/sort-vector.cpp:25-30 | for elements of one word any two compare, and sorted means ascending |
| SortVectors.SliceSwaps | benchmark/sort-vector.cpp:175-184 | a thread that sorts one slice swaps within this slice only |
| SortVectors.SwapsCommute | benchmark/sort-vector.cpp:45-55 | swaps in different slices commute |
| SortVectors.VectorReplay | benchmark/sort-vector.cpp:45-55 | for every interleaving of sorting threads the live vector is the replay in commit order |
| SortVectors.SlicesApart | benchmark/sort-vector.cpp:175-184 | and each slice is what its own swaps, in commit order, make of it, as if its thread had been alone |
| AbortChains.WalkUp | src/nvm_manager.cpp:270-314 | the walk ends at the outermost ancestor and collects the chain |
| AbortChains.ChainLinks | src/nvm_manager.cpp:276-310 | a chain runs from the outermost ancestor to the entry, each member the parent of the next |
| AbortChains.BuildAbortChains | src/nvm_manager.cpp:199-319 | chains come out exactly for the committed nested entries with an uncommitted outermost ancestor, in log order; the maximum is the end of the gap-free run of the ids found |
| AbortChains.LineScanFinds | src/nvm_manager.cpp:207-247 | the analysis finds every entry with its own commit id, also behind torn ones, when none but the last is tight |
| AbortChains.LineSound | src/nvm_manager.cpp:207-247 | whatever the file holds, all that the analysis finds is in it, with its own commit id |
| AbortChains.AnalysisAgrees | src/nvm_manager.cpp:209-229 | on the bytes of a log file: the analysis finds every entry with its own id, and recovery stops at the maximum of the analysis if and only if no entry behind a torn one has an id of that run |
| AbortChains.TornFirstExample | src/nvm_manager.cpp:218-221 | a torn entry before the first committed one: the analysis counts to 1, recovery plays nothing |
| Handshakes.NextInv | src/persister.cpp:33-98 | each load and store of main thread and persister keeps the handshake invariant |
| Handshakes.HandshakeSafe | src/thread.cpp:290-351 | no transaction is logged twice; a nested entry carries its parent's real offset and object; a commit goes to the transaction's own entry |
| Handshakes.ClosedHasEntry | src/thread.cpp:347-351 | a transaction is closed only with its entry in the log |
| HandshakeLogs.CommitMarks | src/thread.cpp:351 | a commit marks the entry of the transaction being closed, and no other |
| HandshakeLogs.CommitExact | src/thread.cpp:347-351 | in every run an entry is committed if and only if its transaction is neither open nor being closed, and every finished transaction has an entry |
| HandshakeLogs.LogRecordsCalls | src/persister.cpp:56-85 | in every run each entry records the object that was notified, and the tag that was published or an earlier entry of the parent and its object |
| Handshakes.StepActive | src/persister.cpp:37-44 | how far each load can take the persister above the depth of nesting |
| Handshakes.InBoundsExact | src/persister.cpp:37-44 | the persister stays inside its buffer in all runs if and only if transactions nest at most 13 deep |
| Handshakes.WaitExact | src/persister.cpp:37-44 | and if and only if they do so can it move whenever the main thread waits for it |
| Handshakes.OvershootsByOne | src/persister.cpp:38-43 | two loads find `d` transactions, the third none: its place is `d`, outside the buffer for 15 |
| Handshakes.Overshoots | src/thread.cpp:303-313 | a further turn around the gate takes it to `d + 1`, outside the buffer for 14, with the main thread left waiting |
| Handshakes.PersisterCanMove | src/persister.cpp:35-64 | the persister is never stuck while the main thread spins |
| Handshakes.PersisterProgress | src/persister.cpp:35-64 | each of its steps lowers the measure |
| Handshakes.AnswerArrives | src/persister.cpp:35-98 | within that many of its own steps the call the main thread waits for is logged |
| Handshakes.TurnExact | src/persister.cpp:28-44 | a turn that the main thread does not disturb takes the place of the persister where the comment in the source says: to the first slot without transactions, otherwise one towards the innermost |
| Handshakes.PersisterSettles | src/persister.cpp:28-44 | while no call comes, the persister walks to the slot of the innermost transaction and stays, changing nothing else |
| NestedRecoveries.GateExact | src/nv_object.hpp:63-82 | a call that gets through the gate finds its child at the matching entry, exactly unless the child is between its two stores and its stale id is a smaller one of the same parent still to come |
| NestedRecoveries.GateMatches | src/nv_object.hpp:63-82 | so with unconfused logs it always does |
| NestedRecoveries.NextInv | src/nv_object.cpp:170-203 | each step of the recovery threads keeps the invariant, but a call that gets through to a confused child |
| NestedRecoveries.RunsAtMatchingEntry | src/thread.cpp:278-287 | at any depth, until such a call, a method runs on another thread only while its object sits at the nested entry of the call, all earlier entries played |
| NestedRecoveries.WrongExact | src/nv_object.hpp:63-82 | in every run of logs that match each other, a method runs at a wrong entry if and only if such a call has been made before |
| NestedRecoveries.ParentFirst | src/nv_object.cpp:190-199 | no object goes past a nested entry before its parent has |
| NestedProgress.InvertedOrderStuck | src/nv_object.cpp:186-193 | when two calls of one parent committed in the child in another order than in the parent, both threads can wait for ever |
| NestedProgress.CrossedOrderStuck | src/nv_object.cpp:186-193 | so can two objects that called each other, although each log follows its parents |
| NestedProgress.CrossedUnranked | src/nv_object.cpp:186-193 | the logs of such objects follow no single order of the outermost transactions |
| NestedProgress.ConfusedExample | src/nv_object.hpp:63-66 | logs that match each other and a run in which a method runs at a wrong entry |
| NestedProgress.RankedUnconfused | src/nv_object.cpp:186-193 | logs that follow one order of the outermost transactions confuse nobody |
| NestedProgress.NeverStuck | src/nv_object.cpp:170-203 | if all logs follow one order of the outermost transactions, some recovery thread can move in every reachable state with an entry left |
| NestedProgress.StepFalls | src/nv_object.cpp:170-203 | each step of a recovery thread lowers the measure |
| NestedProgress.RunsEnd | src/nv_object.cpp:170-203 | no run of recovery is longer than the measure of its start |
| NestedProgress.Complete | src/nv_object.cpp:170-203 | if the logs follow one order every run can be continued to one that has played every entry |
| NestedProgress.PlaysRanked | src/nv_object.cpp:170-203 | a run that plays every entry gives an order that all logs follow |
| NestedProgress.RecoveryCompletes | src/nv_object.cpp:170-203 | logs follow one order if and only if they confuse no object and some run plays every entry |
| Matchings.MaxBipartiteMatchState.TryAugment | googletest/googlemock/src/gmock-matchers.cc:259-284 | a failed search changes nothing and has exhausted what it can reach; a successful one moves no dead node and unmatches nobody |
| Matchings.MaxBipartiteMatchState.Compute | googletest/googlemock/src/gmock-matchers.cc:207-234 | the pairs are a matching and no matching is larger |
| Matchings.NoneLarger | googletest/googlemock/src/gmock-matchers.cc:212-221 | the dead nodes give a cover as large as the matching |
| Matchings.FindPairing | googletest/googlemock/src/gmock-matchers.cc:328-357 | succeeds if and only if all matchers can be covered at once |

## Left out

- SnapshotReplays.EndToEnd: speaks of one object with abstract operations; nested calls are covered separately by `NestedRecoveries` and `NestedProgress`.
- SnapshotReplays.LaterCommitLost: the state differs from that of a replay from the head when the lost operations change it; the equivalence is `SnapshotReplays.RestoreExact`, on the entries reflected.
- Recoveries.ScanExact: a torn range holds zeros.
- LogReplays.FileRestore: no entry of the file directly follows one without padding, since what is read there depends on the argument bytes.
- NestedRecoveries.NextInv: one nested call per method, since only the first is gated.
- Handshakes.HandshakeSafe: a persister whose place is outside its buffer takes no further step, since what it then reads is no slot.
- PageImages.RestoreAll: the restore threads write disjoint blocks and are run one after the other.
- The counters for chain lookups and global allocations, locks of the allocators, printing and debug code.
- Saving and loading of the bucket heads, and the hand-over of released blocks, which is `GlobalAllocator.GlobalAlloc.Release`.
- Mapping, protecting and advising memory, huge pages, stream copies, flushing and weak memory order.
- The catalog, factories, virtual tables, identifiers and thread registration.
- The termination tag of the persister and the synchronous logging variant, which runs the same steps in the main thread.
- The other benchmarks, tools, flags library and the rest of the test framework.
