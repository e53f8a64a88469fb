# TelePath buffer pool: a verified model

TelePath is a concurrent buffer pool. Pages of files live in a fixed set of frames; threads pin,
latch, change, write back, evict and drop them while other threads do the same. This project models
its frame protocol and the structures and layers around it in Dafny and proves what they promise over
every input, every interleaving and every run.

- `ControlWord`, `PackedWord`: the 32-bit control word of a frame, as a record and as the number the
  code computes with; every transition on the number is the transition on the record.
- `Wakeup`: sleeping and waking on a control word.
- `Protocol`, `ProtocolInvariant`, `ProtocolLocal`, `ProtocolProof`, `ProtocolSteps`, `ProtocolStored`,
  `ProtocolTheorems`, `ProtocolRelease`, `PackedRuns`: the frame protocol as a step relation over any
  number of frames and threads, its inductive invariant, and the theorems about all its runs.
- `FreeList`: the versioned lock-free stack of free frames.
- `Chains`, `PageTable`: the chained page table, one writer at a time.
- `PageTableWriters`, `PageTableOrder`, `PageTableProof`, `PageTableRuns`, `PageTableLookup`: its writers
  as threads that store word by word under stripe locks, and its lookups without locks beside them.
- `TreapTree`, `Treap`, `LruK`: the intrusive treap and LRU-K over two treaps on one node array.
- `Sweep`, `FrameList`, `Sieve`, `BatchedLru`, `BatchedLruK`: clock, clock-sweep, SIEVE, and LRU and LRU-K
  with batched accesses.
- `PageStore`, `Truncation`, `PageCache`: the file facade over an evicting cache.
- `IoEngine`, `IoThreads`, `IoSubmit`, `IoDelivery`, `IoRuns`: handing requests to the disk backend, and
  the threads that submit, reap and deliver.
- `FlushScheduler`: the two-queue flush scheduler.
- `Types`, `Arithmetic`: shared types and facts.

How the frame protocol is modelled. An agent is one activity on one frame: a handle, a load, a flush, a
drop, or a scan over all frames. One atomic load, store or compare-and-swap that another thread can
interfere with is one step, and steps of all agents interleave freely. A weak exchange that fails is the
absence of a step. The steps are exact where the code decides, and looser than the code where only more
behaviour can result: any frame may be looked up or nominated as a victim at any time; page table locks
are per tag instead of per stripe; the liveness question of an install may be answered yes at any time;
a write in flight may leave anything on the disk until it succeeds, and a failed read anything in the
frame. `pending`, `covered`, `logged`, `written` and `dropped` record history for the recLSN theorems and
decide nothing.

The proof is rely-guarantee. Claims on a frame (pins, latches, ownership of a load, of a free frame, of
a writeback) are counted against the control word and the free list. Everything else is a condition on
one frame, or on one agent and its frame. `ProtocolLocal` shows what each step guarantees to everybody
else on its frame and that guaranteed steps keep everybody's condition; `ProtocolProof` lifts this to the
whole state; `ProtocolSteps` goes through the steps. `ProtocolStored` adds that clean pages equal the disk.

Where a promise does not hold for all inputs the exact condition is proved, with an input that fails:

- A page filled with zeros by `kZeroAndLock` is published clean. Clean pages equal the disk all along a
  run exactly when every such page is marked before its release or its block is zero
  (`ProtocolRelease.StoredIffMarked`, `ProtocolRelease.UnmarkedReleaseFails`). The block store theorems
  rest on this rule; all other protocol theorems are about every run of the code.
- `PageCache.Cache.Write` is right exactly when the end of the write is a 64-bit address.
- `PageCache.Cache.Truncate` to a smaller size is right whatever happens beside the call exactly when
  rounding the size up to whole blocks does not overflow or, before the call, every byte below the size is
  on the disk already and no copy still to land has another one there (`Truncation.TruncateIsRight`,
  `Truncation.TruncateLosesPages`).
- After a truncation the backing file stays zero past the size, whatever happens during and after the
  call, exactly when before the call no dirty page of a kept block and no copy of one in flight has a
  non-zero byte there (`Truncation.TruncateStaysZero`, `PageCache.StaleTail`). The client's file is right
  either way, also after a later extension.
- "Every completion runs exactly once" (`buffer/io_engine.h:66-68`) fails when the backend fails the
  reaper: exactly the requests that the backend still has are lost (`IoRuns.StopLosesTheBackend`,
  `IoRuns.StopCanLose`).
- A load waiter sleeps over a loading frame exactly when the first word it loaded was loading
  (`Wakeup.SleepsOverFirstWord`, `Wakeup.LoadWaiterCanMiss`).

## Model

| member | source | states |
|---|---|---|
| PackedWord.Reads | src/cpp/lib/buffer/frame_control.h:16-43 | every field of a record in range can be read back from its packed word by the code's shifts and masks, and the word has 32 bits |
| PackedWord.PackIsInjective | src/cpp/lib/buffer/frame_control.h:16-33 | two records in range with the same packed word are the same record |
| PackedWord.WokenRefines | src/cpp/lib/buffer/frame_control.h:66-78 | clearing the waiter bit together with an update clears that field and no other |
| PackedWord.PinRefines | src/cpp/lib/buffer/frame_control.h:80-91 | pinning by addition is pinning the record: refused unless resident and below the maximum, and it never carries |
| PackedWord.UnpinRefines | src/cpp/lib/buffer/frame_control.h:94-100 | unpinning by subtraction is unpinning the record, refused at zero, and it never borrows |
| PackedWord.ReserveRefines | src/cpp/lib/buffer/frame_control.h:115-126 | reserving gives the three outcomes of the record transition, and the reserved word keeps only the waiter bit and one pin |
| PackedWord.PublishRefines | src/cpp/lib/buffer/frame_control.h:131-136 | publishing, with or without dropping the loader's pin, is the record transition |
| PackedWord.ReleaseToFreeRefines | src/cpp/lib/buffer/frame_control.h:138-145 | releasing keeps the latch fields and nothing else |
| PackedWord.DiscardRefines | src/cpp/lib/buffer/frame_control.h:156-171 | the discard gives the four outcomes in their order of precedence and empties the word on success |
| PackedWord.MarkDirtyRefines | src/cpp/lib/buffer/frame_control.h:173-185 | marking sets dirty, and redirtied when a writeback is pending, on a resident frame only |
| PackedWord.AcquireSharedRefines | src/cpp/lib/buffer/frame_control.h:187-193 | a shared latch is added unless exclusive or full, without carrying into the waiter bit |
| PackedWord.ReleaseSharedRefines | src/cpp/lib/buffer/frame_control.h:201-208 | the unchecked subtraction is right for a counted holder, and wakes on the last reader or from the maximum |
| PackedWord.AcquireExclusiveRefines | src/cpp/lib/buffer/frame_control.h:210-216 | the exclusive bit is set only on an unlatched word |
| PackedWord.ReleaseExclusiveRefines | src/cpp/lib/buffer/frame_control.h:224-236 | the release sets redirtied when a writeback is pending and wakes sleepers |
| PackedWord.QueueRefines | src/cpp/lib/buffer/frame_control.h:245-256 | queueing gives the four outcomes and clears redirtied when it queues |
| PackedWord.BeginRefines | src/cpp/lib/buffer/frame_control.h:258-263 | a queued writeback becomes active and nobody is woken |
| PackedWord.CancelRefines | src/cpp/lib/buffer/frame_control.h:265-271 | a withdrawn writeback leaves no trace and wakes sleepers |
| PackedWord.CompleteRefines | src/cpp/lib/buffer/frame_control.h:278-296 | a completed writeback clears dirty exactly when it succeeded, nothing redirtied the page and nobody holds it exclusively |
| PackedWord.SetWaitersRefines | src/cpp/lib/buffer/frame_control.h:51-62 | a waiter sets its bit and nothing else |
| PackedRuns.PackedRunRefines | src/cpp/lib/buffer/frame_control.h:80-296 | along every run of the protocol every packed word is what the code computes from the one before, and its pin and shared fields are the numbers of holders |
| Wakeup.ChangeKeepsWaiters | src/cpp/lib/buffer/frame_control.h:66-78 | a change that ends a wait for a latch, a writeback, or a load seen in the first word also takes the waiter bit, so its author wakes the sleepers |
| Wakeup.NoLostWakeup | src/cpp/lib/buffer/frame_control.h:49-78 | in every state of every run a sleeper has the waiter bit set or a wake pending, and when its latch, its writeback or the load its first word showed is already gone the wake is pending |
| Wakeup.SleepsOverFirstWord | src/cpp/lib/buffer/buffer_manager_read.cc:73-80 | a load waiter goes to sleep over the word it loaded first, so over a loading word exactly when that one was loading |
| Wakeup.LoadWaiterCanMiss | src/cpp/lib/buffer/buffer_manager_read.cc:73-80 | a run in which a load waiter that first saw a resident word sleeps over a resident frame with no wake pending |
| Wakeup.WakeArrives | src/cpp/lib/buffer/frame_control.h:67-78 | whatever other threads do in between, the next step of a thread that owes a wake leaves nobody asleep |
| ProtocolLocal.OthersKeep | src/cpp/lib/buffer/buffer_manager_flush.cc:120-160 | a step within its author's claims keeps what every other agent on the frame relies on, including an owner of a writeback in progress |
| ProtocolLocal.LocalKeeps | src/cpp/lib/buffer/buffer_manager_flush.cc:120-206 | each step on a handle, a load or a flush keeps the frame's and its author's conditions, stays within its author's claims, and moves exactly the claims and dirty counts that the word gains and loses |
| ProtocolProof.Exclusion | src/cpp/lib/buffer/frame_control.h:102-126 | the counted claims of two agents on one frame never conflict |
| ProtocolProof.MovesKeep | src/cpp/lib/buffer/buffer_manager_eviction.cc:115-144 | a step that changes one agent and one frame within the agent's claims keeps the whole invariant |
| ProtocolSteps.StepMoves | src/cpp/lib/buffer/buffer_manager_eviction.cc:33-98 | every step outside of the scans is of that kind: reserve, install, load, abort, publish, drop, free, log, count, write; a release of a zero-filled page too, marked or not |
| ProtocolSteps.StepKeeps | src/cpp/lib/buffer/buffer_manager.cc:158-215 | every step of every agent, scans and checkpoints included, keeps the invariant |
| ProtocolSteps.RunInv | src/cpp/lib/buffer/buffer_manager_read.cc:61-166 | the invariant holds in every state of every run |
| ProtocolStored.StepStaysFaithful | src/cpp/lib/buffer/buffer_manager_read.cc:142-151 | a step that keeps the rule for zero-filled pages leaves every clean page equal to the disk, except one whose holder still has to mark it |
| ProtocolTheorems.OneResidentCopy | src/cpp/lib/buffer/buffer_manager_eviction.cc:115-144 | in every reachable state a tag has at most one resident frame, and that frame is mapped under its own tag |
| ProtocolTheorems.CleanPageIsStored | src/cpp/lib/buffer/frame_control.h:278-296 | as long as zero-filled pages were released by the rule, a resident frame that is neither dirty nor held exclusively equals the disk |
| ProtocolRelease.StoredIffMarked | src/cpp/lib/buffer/buffer_manager_read.cc:142-151 | along any run of the code, clean pages that nobody holds exclusively equal the disk in every state exactly when every zero-filled page is marked before its release or its block is zero |
| ProtocolRelease.UnmarkedReleaseLosesZeros | src/cpp/lib/buffer/buffer_manager_read.cc:142-151 | from any state of any run in which its holder is alone on it, releasing such a page unmarked lets an eviction change the value of the block although no step put, zeroed or dropped it |
| ProtocolRelease.UnmarkedReleaseFails | src/cpp/lib/buffer/buffer_manager_read.cc:142-151 | a run from an empty pool in which both happen |
| ProtocolTheorems.StepRefinesBlockStore | src/cpp/lib/buffer/buffer_manager_flush.cc:120-206 | from any state in which clean pages equal the disk, every step is one operation of a plain block store (an exclusive holder's write, a zero-fill, a drop) or leaves every block's value alone |
| ProtocolTheorems.WritersExclude | src/cpp/lib/buffer/buffer_manager_handle.cc:8-27 | a block is put only through the resident frame of its tag by an agent beside which nobody holds a latch |
| ProtocolTheorems.NoLostUpdate | src/cpp/lib/buffer/frame_control.h:224-296 | over any stretch of a run that keeps the rule for zero-filled pages in which nobody puts, zeroes or drops a block, its value stays the same |
| ProtocolTheorems.MinRecLsnIsSafe | src/cpp/lib/buffer/buffer_manager.cc:182-190 | a finished MinRecLsn is valid and not above the LSN of any change logged before it began and still neither written nor dropped |
| ProtocolTheorems.CheckpointIsComplete | src/cpp/lib/buffer/buffer_manager.cc:192-207 | when the loop of CheckpointBuffers(lsn) ends, every change logged below lsn before it began is in a completed write or was dropped |
| ProtocolTheorems.FrameOwnership | src/cpp/lib/buffer/buffer_manager_eviction.cc:33-53 | every frame is listed as free once, or free in the hands of one agent, or loading with one loader, or resident |
| ProtocolTheorems.HoldersAreCounted | src/cpp/lib/buffer/frame_control.h:80-100 | pin and shared counts equal the numbers of holders and fit their fields, an exclusive holder is alone, a writeback has one owner |
| ProtocolTheorems.ReleasesNeverBlock | src/cpp/lib/buffer/buffer_manager_handle.cc:18-43 | every holder can give up its pin or latch: the unchecked subtractions never meet a zero |
| ProtocolTheorems.CounterIsConserved | src/cpp/lib/buffer/buffer_manager_handle.cc:29-35 | the dirty page counter plus increments owed minus decrements owed is the number of dirty frames, and it never falls below the decrements owed |
| FreeList.StepRefines | src/cpp/lib/buffer/frame_free_list.h:40-55 | every atomic action of any thread is a push or a pop of one abstract stack, or leaves it alone |
| FreeList.PopsFromTheTop | src/cpp/lib/buffer/frame_free_list.h:40-55 | along every run a successful pop hands out the top, an empty answer is right, at once or after a failed exchange, and every frame is in use, on the stack once, or in one thread's hands |
| Chains.ChainFits | src/cpp/lib/buffer/page_table.cc:103-109 | a chain is never longer than the pool, so the step bound of a walk never cuts it short |
| PageTable.LinkKeeps | src/cpp/lib/buffer/page_table.cc:155-161 | linking keeps chains acyclic, disjoint and in agreement with the bucket of each frame, and adds one mapping |
| PageTable.UnlinkKeeps | src/cpp/lib/buffer/page_table.cc:163-181 | unlinking from any place of a chain keeps the same and removes one mapping |
| PageTable.MappedInChain | src/cpp/lib/buffer/page_table.cc:138-153 | a frame is mapped under a tag exactly when it is in the tag's chain with the tag as its key |
| PageTable.Table.constructor | src/cpp/lib/buffer/page_table.cc:76-92 | a new table maps nothing |
| PageTable.Table.Walk | src/cpp/lib/buffer/page_table.h:103-111 | a bounded walk finds a wanted frame of the tag other than the skipped one exactly when there is one |
| PageTable.Table.Lookup | src/cpp/lib/buffer/page_table.cc:94-117 | a lookup in a table at rest finds a frame of the tag exactly when one is mapped |
| PageTable.Table.Link | src/cpp/lib/buffer/page_table.cc:155-161 | the stores add the frame's mapping and change no other |
| PageTable.Table.Unlink | src/cpp/lib/buffer/page_table.cc:163-181 | the stores remove the frame's mapping and change no other |
| PageTable.Table.Remove | src/cpp/lib/buffer/page_table.cc:123-128 | the frame is unmapped exactly when it is mapped under the given tag |
| PageTable.Table.Replace | src/cpp/lib/buffer/page_table.cc:130-136 | the frame ends up mapped under the new tag whatever it was mapped under |
| PageTable.Table.ReplaceUnlessLive | src/cpp/lib/buffer/page_table.h:98-117 | the frame is mapped under the new tag exactly when no other frame mapped there is live; otherwise such a frame is reported and the old mapping goes |
| PageTableOrder.OwnStripes | src/cpp/lib/buffer/page_table.cc:30-46 | a call locks the stripes of every bucket it may change, each once |
| PageTableProof.StepTable | src/cpp/lib/buffer/page_table.cc:155-181 | after every single store of a link or an unlink all chains are acyclic, disjoint, well linked and in the buckets of their keys |
| PageTableProof.StepQuiet | src/cpp/lib/buffer/page_table.cc:123-136 | a store changes chains, links and keys only of stripes its writer has open, and of its own frame outside of all chains |
| PageTableRuns.OtherKept | src/cpp/lib/buffer/page_table.cc:30-46 | a step of one writer keeps what every other writer knows of its frame, its chains and its search |
| PageTableRuns.RunInv | src/cpp/lib/buffer/page_table.cc:30-46 | with any number of writers, in every state of every run chains are in order, locks name their holders and a sequence is odd exactly while its stripe is open |
| PageTableRuns.MappingMovesAlone | src/cpp/lib/buffer/page_table.cc:123-136 | a step changes the mapping of no frame but its own |
| PageTableRuns.CallIsExact | src/cpp/lib/buffer/page_table.h:44-55 | when a Remove, Replace or ReplaceUnlessLive returns, at its end or because the frame is in no bucket, its frame has the mapping that the call promises, given the one it began with |
| PageTableRuns.InstallsAmongTheDead | src/cpp/lib/buffer/page_table.h:103-116 | when a frame is linked under a tag unless another is live, every other frame mapped under the tag at that moment was asked and was not |
| PageTableLookup.RestingIsFrozen | src/cpp/lib/buffer/page_table.cc:30-46 | while a sequence is even, no step changes a chain of the stripe, its head, its links or its keys |
| PageTableLookup.ReaderStepKeeps | src/cpp/lib/buffer/page_table.cc:94-117 | as long as the sequence is what it read, each load of a lookup walks the chain exactly, and the step bound stops it only at the end |
| PageTableLookup.LookupIsExact | src/cpp/lib/buffer/page_table.cc:94-117 | a lookup that returns agrees with the mapping of all frames at the moment it validates, whatever any number of writers do around it |
| TreapTree.HungUp | src/cpp/lib/replacer/indexed_ordered_set.h:102-109 | hanging a node in another's place changes that link and nothing else of the tree above |
| TreapTree.RotateRight | src/cpp/lib/replacer/indexed_ordered_set.h:111-125 | lifting a left child rewrites the nodes of the tree into those of the rotated tree, parent links included |
| TreapTree.RotateLeft | src/cpp/lib/replacer/indexed_ordered_set.h:111-125 | lifting a right child does the same |
| Treap.RotateUp | src/cpp/lib/replacer/indexed_ordered_set.h:49-49 | a turn of the insert's rotation loop keeps the order and leaves at most the new frame and its parent out of heap order |
| Treap.RotateDown | src/cpp/lib/replacer/indexed_ordered_set.h:55-60 | a turn of the erase's rotation loop puts the frame below its child of higher priority, leaves at most the frame and its children out of heap order, and touches no node outside of the tree |
| Treap.SunkOrder | src/cpp/lib/replacer/indexed_ordered_set.h:55-60 | the turn keeps what is before and after the frame in sorted order, and the loop ends |
| Treap.OrderedSet.Replace | src/cpp/lib/replacer/indexed_ordered_set.h:102-109 | the array and the root become those of the replacement |
| Treap.OrderedSet.Rotate | src/cpp/lib/replacer/indexed_ordered_set.h:111-125 | the array and the root become those of the rotation |
| Treap.OrderedSet.Insert | src/cpp/lib/replacer/indexed_ordered_set.h:38-50 | the frame is put into the strictly sorted members under its key; search order, heap order and links hold; nodes of other sets stay |
| Treap.OrderedSet.Erase | src/cpp/lib/replacer/indexed_ordered_set.h:52-63 | exactly the frame leaves the members, or nothing changes when it is not linked; search order, heap order and links hold |
| Treap.OrderedSet.First | src/cpp/lib/replacer/indexed_ordered_set.h:65-65 | the first member in sorted order, or none |
| Treap.OrderedSet.Last | src/cpp/lib/replacer/indexed_ordered_set.h:66-66 | the last member in sorted order, or none |
| Treap.OrderedSet.Next | src/cpp/lib/replacer/indexed_ordered_set.h:67-67 | the member after the given one in sorted order, or none after the last |
| Treap.OrderedSet.Previous | src/cpp/lib/replacer/indexed_ordered_set.h:68-68 | the member before the given one in sorted order, or none before the first |
| Treap.OrderedSet.Extreme | src/cpp/lib/replacer/indexed_ordered_set.h:82-89 | the outermost frame of a subtree is the first or last of its members |
| Treap.OrderedSet.Step | src/cpp/lib/replacer/indexed_ordered_set.h:91-100 | descending or climbing ends at the neighbour in sorted order |
| LruK.AppendKeeps | src/cpp/lib/replacer/lru_k_replacer.cc:98-108 | the ring holds the last min(K, n) accesses, oldest first, after every append |
| LruK.PickFrom | src/cpp/lib/replacer/lru_k_replacer.cc:117-124 | the pick is the least member that may be evicted, or there is none |
| LruK.PickedIsVictim | src/cpp/lib/replacer/lru_k_replacer.cc:50-53 | the least evictable member of the first queue, else of the second, is the victim the policy asks for |
| LruK.Replacer.constructor | src/cpp/lib/replacer/lru_k_replacer.cc:55-62 | nothing is tracked, and a history length of zero counts as one |
| LruK.Replacer.Enqueue | src/cpp/lib/replacer/lru_k_replacer.cc:87-91 | the frame enters the queue its history calls for, under the right key |
| LruK.Replacer.Dequeue | src/cpp/lib/replacer/lru_k_replacer.cc:93-96 | the frame leaves its queue and the other frames stay in order |
| LruK.Replacer.Append | src/cpp/lib/replacer/lru_k_replacer.cc:98-108 | the access is recorded with a fresh clock value and no other history changes |
| LruK.Replacer.Touch | src/cpp/lib/replacer/lru_k_replacer.cc:110-115 | an access of a tracked frame is appended to its log; any other is ignored |
| LruK.Replacer.RecordLoad | src/cpp/lib/replacer/lru_k_replacer.cc:161-165 | the frame is tracked with this load as its only access |
| LruK.Replacer.Remove | src/cpp/lib/replacer/lru_k_replacer.cc:179-182 | the frame is no longer tracked and the others are as before |
| LruK.Replacer.Victim | src/cpp/lib/replacer/lru_k_replacer.cc:172-172 | the victim is the evictable frame with fewer than K accesses whose latest is oldest, else the one whose K-th most recent is oldest, and there is one exactly when a tracked frame is evictable |
| BatchedLruK.Replacer.Drain | src/cpp/lib/replacer/access_batcher.h:40-46 | the waiting accesses are applied in order, each once |
| BatchedLruK.Replacer.RecordAccess | src/cpp/lib/replacer/lru_k_replacer.cc:153-155 | the histories plain LRU-K would have gain the access at once, batched or not |
| BatchedLruK.Replacer.RecordLoad | src/cpp/lib/replacer/lru_k_replacer.cc:157-166 | in the histories plain LRU-K would have, the frame starts afresh with this load |
| BatchedLruK.Replacer.Remove | src/cpp/lib/replacer/lru_k_replacer.cc:175-183 | in the histories plain LRU-K would have, the frame is forgotten |
| BatchedLruK.Replacer.Victim | src/cpp/lib/replacer/lru_k_replacer.cc:168-173 | the victim is the one plain LRU-K picks: every access recorded before counts |
| Sweep.FoundIsVictim | src/cpp/lib/replacer/clock_replacer.cc:70-85 | the first evictable frame found at zero has the lowest count, and is nearest ahead of the hand among those |
| Sweep.NoneLeft | src/cpp/lib/replacer/clock_replacer.cc:72-72 | one round more than the highest count suffices: then no tracked frame is evictable |
| Sweep.Replacer.constructor | src/cpp/lib/replacer/clock_sweep_replacer.cc:29-37 | nothing is tracked |
| Sweep.Replacer.RecordAccess | src/cpp/lib/replacer/clock_sweep_replacer.cc:59-65 | an access counts up to the maximum and never starts to track a frame |
| Sweep.Replacer.RecordLoad | src/cpp/lib/replacer/clock_sweep_replacer.cc:67-70 | a loaded frame is tracked with count one |
| Sweep.Replacer.Victim | src/cpp/lib/replacer/clock_sweep_replacer.cc:72-87 | within (maximum + 1) * capacity steps there is a victim exactly when a tracked frame is evictable; it has the lowest count, and the counts and the hand after the sweep are exact |
| Sweep.Replacer.Remove | src/cpp/lib/replacer/clock_sweep_replacer.cc:89-92 | the frame is no longer tracked |
| Sieve.TwoRoundsSuffice | src/cpp/lib/replacer/sieve_replacer.cc:129-129 | two rounds without a victim mean that no member is evictable |
| Sieve.Replacer.Unlink | src/cpp/lib/replacer/sieve_replacer.cc:65-75 | the frame leaves the order and the hand steps off it to the newer neighbour |
| Sieve.Replacer.RecordAccess | src/cpp/lib/replacer/sieve_replacer.cc:110-114 | the frame's visited flag is set |
| Sieve.Replacer.RecordLoad | src/cpp/lib/replacer/sieve_replacer.cc:116-122 | the frame becomes the newest, once, and is not visited |
| Sieve.Replacer.Walk | src/cpp/lib/replacer/sieve_replacer.cc:128-147 | at most two rounds find the first evictable member not visited, or the first one if all are, clearing exactly the flags of the evictable members passed |
| Sieve.Replacer.Victim | src/cpp/lib/replacer/sieve_replacer.cc:124-147 | there is a victim exactly when a member is evictable; the hand moves on to the member after it, and without one it is back where the walk began |
| Sieve.Replacer.Remove | src/cpp/lib/replacer/sieve_replacer.cc:149-154 | the frame leaves the order and is not visited |
| FrameList.List.PushFront | src/cpp/lib/replacer/frame_list.h:54-61 | the frame becomes the first of the order, with both link directions right |
| FrameList.List.Unlink | src/cpp/lib/replacer/frame_list.h:63-71 | exactly the frame leaves the order, with both link directions right |
| BatchedLru.Replacer.Touch | src/cpp/lib/replacer/lru_replacer.cc:39-41 | a member moves to the front; any other frame is ignored |
| BatchedLru.Replacer.MoveToFront | src/cpp/lib/replacer/frame_list.h:73-76 | the frame is first and the others keep their order |
| BatchedLru.Replacer.Drain | src/cpp/lib/replacer/access_batcher.h:40-46 | the waiting accesses are applied in order, each once |
| BatchedLru.Replacer.RecordAccess | src/cpp/lib/replacer/access_batcher.h:25-38 | the order plain LRU would have gets the frame to its front at once, batched or not |
| BatchedLru.Replacer.RecordLoad | src/cpp/lib/replacer/lru_replacer.cc:68-74 | the loaded frame is first in the order plain LRU would have |
| BatchedLru.Replacer.Remove | src/cpp/lib/replacer/lru_replacer.cc:88-93 | the frame leaves the order plain LRU would have |
| BatchedLru.Replacer.Victim | src/cpp/lib/replacer/lru_replacer.cc:76-86 | the victim is the one plain LRU picks |
| BatchedLru.Replay | src/cpp/lib/replacer/lru_replacer.cc:64-93 | for every sequence of calls the batched replacer returns the victims of plain LRU |
| PageStore.HappenedKeeps | src/cpp/lib/buffer/buffer_manager_flush.cc:120-160 | evicting and loading a block, and copying, writing and finishing a writeback of it, change no byte of the file, whatever the client did in between |
| PageStore.PatchBytes | src/cpp/lib/facade/page_cache.cc:86-101 | copying a piece into its block changes those bytes of the file and no others, also when a whole block skips the read |
| PageStore.BackendStaysZero | src/cpp/lib/buffer/buffer_manager_flush.cc:52-65 | a backing file that is zero past the size stays so, whatever happens in the background, exactly when no copy in flight has a non-zero byte there |
| PageCache.Cache.constructor | src/cpp/lib/facade/page_cache.cc:176-182 | opening a backing file gives that file |
| PageCache.Cache.Read | src/cpp/lib/facade/page_cache.cc:52-72 | a read returns the slice of the file and changes nothing, whatever happens between its blocks |
| PageCache.Cache.Write | src/cpp/lib/facade/page_cache.cc:74-105 | a write splices the data into the file with a zero gap exactly when its end is a 64-bit address, and bytes past the size stay zero |
| Truncation.TruncatedIs | src/cpp/lib/facade/page_cache.cc:121-130 | whatever happens between its parts, a truncation leaves below the size what dropping the frames left, zeros past it, and a backing file that is zero past it |
| Truncation.TruncateIsRight | src/cpp/lib/facade/page_cache.cc:121-122 | a truncation is right for every interleaving exactly when rounding the size does not overflow or, before the call, each byte below the size is on the disk and in any copy still to land |
| Truncation.TruncateStaysZero | src/cpp/lib/facade/page_cache.cc:121-130 | for every interleaving the backing file stays zero past the size exactly when before the call no dirty page and no copy still to land of a kept block has a non-zero byte there |
| Truncation.TruncateLosesPages | src/cpp/lib/facade/page_cache.cc:121-122 | for every size whose rounding overflows there is a file that an undisturbed truncation does not cut right |
| PageCache.Cache.Drop | src/cpp/lib/buffer/buffer_manager_eviction.cc:55-98 | the frame loop waits for each page's writeback and discards the page, whatever happens between frames |
| PageCache.Cache.Truncate | src/cpp/lib/facade/page_cache.cc:114-136 | a truncation cuts or zero-extends the file, for sizes whose rounding overflows exactly when each byte is on the disk by the time its page is dropped; the backing file is zero past the size, stays so for every interleaving if no dirty page and no copy of a kept block had a non-zero byte there, and in an undisturbed call exactly if no copy had |
| PageCache.StaleTail | src/cpp/lib/facade/page_cache.cc:122-129 | runs in which a copy of the last block, taken before the call or during it, lands after the cut |
| PageCache.Cache.Sync | src/cpp/lib/facade/page_cache.cc:208-215 | after a sync the backing file is the file and no page is dirty |
| IoEngine.SubmitTagged | src/cpp/lib/buffer/io_engine.cc:68-85 | every request is taken by the backend or completed here, once and in order, as the backend answers and the engine's stop decide |
| IoSubmit.CallIsLoop | src/cpp/lib/buffer/io_engine.cc:68-85 | whatever other threads do meanwhile, a call hands to the backend and completes itself exactly the requests that the loop promises for the answers it got |
| IoSubmit.AnswerActs | src/cpp/lib/buffer/io_engine.cc:76-83 | the requests that an answer is about are accepted by the backend or are what the thread completes next |
| IoDelivery.StepPlaces | src/cpp/lib/buffer/io_engine.cc:68-129 | every step of submitters, waiters, the reaper, the backend and the shutdown keeps every request in exactly one place |
| IoRuns.OnePlace | src/cpp/lib/buffer/io_engine.cc:68-129 | along every run a request is in the list of one submitter, with the backend, in the batch of one thread, in delivery by one thread, or delivered, and nowhere else |
| IoRuns.CompletionRunsOnce | src/cpp/lib/buffer/io_engine.h:66-68 | a completion runs at most once, and has not run exactly while its request is still in a list, with the backend or in a batch |
| IoRuns.StopLosesTheBackend | src/cpp/lib/buffer/io_engine.cc:131-137 | once all loops have ended, exactly the requests that the backend still has are the ones whose completion never ran; after an orderly shutdown there are none |
| IoRuns.StopCanLose | src/cpp/lib/buffer/io_engine.cc:154-159 | a run in which the backend takes a request, fails the reaper, and the request is lost |
| IoRuns.PendingIsExact | src/cpp/lib/buffer/io_engine.cc:21-24 | a waiter counts exactly its requests that have not counted down |
| IoRuns.WaiterReportsErrors | src/cpp/lib/buffer/io_engine.cc:21-24 | a waiter that has counted down has an error exactly when one of its requests failed, and it is that of such a request |
| IoRuns.DemandIsExact | src/cpp/lib/buffer/io_engine.cc:87-125 | demand is the number of asynchronous requests not yet delivered, plus sleeping waiters, plus one after shutdown |
| FlushScheduler.Scheduler.Enqueue | src/cpp/lib/buffer/flush_scheduler.cc:87-98 | a task goes to the end of its queue, and none is accepted after shutdown |
| FlushScheduler.Scheduler.TakeNextBatch | src/cpp/lib/buffer/flush_scheduler.cc:105-138 | the batch, the queues and the streak are those of repeated single choices, up to the batch size |
| FlushScheduler.BatchIsPicks | src/cpp/lib/buffer/flush_scheduler.cc:105-138 | the picks that a worker makes in a row are all possible, have exactly the effect of one batch on queues, worker and order of service, and cannot go on |
| FlushScheduler.QueuesAreFifo | src/cpp/lib/buffer/flush_scheduler.cc:105-134 | along every run, with any number of workers, each queue is served in the order of acceptance |
| FlushScheduler.CompletedExactlyOnce | src/cpp/lib/buffer/flush_scheduler.cc:70-98 | no task is completed twice, and when all workers have stopped every accepted task has been completed once |
| FlushScheduler.BackgroundIsServed | src/cpp/lib/buffer/flush_scheduler.cc:136-138 | among limit + 1 picks of a worker in a row with background tasks waiting at each, one is a background task |

## Left out

- Memory orders: all atomic actions are sequentially consistent.
- Counters that wrap: the free list's version, the stripe sequences, the clock of LRU-K and the hand of a sweep are natural numbers.
- Crashes and durability: checkpoints are stated as "written to the backend", and the file syncs at their end are not modelled.
- Liveness and fairness: nothing says that a waiting thread is ever scheduled.
- The version counter of a frame, the stored writeback error, telemetry, the cleaner and the calls to the replacer inside the protocol: they decide nothing about pages. The cleaner is any agent that flushes.
- Loads of several blocks at once, prefetch plumbing, access-strategy rings: a prefetch is a load that publishes without a pin.
- Loads and stores of a tag are one step. A tag read while it is replaced may be taken for a third one; that can only make an install give up, which the model allows at any time.
- A logged change becomes visible with the step that lowers the recLSN; the bytes it stands for are taken to be in the page by then.
- ProtocolTheorems.CheckpointIsComplete: begins at the last loop of CheckpointBuffers, so that it covers every change logged before the call and those logged during the first pass; that pass, which starts writebacks and waits for them, is not modelled, and an error return promises nothing.
- ProtocolTheorems.StepRefinesBlockStore: a drop sets a block to its disk copy, whatever that is; after a failed write it may be torn.
- Wakeup.NoLostWakeup: for a load waiter whose first word was not loading only the first half, that the waiter bit is set or a wake is pending, says anything; LoadWaiterCanMiss shows that the second half fails for it.
- FreeList.PopsFromTheTop: a thread that holds several frames is several threads.
- PageTable.Table.Lookup: the table is at rest here; lookups beside writers are in PageTableLookup.
- PageTableLookup.LookupIsExact: one lookup at a time is followed; any assignment of buckets to stripes stands for the modulus in the code.
- PageTableWriters: a step may also load a key or bucket of the writer's own frame or what its locks guard, which nobody else may store at that moment. A frame is in one call at a time, as the frame protocol sees to; `live` may answer anything.
- The hash of a tag and the priority of a frame are arbitrary functions, so their mixing constants are not modelled.
- LruK.Replacer.Append: a frame's ring is a sequence of its own instead of a slice of one flat array.
- LruK.Replacer.Victim: the structure behind the batch; BatchedLruK adds the accesses that wait in it.
- BatchedLruK.Replacer.RecordAccess: one thread, so one batch slot is in use.
- BatchedLru.Replay: one thread, so one batch slot is in use; slots of other threads are not modelled.
- Sweep.Replacer.Victim: no other thread touches the counts during a sweep and no exchange fails spuriously; the sentinels of the two replacers are an option type.
- Sieve.Replacer.Victim: the linked arrays are those of FrameList, front being the newest; the latch is not modelled.
- PageCache.Cache.Truncate: loads during the call are of kept blocks only.
- PageCache.Cache.Read: one file and one client whose calls succeed; readahead is any load between accesses; Close, FileSize and failing calls are left out as easy. A failed write leaves the backing file as it was or has written the whole copy.
- IoRuns.CompletionRunsOnce: the backend hands each accepted request back once, as its contract says; the futex that lets the reaper sleep is not modelled, so the reaper may look at any time.
- FlushScheduler.Scheduler.TakeNextBatch: waiting on the condition variable is not modelled; with empty queues the batch is empty.
- FlushScheduler.CompletedExactlyOnce: needs at least one worker, since without workers nothing takes a task; starting and joining threads is not modelled.
- Option resolution, layouts in shared memory, io_uring and POSIX code, the observation area, the two-queue and plan replacers and all user interfaces.
