# Verified models of ten small systems

Dafny models, with proofs, of the algorithms in this repository that keep state: two heap
allocators, a bounded thread pool, a DPDK-style ring, a single-producer single-consumer ring, a
two-lock blocking queue, a lock-free singleton, a copy-on-write list, a pid hash table and a
news-feed merge. `dafny verify dfyconfig.toml` checks everything.

## How the models are built

**Allocators** (`blocks.dfy`, `memory.dfy`, `boundary_tag_blocks.dfy`, `boundary_tag_heap.dfy`,
`implicit_list_heap.dfy`). Memory maps byte addresses to 8-byte words; a block's first word packs
its size and, in bit 0, the in-use flag, and with boundary tags its last word repeats the first.
`Tiled` says that a stretch of memory is tiled by a list of blocks. Each `Heap` class keeps the
globals of its C file and a ghost block list; `find_fit` is a loop that overwrites words. Its
effect on memory is the function `Swept`, its effect on the block list the function `Search`, and
`SearchIsFirstFit` says what that search means without following it step by step. Both allocators
share the search; they differ in their tags, in how they split, and in when they merge.

**Thread pool** (`thread_pool.dfy`, `thread_pool_proofs.dfy`, `thread_pool_alone.dfy`). One step per
mutex operation, wait, notify, and access of `_running`, which `stop` clears without the mutex.
Sleepers may wake spuriously, a `notify_one` may pick any sleeper, and any number of `run` calls may
be under way. A task is named by its call. What a thread does when left alone is proved separately
(`CallByItself`, `WorkerByItself`, `StopByItself`).

**DPDK-style ring** (`rte_ring.dfy`, `rte_ring_proofs.dfy`, `rte_ring_runs.dfy`,
`rte_ring_configurations.dfy`, `rte_ring_failures.dfy`, `rte_ring_history.dfy`). One step per atomic
access and per touch of a slot. Counters are kept as true counts, and the program sees only their
low 32 bits: every test and every compare-exchange in the model is on those. A flag records
construction over a live element and reads or destructions of raw storage. Three modes: `ST`, `MT`
as the code has it, and `MTInOrder`, in which the tail awaits the ticket. A state is sound (`Inv`)
when the counters are in order within a capacity, every ticket between a tail and its head has one
owner, every slot is as its ticket says, and nothing undefined has happened. `rte_ring_history.dfy`
tells runs by their calls and returns alone.

**Other concurrent code.** `spsc_ring.dfy` is a class whose methods are the atomic steps of the two
threads, so that an interleaving is a sequence of calls. `two_lock_queue.dfy` and
`lockfree_singleton.dfy` are step machines like the pool. `cow_list.dfy` is a class with lists
shared by reference, whose share count is the set of holders.

**Pid table and news feed** (`pid_table.dfy`, `news_feed.dfy`). Heap nodes with `next` and `pprev`
in a bucket array, standing for one list of live processes, newest first. A class with the two
maps, whose merge loop takes some latest entry each time, so that ties are open.

## Where the code departs from its intent

- `rte_ring_buffer.cpp`, lines 75 and 126: a failed compare-exchange overwrites the expected value,
  and the retry then publishes out of turn. The `MT` mode keeps this.
  `PublishingOutOfTurnReadsRawSlot` and `ReleasingOutOfTurnOverwrites` build runs that go wrong for
  every capacity and number of threads that allow one, `KeepsExactlyInTurn` says exactly which steps
  do, and `RacesAreTheTrouble` for exactly which numbers of threads none does: one producer with at
  most one consumer, no producer, or a ring of one slot.
- The same file, lines 57 and 108: a thread delayed between its loads and its exchange while 2^32
  claims go by can claim without room. `LappedClaimOverwrites` and `LappedClaimReadsRawSlot` build
  such runs. `WaitingRunsAreSound` assumes that it does not happen (`NotLapped`);
  `SoundConfigurations` does not, and says for each mode, capacity up to 2^31 and number of threads
  whether every run is sound. `FaultFreeConfigurations` says the same of the undefined accesses
  alone; the answers differ only without consumers, where the `MT` branch may publish a slot not yet
  written, and nobody is there to read it.
- The same file, lines 41 and 92: when 2^32 values pass through (for push, 2^32 less the capacity
  are enough) between a thread's two loads, push returns false on an empty ring and pop on a full
  one (`PushFailsOnEmptyRing`, `PopFailsOnFullRing`), in every mode. `PushGivesUpExactly` and
  `PopGivesUpExactly` say exactly when a call gives up, `PushFailureMeansFull` and
  `PopFailureMeansEmpty` for exactly which numbers of threads no sound run has a call that gives up
  without cause.
- The same file, line 44: a capacity of 2^32 or more passes the `static_assert`, but then every push
  fails on the empty ring, and exactly then (`OversizedExactly`, `OversizedRunsAreStuck`,
  `TakesValuesExactlyBelowWrap`). The results on sound runs are for capacities up to 2^31.
- `hlist_head.cpp`, line 70, shifts by `sizeof(hash) - bits`, which is in bytes and, being unsigned,
  wraps around to a huge count. The hash is any function into [0, 2048).

## Model

| member | source | states |
|---|---|---|
| `Blocks.SearchIsFirstFit` | books/a_heavily_commented_linux_kernel_source_code/chapter05_linux_kernel_architecture/malloc_singly_linked_list.c:51-77 | the search with merging on the way succeeds exactly when some run of free blocks is large enough, and stops at the leftmost such run having merged its shortest sufficient prefix; before the fit, and everywhere on failure, no two free neighbours remain; span and live blocks are unchanged |
| `Blocks.PlaceGrants` | books/a_heavily_commented_linux_kernel_source_code/chapter05_linux_kernel_architecture/malloc_implicit_list_biredirectional.c:129-151 | handing out a block adds exactly one live block, at a place where none was, at least as large as asked and less than a spare block larger; the span grows only on a miss |
| `Blocks.LiveDisjoint` | books/a_heavily_commented_linux_kernel_source_code/chapter05_linux_kernel_architecture/malloc_implicit_list_biredirectional.c:117-154 | no two live blocks share a byte |
| `Blocks.LiveWithin` | books/a_heavily_commented_linux_kernel_source_code/chapter05_linux_kernel_architecture/malloc_implicit_list_biredirectional.c:66-80 | every live block lies inside the span of the heap |
| `Blocks.ClearKeepsRest` | books/a_heavily_commented_linux_kernel_source_code/chapter05_linux_kernel_architecture/malloc_singly_linked_list.c:106-110 | clearing one block's in-use bit takes exactly that block out of the live ones and keeps the span |
| `Memory.Align` | books/a_heavily_commented_linux_kernel_source_code/chapter05_linux_kernel_architecture/malloc_implicit_list_biredirectional.c:21-22 | the least multiple of 8 that holds the given bytes |
| `Memory.ClearsLowBit` | books/a_heavily_commented_linux_kernel_source_code/chapter05_linux_kernel_architecture/malloc_implicit_list_biredirectional.c:25-40 | the size part of a word is the word with bit 0 cleared, and the block is in use exactly when bit 0 is set |
| `Memory.PackInverts` | books/a_heavily_commented_linux_kernel_source_code/chapter05_linux_kernel_architecture/malloc_implicit_list_biredirectional.c:25-40 | size and in-use bit packed into one word read back as they were |
| `Memory.HeadersAligned` | books/a_heavily_commented_linux_kernel_source_code/chapter05_linux_kernel_architecture/malloc_implicit_list_biredirectional.c:13-22 | every block starts a multiple of 8 bytes after the heap's start |
| `Memory.TiledReplace` | books/a_heavily_commented_linux_kernel_source_code/chapter05_linux_kernel_architecture/malloc_implicit_list_biredirectional.c:156-187 | rewriting one stretch of blocks into another of the same span leaves the memory tiled when nothing outside the stretch is written |
| `Memory.MergeStep` | books/a_heavily_commented_linux_kernel_source_code/chapter05_linux_kernel_architecture/malloc_implicit_list_biredirectional.c:102-110 | the merge in find_fit leaves memory tiled by the merged list; no store overlaps a live block |
| `Memory.SweptSearched` | books/a_heavily_commented_linux_kernel_source_code/chapter05_linux_kernel_architecture/malloc_singly_linked_list.c:51-77 | the memory a whole search leaves is tiled by the searched list, with the same span and the same live blocks; no store overlaps a live block |
| `Memory.SweptSettled` | books/a_heavily_commented_linux_kernel_source_code/chapter05_linux_kernel_architecture/malloc_implicit_list_biredirectional.c:102-110 | with no two free neighbours a search changes no word at all |
| `Memory.PayloadWritten` | books/a_heavily_commented_linux_kernel_source_code/chapter05_linux_kernel_architecture/malloc_implicit_list_biredirectional.c:153 | writing a whole word inside a block, none of its bytes in a tag, keeps the tiling |
| `BoundaryTagBlocks.BlockSizeFor` | books/a_heavily_commented_linux_kernel_source_code/chapter05_linux_kernel_architecture/malloc_implicit_list_biredirectional.c:126-127 | the least aligned size with room for the request and both tags |
| `BoundaryTagBlocks.MallocTakesLowest` | books/a_heavily_commented_linux_kernel_source_code/chapter05_linux_kernel_architecture/malloc_implicit_list_biredirectional.c:117-154 | in a heap without free neighbours mmalloc takes the lowest-address free block of at least the least aligned size that holds the request and 16 bytes of tags, splits it exactly when 24 bytes or more are left over, and grows the heap by exactly that size only when every free block is too small |
| `BoundaryTagBlocks.MallocKeepsApart` | books/a_heavily_commented_linux_kernel_source_code/chapter05_linux_kernel_architecture/malloc_implicit_list_biredirectional.c:129-151 | mmalloc leaves no two free neighbours |
| `BoundaryTagBlocks.FreeReleases` | books/a_heavily_commented_linux_kernel_source_code/chapter05_linux_kernel_architecture/malloc_implicit_list_biredirectional.c:156-187 | mfree takes exactly the freed block out of the live ones and keeps the span |
| `BoundaryTagBlocks.FreeKeepsApart` | books/a_heavily_commented_linux_kernel_source_code/chapter05_linux_kernel_architecture/malloc_implicit_list_biredirectional.c:162-186 | the four-way merge leaves no two free neighbours |
| `BoundaryTagBlocks.SearchSettled` | books/a_heavily_commented_linux_kernel_source_code/chapter05_linux_kernel_architecture/malloc_implicit_list_biredirectional.c:82-115 | without free neighbours find_fit merges nothing and returns the first free block that is large enough, or nothing when there is none |
| `BoundaryTagBlocks.NoRunLeavesFreeNeighbours` | books/a_heavily_commented_linux_kernel_source_code/chapter05_linux_kernel_architecture/malloc_implicit_list_biredirectional.c:102-110 | after any run of mmalloc and mfree no two free blocks are neighbours, so the merge branch of find_fit is never taken |
| `BoundaryTagBlocks.AllFreedIsOneBlock` | books/a_heavily_commented_linux_kernel_source_code/chapter05_linux_kernel_architecture/malloc_implicit_list_biredirectional.c:156-187 | once every live block has been freed, in any order, one free block spans the heap |
| `BoundaryTagHeap.Heap.FindFit` | books/a_heavily_commented_linux_kernel_source_code/chapter05_linux_kernel_architecture/malloc_implicit_list_biredirectional.c:82-115 | terminates on every tiled heap; the memory, the blocks and the returned header are those of the search, NULL when it fails |
| `BoundaryTagHeap.Heap.Absorb` | books/a_heavily_commented_linux_kernel_source_code/chapter05_linux_kernel_architecture/malloc_implicit_list_biredirectional.c:105-110 | the merge writes the summed size into the first and the last word of the merged block, and no other word |
| `BoundaryTagHeap.Heap.Sbrk` | books/a_heavily_commented_linux_kernel_source_code/chapter05_linux_kernel_architecture/malloc_implicit_list_biredirectional.c:121-122 | fresh memory directly above the break, everything below it unchanged |
| `BoundaryTagHeap.Heap.AllocateBlock` | books/a_heavily_commented_linux_kernel_source_code/chapter05_linux_kernel_architecture/malloc_implicit_list_biredirectional.c:26-31 | both tags of a block get its size with the in-use bit, and no other word changes |
| `BoundaryTagHeap.Heap.DeallocateBlock` | books/a_heavily_commented_linux_kernel_source_code/chapter05_linux_kernel_architecture/malloc_implicit_list_biredirectional.c:33-38 | both tags of a block lose the in-use bit, and no other word changes |
| `BoundaryTagHeap.Heap.Carve` | books/a_heavily_commented_linux_kernel_source_code/chapter05_linux_kernel_architecture/malloc_implicit_list_biredirectional.c:131-144 | the words written when a fit is split or used whole |
| `BoundaryTagHeap.Heap.Start` | books/a_heavily_commented_linux_kernel_source_code/chapter05_linux_kernel_architecture/malloc_implicit_list_biredirectional.c:119-124 | the first call puts a 16-byte prologue block in front of an empty heap |
| `BoundaryTagHeap.Heap.Take` | books/a_heavily_commented_linux_kernel_source_code/chapter05_linux_kernel_architecture/malloc_implicit_list_biredirectional.c:129-145 | using a fit keeps the heap tiled up to the break; no store overlaps a live block |
| `BoundaryTagHeap.Heap.Grow` | books/a_heavily_commented_linux_kernel_source_code/chapter05_linux_kernel_architecture/malloc_implicit_list_biredirectional.c:146-151 | growing the heap appends one used block; no store overlaps a live block |
| `BoundaryTagHeap.Heap.Malloc` | books/a_heavily_commented_linux_kernel_source_code/chapter05_linux_kernel_architecture/malloc_implicit_list_biredirectional.c:117-154 | the heap stays tiled, its header words equal to its footer words; one new live block appears with room for the request, disjoint from the others, and no store overlaps any other live block |
| `BoundaryTagHeap.Heap.Free` | books/a_heavily_commented_linux_kernel_source_code/chapter05_linux_kernel_architecture/malloc_implicit_list_biredirectional.c:156-187 | the heap stays tiled; the freed block joins its free neighbours, exactly it stops being live, and no store overlaps any remaining live block |
| `BoundaryTagHeap.Heap.Rejoin` | books/a_heavily_commented_linux_kernel_source_code/chapter05_linux_kernel_architecture/malloc_implicit_list_biredirectional.c:158-186 | the words written by the four cases of mfree |
| `BoundaryTagHeap.RetaggedRejoins` | books/a_heavily_commented_linux_kernel_source_code/chapter05_linux_kernel_architecture/malloc_implicit_list_biredirectional.c:167-186 | in each of the four cases the joined block has its summed size at both ends and nothing outside it changed |
| `BoundaryTagHeap.FreeSees` | books/a_heavily_commented_linux_kernel_source_code/chapter05_linux_kernel_architecture/malloc_implicit_list_biredirectional.c:159-165 | what mfree reads around a used block: its own tags, the footer of the block before it or of the prologue, the header of the block after it if there is one |
| `BoundaryTagHeap.FreeEffect` | books/a_heavily_commented_linux_kernel_source_code/chapter05_linux_kernel_architecture/malloc_implicit_list_biredirectional.c:156-187 | after the stores of mfree memory is tiled by the joined list |
| `BoundaryTagHeap.Heap.WalkHeap` | books/a_heavily_commented_linux_kernel_source_code/chapter05_linux_kernel_architecture/malloc_implicit_list_biredirectional.c:66-80 | the assertion header equals footer holds at every block, and the listing is the block list |
| `BoundaryTagHeap.Heap.WritePayload` | books/a_heavily_commented_linux_kernel_source_code/chapter05_linux_kernel_architecture/malloc_implicit_list_biredirectional.c:153 | a client that writes a whole word inside its own payload keeps the heap valid and the live blocks the same |
| `BoundaryTagHeap.StepBackUndoesStepForward` | books/a_heavily_commented_linux_kernel_source_code/chapter05_linux_kernel_architecture/malloc_implicit_list_biredirectional.c:41-42 | PREV_BLOCK of NEXT_BLOCK is the block itself, at every block |
| `ImplicitListHeap.BlockSizeFor` | books/a_heavily_commented_linux_kernel_source_code/chapter05_linux_kernel_architecture/malloc_singly_linked_list.c:84-85 | the least aligned size with room for the request and its header |
| `ImplicitListHeap.Hunt` | books/a_heavily_commented_linux_kernel_source_code/chapter05_linux_kernel_architecture/malloc_singly_linked_list.c:86 | a successful search yields a free block that is large enough |
| `ImplicitListHeap.MallocTakesFirstRun` | books/a_heavily_commented_linux_kernel_source_code/chapter05_linux_kernel_architecture/malloc_singly_linked_list.c:79-104 | mmalloc takes the leftmost run of free blocks that holds the request and its header, merged only as far as needed, and leaves the rest of it as one free block; it grows the heap by the least aligned size exactly when no run is large enough, and then no two free neighbours remain |
| `ImplicitListHeap.Heap.FindFit` | books/a_heavily_commented_linux_kernel_source_code/chapter05_linux_kernel_architecture/malloc_singly_linked_list.c:51-77 | terminates on every tiled heap; the memory, the blocks and the returned header are those of the search |
| `ImplicitListHeap.Heap.Sbrk` | books/a_heavily_commented_linux_kernel_source_code/chapter05_linux_kernel_architecture/malloc_singly_linked_list.c:98 | fresh memory directly above the break, everything below it unchanged |
| `ImplicitListHeap.Heap.Take` | books/a_heavily_commented_linux_kernel_source_code/chapter05_linux_kernel_architecture/malloc_singly_linked_list.c:87-95 | whatever the request leaves over becomes a free block; every live word is as it was |
| `ImplicitListHeap.Heap.Grow` | books/a_heavily_commented_linux_kernel_source_code/chapter05_linux_kernel_architecture/malloc_singly_linked_list.c:96-101 | growing the heap appends one used block and moves the break by its size |
| `ImplicitListHeap.Heap.Malloc` | books/a_heavily_commented_linux_kernel_source_code/chapter05_linux_kernel_architecture/malloc_singly_linked_list.c:79-104 | the blocks tile break_start to break_end; one new live block appears at the fit, with room for the request; no store overlaps any other live block; the break moves only on a miss, by the block's size |
| `ImplicitListHeap.Heap.Free` | books/a_heavily_commented_linux_kernel_source_code/chapter05_linux_kernel_architecture/malloc_singly_linked_list.c:106-110 | only the in-use bit of the freed block's header changes, and exactly that block stops being live |
| `ImplicitListHeap.Heap.WritePayload` | books/a_heavily_commented_linux_kernel_source_code/chapter05_linux_kernel_architecture/malloc_singly_linked_list.c:103 | a client that writes a whole word inside its own payload keeps the heap valid and the live blocks the same |
| `ImplicitListHeap.CutFits` | books/a_heavily_commented_linux_kernel_source_code/chapter05_linux_kernel_architecture/malloc_singly_linked_list.c:89-94 | after the split memory is tiled by the new list, with the same span; no store overlaps a live block |
| `ImplicitListHeap.Settles` | books/a_heavily_commented_linux_kernel_source_code/chapter05_linux_kernel_architecture/malloc_singly_linked_list.c:86-95 | search and placement together: one new live block where none was, and no store overlaps a live block |
| `ImplicitListHeap.FreedTiled` | books/a_heavily_commented_linux_kernel_source_code/chapter05_linux_kernel_architecture/malloc_singly_linked_list.c:106-110 | after mfree's store memory is tiled by the list with that block free |
| `ThreadPoolProofs.MutexKept` | books/ldxcfwqbc/04_cpp_multi_threading_programming/thread_pool.cpp:80-130 | at every step at most one thread holds the mutex, and it is the one whose program point says so |
| `ThreadPoolProofs.DecidedKept` | books/ldxcfwqbc/04_cpp_multi_threading_programming/thread_pool.cpp:80-130 | the queue is within its bound, and a thread about to sleep or past its wait still has the reason for it |
| `ThreadPoolProofs.StoppingKept` | books/ldxcfwqbc/04_cpp_multi_threading_programming/thread_pool.cpp:57-70 | once stop has the mutex nobody is about to sleep; each notify_all empties its side; joined workers have exited |
| `ThreadPoolProofs.InOrderKept` | books/ldxcfwqbc/04_cpp_multi_threading_programming/thread_pool.cpp:97-126 | accepted tasks are the taken ones followed by the queued ones, without repeats, and are those of the calls past the push |
| `ThreadPoolProofs.BalanceKept` | books/ldxcfwqbc/04_cpp_multi_threading_programming/thread_pool.cpp:114-149 | a taken task is in one worker's hands, has run, or was dropped, and only a stopped pool drops |
| `ThreadPoolProofs.WakeupKept` | books/ldxcfwqbc/04_cpp_multi_threading_programming/thread_pool.cpp:88-127 | every step keeps sleepers covered by threads on their way or notifications still owed |
| `ThreadPoolProofs.StepKeepsInv` | books/ldxcfwqbc/04_cpp_multi_threading_programming/thread_pool.cpp:42-147 | every step of every thread keeps all of the above |
| `ThreadPoolProofs.EveryRunKeepsInv` | books/ldxcfwqbc/04_cpp_multi_threading_programming/thread_pool.cpp:42-147 | all of the above at every state of every run |
| `ThreadPoolProofs.QueueStaysBounded` | books/ldxcfwqbc/04_cpp_multi_threading_programming/thread_pool.cpp:89-98 | the queue never exceeds its fixed bound, although _running changes outside the mutex |
| `ThreadPoolProofs.EachTaskInOnePlace` | books/ldxcfwqbc/04_cpp_multi_threading_programming/thread_pool.cpp:80-149 | an accepted task is exactly one of queued, held, run once or dropped; a rejected one is nowhere; drops happen only after _running is false; tasks are taken in order of acceptance |
| `ThreadPoolProofs.RightlyEndedKept` | books/ldxcfwqbc/04_cpp_multi_threading_programming/thread_pool.cpp:80-103 | no step lets a call of run be turned away by a running pool, or bypass the workers when there are any |
| `ThreadPoolProofs.CallsEndRightly` | books/ldxcfwqbc/04_cpp_multi_threading_programming/thread_pool.cpp:80-103 | a call of run that has returned has run its task itself exactly when there are no workers, was turned away only after stop had cleared _running, and has queued its task exactly when it was accepted |
| `ThreadPoolProofs.NothingBeginsAfterStop` | books/ldxcfwqbc/04_cpp_multi_threading_programming/thread_pool.cpp:140-152 | once _running is cleared no task is begun, and a worker that was running a task or at the top of its loop takes no other |
| `ThreadPoolProofs.NoWakeupIsLost` | books/ldxcfwqbc/04_cpp_multi_threading_programming/thread_pool.cpp:80-130 | while the pool runs, if a worker sleeps then the queued tasks number at most the workers on their way plus the notify_one calls still owed; dually for callers and free places |
| `ThreadPoolProofs.NobodySleepsAfterStop` | books/ldxcfwqbc/04_cpp_multi_threading_programming/thread_pool.cpp:57-70 | after both notify_all calls no thread is asleep on either condition variable, then and ever after |
| `ThreadPoolProofs.QuiescentThreads` | books/ldxcfwqbc/04_cpp_multi_threading_programming/thread_pool.cpp:80-130 | when nothing can move by itself the mutex is free and every thread is asleep, finished or exited |
| `ThreadPoolProofs.RunningPoolRestsIdle` | books/ldxcfwqbc/04_cpp_multi_threading_programming/thread_pool.cpp:80-147 | a running pool with workers and a positive bound comes to rest only with an empty queue, all calls returned and all workers waiting for work |
| `ThreadPoolProofs.StoppingPoolRestsStopped` | books/ldxcfwqbc/04_cpp_multi_threading_programming/thread_pool.cpp:57-70 | a pool told to stop comes to rest only with stop returned, all workers exited and all calls returned |
| `ThreadPoolAlone.CallByItself` | books/ldxcfwqbc/04_cpp_multi_threading_programming/thread_pool.cpp:80-103 | a call of run that nobody interferes with queues its task when the pool runs and has room, sleeps when it runs and is full, and is turned away when it has been stopped |
| `ThreadPoolAlone.CallWithoutWorkers` | books/ldxcfwqbc/04_cpp_multi_threading_programming/thread_pool.cpp:82-85 | without workers the caller runs the task itself |
| `ThreadPoolAlone.WorkerByItself` | books/ldxcfwqbc/04_cpp_multi_threading_programming/thread_pool.cpp:116-152 | a worker that nobody interferes with takes the oldest task and runs it, or drops it and leaves when the pool has been stopped; without a task it sleeps in a running pool and leaves a stopped one |
| `ThreadPoolAlone.LoopTop` | books/ldxcfwqbc/04_cpp_multi_threading_programming/thread_pool.cpp:140 | at the top of its loop a worker goes on exactly when the pool runs |
| `ThreadPoolAlone.StopByItself` | books/ldxcfwqbc/04_cpp_multi_threading_programming/thread_pool.cpp:57-65 | stop that nobody interferes with clears _running, wakes everybody on both conditions and goes on to join |
| `ThreadPoolAlone.StopReturns` | books/ldxcfwqbc/04_cpp_multi_threading_programming/thread_pool.cpp:66-69 | stop returns once every worker has left its loop |
| `RteRing.WrappedDistance` | cpp/cpp_coding/ring_buffer/rte_ring_buffer.cpp:44 | 32-bit subtraction gives the true distance, across overflow |
| `RteRing.SameWordNear` | cpp/cpp_coding/ring_buffer/rte_ring_buffer.cpp:57 | counters with the same 32-bit word and less than 2^32 apart are equal |
| `RteRing.SlotsDiffer` | cpp/cpp_coding/ring_buffer/rte_ring_buffer.cpp:64 | tickets less than a capacity apart have different slots |
| `RteRing.IndexRepeats` | cpp/cpp_coding/ring_buffer/rte_ring_buffer.cpp:64 | a ticket one capacity later has the same slot |
| `RteRing.IndexIsRemainder` | cpp/cpp_coding/ring_buffer/rte_ring_buffer.cpp:64 | masking gives the ticket modulo the capacity |
| `RteRing.OneSlotWritten` | cpp/cpp_coding/ring_buffer/rte_ring_buffer.cpp:64 | writing the slot of one ticket leaves the slots of all other tickets of a capacity-wide window alone |
| `RteRing.MaskingTheWord` | cpp/cpp_coding/ring_buffer/rte_ring_buffer.cpp:64 | masking the 32-bit word names the same slot as masking the ticket |
| `RteRingProofs.KeepsExactlyInTurn` | cpp/cpp_coding/ring_buffer/rte_ring_buffer.cpp:31-133 | a step of any thread in any mode keeps the ring sound if and only if a claim that goes through finds room (or an element) and a publication that goes through comes when the tail stands at its ticket |
| `RteRingProofs.RunsAreSoundExactlyInTurn` | cpp/cpp_coding/ring_buffer/rte_ring_buffer.cpp:66-79 | a run of any length and any number of threads is sound throughout if and only if all its claims and publications come in turn |
| `RteRingProofs.WaitingStepsAreInTurn` | cpp/cpp_coding/ring_buffer/rte_ring_buffer.cpp:40-79 | when publication waits for its own ticket every step is in turn, as long as no thread is lapped by 2^32 claims between load and exchange |
| `RteRingProofs.WaitingRunsAreSound` | cpp/cpp_coding/ring_buffer/rte_ring_buffer.cpp:31-133 | for any number of producers and consumers with in-order publication: cons.tail <= cons.head <= prod.tail <= prod.head <= cons.tail + capacity at every state, nothing undefined happens, and each pop gets the value pushed under its ticket |
| `RteRingProofs.InFlightSlotsDiffer` | cpp/cpp_coding/ring_buffer/rte_ring_buffer.cpp:63-64 | no two operations in flight, on either side, work on the same slot |
| `RteRingProofs.FreshProducerClaim` | cpp/cpp_coding/ring_buffer/rte_ring_buffer.cpp:44-57 | a head that has not moved since it was loaded finds the room its loads promised |
| `RteRingProofs.FreshConsumerClaim` | cpp/cpp_coding/ring_buffer/rte_ring_buffer.cpp:95-108 | a head that has not moved since it was loaded finds the element its loads promised |
| `RteRingProofs.SoloStepsAreInTurn` | cpp/cpp_coding/ring_buffer/rte_ring_buffer.cpp:40-132 | with one producer and at most one consumer every step is in turn, in the ST branch and in the MT branch as written |
| `RteRingProofs.SoloRunsAreSound` | cpp/cpp_coding/ring_buffer/rte_ring_buffer.cpp:150-181 | with one producer and at most one consumer every run is sound in all modes, however often the 32-bit counters overflow |
| `RteRingProofs.PushRefinesFifo` | cpp/cpp_coding/ring_buffer/rte_ring_buffer.cpp:66-79 | whatever other threads are doing, a push that publishes in turn appends its value to a queue with room, and no other step of a producer changes the queue |
| `RteRingProofs.PopRefinesFifo` | cpp/cpp_coding/ring_buffer/rte_ring_buffer.cpp:117-130 | whatever other threads are doing, a pop that releases in turn takes the front value, and no other step of a consumer changes the queue |
| `RteRingProofs.PushGivesUpExactly` | cpp/cpp_coding/ring_buffer/rte_ring_buffer.cpp:41-48 | in every sound state, with any number of threads, push gives up if and only if the head it loaded has the 32-bit word of the head of a full ring; with less than 2^32 between the two, if and only if the ring is full at its load of cons.tail and the loaded head is still current |
| `RteRingProofs.PopGivesUpExactly` | cpp/cpp_coding/ring_buffer/rte_ring_buffer.cpp:92-99 | in every sound state pop gives up if and only if the head it loaded has the 32-bit word of prod.tail; with less than 2^32 between the two, if and only if the ring is empty at its load of prod.tail and the loaded head is still current |
| `RteRingProofs.SoloPushRefinesFifo` | cpp/cpp_coding/ring_buffer/rte_ring_buffer.cpp:31-82 | a push appends one value to a queue of at most capacity values, and fails exactly when its load of cons.tail shows the queue full |
| `RteRingProofs.SoloPopRefinesFifo` | cpp/cpp_coding/ring_buffer/rte_ring_buffer.cpp:84-133 | a pop takes the front value, and fails exactly when the queue is empty at its load of prod.tail |
| `RteRingRuns.Pushes` | cpp/cpp_coding/ring_buffer/rte_ring_buffer.cpp:31-82 | from any sound state with room in which no push is under way, one whole push can run to its end, moves both producer counters by one and appends its value |
| `RteRingRuns.Pops` | cpp/cpp_coding/ring_buffer/rte_ring_buffer.cpp:84-133 | from any sound state with an element in which no pop is under way, one whole pop can run to its end, moves both consumer counters by one and gets the front element |
| `RteRingRuns.RetriesPush` | cpp/cpp_coding/ring_buffer/rte_ring_buffer.cpp:40-79 | a push that has lost the compare-exchange on the head, left alone, takes the next ticket with the value of its call and returns, when there is room and it was not lapped |
| `RteRingRuns.RetriesPop` | cpp/cpp_coding/ring_buffer/rte_ring_buffer.cpp:91-130 | a pop that has lost the compare-exchange on the head, left alone, takes the next element and returns |
| `RteRingRuns.PublishingOutOfTurnReadsRawSlot` | cpp/cpp_coding/ring_buffer/rte_ring_buffer.cpp:67-79 | for every capacity from 2 to 2^31 and all numbers of at least two producers and one consumer the MT branch has a run in which the retry with the overwritten expected value publishes a slot not yet written, and a pop reads it |
| `RteRingRuns.ReleasingOutOfTurnOverwrites` | cpp/cpp_coding/ring_buffer/rte_ring_buffer.cpp:117-130 | the same on the other side: for all numbers of at least one producer and two consumers the retry releases a slot that still holds its element, and a push constructs over it |
| `RteRingRuns.LappedClaimOverwrites` | cpp/cpp_coding/ring_buffer/rte_ring_buffer.cpp:40-64 | even with in-order publication, at every capacity, a producer delayed between its loads and its compare-exchange while exactly 2^32 claims go by claims on a full ring and constructs over a live element |
| `RteRingRuns.LappedClaimReadsRawSlot` | cpp/cpp_coding/ring_buffer/rte_ring_buffer.cpp:91-114 | a consumer delayed in the same way claims on an empty ring and reads a raw slot |
| `RteRingConfigurations.SoundConfigurations` | cpp/cpp_coding/ring_buffer/rte_ring_buffer.cpp:31-133 | in each mode, for each capacity up to 2^31 and all numbers of producers and consumers: every run is sound if and only if there is no producer, or one producer and at most one consumer, or no consumer and publications in order or a single slot |
| `RteRingConfigurations.RacesAreTheTrouble` | cpp/cpp_coding/ring_buffer/rte_ring_buffer.cpp:66-79 | when no thread is lapped, the MT branch as written is sound if and only if there is a single slot, or no producer, or one producer and at most one consumer, while in-order publication is sound for all numbers of threads |
| `RteRingConfigurations.NoConsumersInTurn` | cpp/cpp_coding/ring_buffer/rte_ring_buffer.cpp:40-79 | without consumers every step is in turn when publications are in order or the ring has a single slot |
| `RteRingConfigurations.OneSlotInTurn` | cpp/cpp_coding/ring_buffer/rte_ring_buffer.cpp:66-79 | at a ring with a single slot the MT branch as written is in turn as long as no thread is lapped |
| `RteRingConfigurations.OversizedExactly` | cpp/cpp_coding/ring_buffer/rte_ring_buffer.cpp:44-48 | the room of an empty ring, as the program computes it, is zero if and only if the capacity is 2^32 or more |
| `RteRingConfigurations.OversizedRunsAreStuck` | cpp/cpp_coding/ring_buffer/rte_ring_buffer.cpp:40-48 | with a capacity of 2^32 or more no run of any mode or number of threads ever gets past its first test: all four counters stay zero |
| `RteRingConfigurations.TakesValuesExactlyBelowWrap` | cpp/cpp_coding/ring_buffer/rte_ring_buffer.cpp:40-79 | a ring with a producer has a run that publishes a value if and only if its capacity is below 2^32 |
| `RteRingFailures.PushFailsOnEmptyRing` | cpp/cpp_coding/ring_buffer/rte_ring_buffer.cpp:41-48 | in every mode, at every capacity up to 2^31, with at least two producers and a consumer: a run, sound throughout, in which 2^32 minus capacity values pass between a push's two loads and it returns false on an empty ring |
| `RteRingFailures.PopFailsOnFullRing` | cpp/cpp_coding/ring_buffer/rte_ring_buffer.cpp:92-99 | the same for pop, with at least two consumers and a producer: it returns false on a full ring |
| `RteRingFailures.PushFailureMeansFull` | cpp/cpp_coding/ring_buffer/rte_ring_buffer.cpp:41-48 | in each mode and for each capacity up to 2^31, a push that fails in a sound state always meets a full ring if and only if there is at most one producer or no consumer |
| `RteRingFailures.PopFailureMeansEmpty` | cpp/cpp_coding/ring_buffer/rte_ring_buffer.cpp:92-99 | a pop that fails in a sound state always meets an empty ring if and only if there is at most one consumer or no producer |
| `RteRingFailures.SingleProducersOverwrite` | cpp/cpp_coding/ring_buffer/rte_ring_buffer.cpp:51-64 | more than one producer in the ST branch: a run in which two claim the same ticket and the second constructs over the element of the first |
| `RteRingFailures.SingleConsumersReadRawSlot` | cpp/cpp_coding/ring_buffer/rte_ring_buffer.cpp:102-115 | more than one consumer in the ST branch: a run in which two claim the same ticket and the second moves out of the slot that the first has destroyed |
| `RteRingFailures.FillingStays` | cpp/cpp_coding/ring_buffer/rte_ring_buffer.cpp:40-79 | without consumers and with claims by compare-exchange every ticket is claimed once and below the capacity and its slot is raw until written, however the tail is published |
| `RteRingFailures.FaultFreeConfigurations` | cpp/cpp_coding/ring_buffer/rte_ring_buffer.cpp:31-133 | for every mode, capacity and number of threads: no run constructs over a live element or reads or destroys a raw slot if and only if there is no producer, or one producer and at most one consumer, or no consumer and claims by compare-exchange, or a capacity of 2^32 or more |
| `RteRingHistory.CarriesItsCall` | cpp/cpp_coding/ring_buffer/rte_ring_buffer.cpp:31-64 | in every run, however often its exchange fails, a push goes on with the value of its own last call |
| `RteRingHistory.LogIsTheCalls` | cpp/cpp_coding/ring_buffer/rte_ring_buffer.cpp:57-64 | in every run the values claimed are those of the push calls that claimed, once per claim and in the order of the claims |
| `RteRingHistory.FaultIsTheHistory` | cpp/cpp_coding/ring_buffer/rte_ring_buffer.cpp:63-64 | a run counts as faulty exactly when one of its steps has constructed over a live element or moved out of or destroyed a raw slot |
| `RteRingHistory.GotIsTheHistory` | cpp/cpp_coding/ring_buffer/rte_ring_buffer.cpp:115 | the values kept for the tickets are those that were moved out of their slots |
| `RteRingHistory.PushReturns` | cpp/cpp_coding/ring_buffer/rte_ring_buffer.cpp:40-82 | in every run a push returns only at its test of the room, having claimed nothing, or at its publication, having claimed exactly one ticket |
| `RteRingHistory.PopReturns` | cpp/cpp_coding/ring_buffer/rte_ring_buffer.cpp:91-133 | in every run a pop returns only at its test, having claimed nothing, or at its release, having claimed exactly one element |
| `RteRingHistory.TicketIsItsCall` | cpp/cpp_coding/ring_buffer/rte_ring_buffer.cpp:57-79 | in a sound run the ticket a push holds stands for the value of its call |
| `RteRingHistory.RunsAreFifo` | cpp/cpp_coding/ring_buffer/rte_ring_buffer.cpp:31-133 | in every sound run the values returned by pops are a prefix of the values of the push calls that have returned true, in the order of their returns, and the ring holds the rest, at most its capacity |
| `RteRingHistory.WaitingRunsAreFifo` | cpp/cpp_coding/ring_buffer/rte_ring_buffer.cpp:31-133 | so in every run with in-order publication in which no thread is lapped, for any number of threads |
| `RteRingHistory.SoloRunsAreFifo` | cpp/cpp_coding/ring_buffer/rte_ring_buffer.cpp:150-181 | and in every run with one producer and at most one consumer, in every mode |
| `PidTable.HlistAddHead` | books/understanding_linux_kernel/chapter03_processes/hlist_head.cpp:41-51 | the bucket's cells spell out the chain with the new node in front, every pprev naming the one cell that points to its node |
| `PidTable.HlistDel` | books/understanding_linux_kernel/chapter03_processes/hlist_head.cpp:53-63 | exactly the given node leaves its chain, the links and back references of the rest staying right, and no other bucket changes |
| `PidTable.Table.CreateProcess` | books/understanding_linux_kernel/chapter03_processes/hlist_head.cpp:73-80 | a new process joins the live ones as the newest |
| `PidTable.Table.FindProcess` | books/understanding_linux_kernel/chapter03_processes/hlist_head.cpp:82-95 | returns the live process with the pid that has no newer one with that pid before it in the list, or null when there is none |
| `PidTable.Table.DelProcess` | books/understanding_linux_kernel/chapter03_processes/hlist_head.cpp:97-105 | deletes exactly the newest live process with the pid, and nothing when there is none |
| `PidTable.Table.Release` | books/understanding_linux_kernel/chapter03_processes/hlist_head.cpp:102-103 | unlinking and deleting a live process takes exactly it out |
| `PidTable.Table.FreeBucket` | books/understanding_linux_kernel/chapter03_processes/hlist_head.cpp:132-139 | one bucket is emptied node by node, the others keep their chains |
| `PidTable.Table.FreeTable` | books/understanding_linux_kernel/chapter03_processes/hlist_head.cpp:128-141 | every live process is unlinked and deleted exactly once, and the table is empty |
| `PidTable.NewestInBucket` | books/understanding_linux_kernel/chapter03_processes/hlist_head.cpp:84-93 | searching the pid's bucket alone finds the same process as searching the whole list |
| `PidTable.NewestIsNewest` | books/understanding_linux_kernel/chapter03_processes/hlist_head.cpp:82-95 | what is found has the pid and no live process with that pid is newer; nothing is found only when no live process has it |
| `PidTable.NewestIsLive` | books/understanding_linux_kernel/chapter03_processes/hlist_head.cpp:82-95 | what is found is live and has the pid, and nothing is found only when no live process has it |
| `PidTable.InBucketWithout` | books/understanding_linux_kernel/chapter03_processes/hlist_head.cpp:97-105 | taking a process out changes its own bucket's chain only |
| `PidTable.ChainWithout` | books/understanding_linux_kernel/chapter03_processes/hlist_head.cpp:53-63 | the node to delete is in its bucket's chain, once, and the chain without it is the bucket's chain afterwards |
| `NewsFeed.Twitter.PostTweet` | books/system_design_interview/chapter11_news_feed_system/tweeter.cpp:20-23 | appends the post to the user's table and makes the user follow itself; times that do not run backwards keep the tables chronological |
| `NewsFeed.Twitter.Follow` | books/system_design_interview/chapter11_news_feed_system/tweeter.cpp:50-54 | adds the followee and both self-follows, and nothing else |
| `NewsFeed.Twitter.Unfollow` | books/system_design_interview/chapter11_news_feed_system/tweeter.cpp:56-58 | removes the followee from that follower only |
| `NewsFeed.Twitter.GetNewsFeed` | books/system_design_interview/chapter11_news_feed_system/tweeter.cpp:25-48 | terminates with exactly min(10, total) distinct posts of the followees; for non-decreasing post times newest first and with no omitted post newer than a shown one; the stored tables and follow sets keep their contents |
| `NewsFeed.Twitter.CollectLatest` | books/system_design_interview/chapter11_news_feed_system/tweeter.cpp:27-35 | the queue starts with every followee's newest post |
| `NewsFeed.TakeNext` | books/system_design_interview/chapter11_news_feed_system/tweeter.cpp:37-45 | popping a latest entry and pushing that user's next post keeps feed and queue a split of all posts, and the feed sorted |
| `NewsFeed.SortedStep` | books/system_design_interview/chapter11_news_feed_system/tweeter.cpp:38-41 | taking a latest entry keeps the feed newest first and complete |
| `NewsFeed.LatestExists` | books/system_design_interview/chapter11_news_feed_system/tweeter.cpp:38 | a non-empty queue has a top |
| `NewsFeed.TakenCount` | books/system_design_interview/chapter11_news_feed_system/tweeter.cpp:37 | the loop stops with ten posts or with all of them |
| `NewsFeed.FeedIsTopOfSorted` | books/system_design_interview/chapter11_news_feed_system/tweeter.cpp:25-48 | the merge agrees with sorting everything and taking the first ten: the k-th post shown has the time of the k-th post of any sorted list of all posts |
| `NewsFeed.FeedIsPrefixOfSorted` | books/system_design_interview/chapter11_news_feed_system/tweeter.cpp:25-48 | with distinct times the feed is exactly the first part of the sorted list |
| `SpscRing.Ring.constructor` | cpp/cpp_coding/ring_buffer/ring_buffer.cpp:25 | an empty ring |
| `SpscRing.Ring.PushTest` | cpp/cpp_coding/ring_buffer/ring_buffer.cpp:63-69 | push fails exactly when the ring holds capacity - 1 elements at its load of head |
| `SpscRing.Ring.PushConstruct` | cpp/cpp_coding/ring_buffer/ring_buffer.cpp:71 | an element is constructed over raw storage |
| `SpscRing.Ring.PushPublish` | cpp/cpp_coding/ring_buffer/ring_buffer.cpp:72 | the contents grow by the constructed element at the back |
| `SpscRing.Ring.PopTest` | cpp/cpp_coding/ring_buffer/ring_buffer.cpp:78-83 | pop fails exactly when the ring was empty at its load of tail |
| `SpscRing.Ring.PopMove` | cpp/cpp_coding/ring_buffer/ring_buffer.cpp:85 | the value moved out is the front of the contents, from a constructed slot |
| `SpscRing.Ring.PopDestroy` | cpp/cpp_coding/ring_buffer/ring_buffer.cpp:86 | the moved-out element is destroyed, the next in construction order |
| `SpscRing.Ring.PopPublish` | cpp/cpp_coding/ring_buffer/ring_buffer.cpp:88 | the contents lose the popped value at the front |
| `SpscRing.Ring.Destroy` | cpp/cpp_coding/ring_buffer/ring_buffer.cpp:27-36 | every element constructed has been destroyed exactly once, in construction order, and every slot is raw |
| `SpscRing.BuildKeeps` | cpp/cpp_coding/ring_buffer/ring_buffer.cpp:71 | constructing in the slot at tail leaves every other live slot alone |
| `SpscRing.ClearKeeps` | cpp/cpp_coding/ring_buffer/ring_buffer.cpp:85-86 | destroying the slot at head leaves every other live slot alone |
| `TwoLockQueue.StepKeepsInv` | cpp/cpp_coding/thread_pool/thread_pool.cpp:27-61 | at every step the values pushed are the popped ones, then the consumer queue, then the producer queue |
| `TwoLockQueue.RunsAreFifo` | cpp/cpp_coding/thread_pool/thread_pool.cpp:27-61 | in every interleaving values come out in push order, none lost and none twice, and a swap meets an empty consumer queue |
| `TwoLockQueue.HistoryIsTheCalls` | cpp/cpp_coding/thread_pool/thread_pool.cpp:27-53 | in every run the values pushed are those of the push calls, once each and in order, and non-blocking mode is on exactly from the first cancel |
| `TwoLockQueue.PopAlone` | cpp/cpp_coding/thread_pool/thread_pool.cpp:35-61 | a pop that nobody interferes with returns the oldest value there is; when there is none it returns false in non-blocking mode and otherwise goes to sleep |
| `TwoLockQueue.CallsEndWithResult` | cpp/cpp_coding/thread_pool/thread_pool.cpp:35-46 | a call of pop ends only by returning a value or false |
| `TwoLockQueue.PopReturnsNextPushed` | cpp/cpp_coding/thread_pool/thread_pool.cpp:38-46 | at every pop of every run: one that has given up takes and returns nothing, any other returns the value pushed in the place the earlier pops had reached |
| `TwoLockQueue.FalseOnlyWhenEmpty` | cpp/cpp_coding/thread_pool/thread_pool.cpp:35-46 | pop returns false only in non-blocking mode, after a swap_queue call of the same call of pop that found everything pushed already popped |
| `LockfreeSingleton.StepKeepsInv` | books/cpp_concurrency_in_action/05_synchronizing_concurrent_operations/lockfree_singleton.cpp:18-44 | every step keeps each object cached, with its creator, or deleted |
| `LockfreeSingleton.CachedOnce` | books/cpp_concurrency_in_action/05_synchronizing_concurrent_operations/lockfree_singleton.cpp:32 | cached_object changes at most once |
| `LockfreeSingleton.LateCallsAllocateNothing` | books/cpp_concurrency_in_action/05_synchronizing_concurrent_operations/lockfree_singleton.cpp:20-22 | a call that starts when the object is there never allocates one |
| `LockfreeSingleton.ReturnsAlone` | books/cpp_concurrency_in_action/05_synchronizing_concurrent_operations/lockfree_singleton.cpp:18-44 | however often its exchange has failed, a call left alone returns within four steps, with the cached object if there is one and otherwise with one of its own |
| `LockfreeSingleton.AllGetTheSame` | books/cpp_concurrency_in_action/05_synchronizing_concurrent_operations/lockfree_singleton.cpp:18-44 | all calls return the same object, whenever they return, and it is never deleted |
| `LockfreeSingleton.CreatorsDelete` | books/cpp_concurrency_in_action/05_synchronizing_concurrent_operations/lockfree_singleton.cpp:36-40 | a deletion is by the thread that allocated the object, and of an object not deleted before |
| `LockfreeSingleton.NothingLeaks` | books/cpp_concurrency_in_action/05_synchronizing_concurrent_operations/lockfree_singleton.cpp:23-40 | when all calls have returned, every object but the cached one has been deleted exactly once |
| `CowList.Board.Post` | books/ldxcfwqbc/02_thread_synchronization/cow.cpp:19-27 | the post joins the full history in mutex order, in place exactly when no reader holds the list and otherwise in a copy; no list held by a reader changes |
| `CowList.Board.TakeView` | books/ldxcfwqbc/02_thread_synchronization/cow.cpp:31-36 | the view is the list with the full history, and the list is then shared |
| `CowList.Board.ReleaseView` | books/ldxcfwqbc/02_thread_synchronization/cow.cpp:43 | letting go of a view removes only that holder |
| `CowList.Board.OthersAct` | books/ldxcfwqbc/02_thread_synchronization/cow.cpp:19-43 | whatever other threads do - post, take views, let go of theirs - a held view stays the same list with the same elements, the history grows by their posts, and exactly their views come and go |
| `CowList.Board.Visit` | books/ldxcfwqbc/02_thread_synchronization/cow.cpp:39-49 | one visit sees the element the view had when it was taken, and adds its post behind those of the other threads |
| `CowList.Board.Traverse` | books/ldxcfwqbc/02_thread_synchronization/cow.cpp:29-43 | visits exactly the elements present when the view was taken, in order, and ends, although the end is looked up anew on every pass, every visit posts an element, and other threads post and begin and end their own traversals in between |

## Left out

- mrealloc in both allocators: one has no body, and the other reads the block size through the payload pointer.
- sbrk failure, memory placed elsewhere than directly above the break, and size_t overflow of requests: sbrk always succeeds, is used by nobody else, and sizes are unbounded.
- Misaligned access: a word is read and written at one address as a unit, and a changed entry of the memory map stands for a store there. What is said to be kept is said of every word that shares a byte with it, so that no store overlaps it; the value that a word read across a stored one would have is not modelled. `HeadersAligned` shows that block boundaries never cut a word of the heap's own.
- Misuse of the allocators (freeing twice, freeing a pointer that was not handed out, writing outside a payload) is excluded by preconditions, as the code does not check for it.
- The form of the thread pool, the DPDK-style ring, the two-lock queue and the singleton: they are step machines on values, because Dafny has no threads. Mutable objects, aliasing and destruction of the objects themselves are not modelled.
- Weak memory: steps are sequentially consistent, and acquire and release orders are taken as given.
- Thread pool: thread creation, the init callback, exceptions from tasks, tasks that call run or stop themselves, a change of the queue bound after start, and the destructor. A run starts when start has returned, and stop is called once.
- Whether a runnable thread is ever scheduled: the results on the pool coming to rest are about states in which nothing can move, not about fairness.
- Two-lock queue: lost wake-ups (push notifies without the waiter's mutex), the worker loop without an exit, and SPMCBlockingQueue, which is simpler.
- Elements of the rings and queues are integers; copying and moving them cannot fail.
- SPSC ring: size() and full(), which read head twice.
- hash_long and view_table: the hash is a parameter, and the listing is output only.
- News feed: system_clock is a parameter of PostTweet; for clocks that run backwards only the count, the membership and the distinctness of the posts are claimed. The order in which followees are collected is left open.
- Copy-on-write list: a thread holds at most one view at a time, a post is one step (a view released between its check and its copy only makes the copy superfluous), and freeing a list that nobody holds any more is not modelled.
- Singleton: the count in the constructor, which is not atomic, and allocation failure.
- Everything else in the repository: language demos, scripts, network and asynchronous I/O, generated stubs, and simpler containers.
