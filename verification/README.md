# Verification of the memflux allocator and reclaim engine

This project models the two parts of memflux with the most state and proves what they are for.

* **The interposed allocator** (`src/alloc/preload.cpp`): size-class runs carved from a bump-allocated
  reserve, a word bitmap and counters per run, an intrusive list per class, per-thread caches that are used
  without a lock, and a trim thread that discards pages and unmaps runs while `free` reads run headers
  unlocked.
* **The reclaim engine** (`src/core/engine.cpp`) with its sampler (`src/core/workingset.cpp`): a per-process
  state machine (samples, cooldown) driven by two kinds of cycle that score, sort, act under caps and apply
  cooldowns.

## How it is built

The allocator has three layers, each tied to the next.

1. *Objects updated in place.* `Run` (bitmap in an `array<bv64>`, data in an `array<bv8>`), `ClassState` (the
   doubly linked list through the runs' own `next` and `prev`), `AddressReserve`. Their methods contain the
   source's loops and are proved against functions on values in `RunSpec`, `SizeClasses` and `Reserve`. The
   bit tricks are proved to be set operations in `Bitmap`.
2. *The shared state as a value* (`HeapSpec`): mappings, runs, lists, counters, large headers, bytes. Its
   operations do to a class exactly what the methods of layer 1 promise (`HeapProofs.TakeIsAllocate`,
   `Agreement`), and keep it consistent (`HeapProofs`).
3. *The step system* (`Protocol`): any number of threads doing malloc, free and exit, and the trimmer, with a
   step for every cache access, unlocked header test, lock operation and critical section. `ProtocolInv`,
   `ProtocolSteps` and `ProtocolHeapSteps` prove one inductive invariant; `Guarantees`, `Timing`, `TrimSweep`
   and `Integrity` draw the results about every interleaving, `TrimPass` those about a whole pass of the trimmer, and
   `Moving` those about realloc's copy. Steps are
   defined in states that are `Sound`: what threads hold or carry is issued, and the run or large header a thread
   is about to use is live. `Guarantees.ArisesSound` shows that every reachable state is. `Sound` does not cover
   the header probed for a large pointer, nor the one read after `munmap`; those have their own results below.
   `Progress` shows that locks alone never bring the system to a halt, and that an undisturbed malloc or free goes
   through, `ThreadExit` the same of a thread's exit. `Reaching`, `Failures` and `Wrapping` drive the system into the states where it does less than it
   promises. A run of the system is made of *orderly* steps: no addition to the 64-bit bump pointer wraps around,
   and no large region is too small for its request. The code does not see to this by itself; that exactly the
   orderly steps leave the reserve in order is `Wrapping.OrderlyIff`.

`Api` proves malloc, free, calloc and realloc as one thread sees them, with byte contents; `Answers` says exactly what they
answer, read off the heap. `Ownership` is the
address arithmetic that decides which branch a pointer takes.

The engine is a class (`Engine.ReclaimEngine`) with the source's loops, proved against the functions of
`EngineSpec`. `EngineCycle` states what one cycle does on what it observes: when it pauses and acts, how each process is
scored, whom it tries, what becomes of the cooldowns. `EngineProofs` proves what follows over any sequence of cycles, with
everything a cycle observes as an arbitrary input. `Sampler` is the chunked pagemap count, with what every seek and read
delivers as an input.

## Where the code does less than its comments say

Each of these is stated exactly, and those that concern the whole system come with a run that reaches the failing
state.

* The purge is said never to touch a live block (`src/alloc/preload.cpp:351-353`, and lines 158-159
  of the repository's `README.md`). In all reachable states the trimmer spares every byte of every live block of a
  class if and only if its block size divides 4096 or is at least 4096 (`Failures.ClassSparedIff`). For any other
  class, whatever the idle times, filling page 0 and one block more and freeing all but that block makes the next
  pass zero a byte of it (`Failures.PurgeHits`; `Failures.Class24Hit` is class 24). Exactly the block that
  straddles the end of a page goes unchecked (`PurgeSafety.CheckedOrStraddling`).
* `run_of` is wrong for a block that starts 2 MiB or more past its run's base, and `free` then drops the block
  (`src/alloc/preload.cpp:202-204`, `468`). Some run of the system leaks a block of a class exactly when
  the size is at least 32 and the header area is at least the size plus 2 MiB modulo the size
  (`Failures.ClassLeaksIff`); how many of each run are lost is `Ownership.LostCount`: class 32 loses 384, class 64
  loses 128 (`Ownership.LostInClasses`). A block is leaked only for this reason (`Guarantees.LeakedUnreachable`).
* For a large pointer `ours_small` reads a header that is sure to be mapped, whatever else the heap holds, exactly
  when the region starts on a 2 MiB boundary (`Ownership.LargeProbeCoveredIff`). The first large region of a
  process meets this exactly when the reserve does (`Failures.FirstLargeProbeIff`). For small blocks the probed
  header is always mapped (`Guarantees.PlacedBlocksMapped`).
* `free` of a large pointer reads the header's size once more after unmapping it (`src/alloc/preload.cpp:465`).
  For any large pointer and in any interleaving that read finds no mapping (`Integrity.HeaderReadMisses`), and
  never will (`Integrity.DeadForever`). The model reads the size first.
* The idle time of a run is an unsigned difference with a clock read before the class lock. That every run the
  trimmer unmaps was empty for the idle time holds in all reachable states exactly when that time is zero
  (`Failures.IdleTimeKeptIff`; `Failures.UnmappedFresh` unmaps a run at the moment it becomes empty). For a given
  visit it holds exactly when the stamp is not after that clock value (`Timing.IdleLongEnoughIff`).
* `reserve_map` adds size and alignment to a 64-bit bump pointer, and compares a 64-bit sum with the end of the
  reserve (`src/alloc/preload.cpp:97-99`). Only a refused call can make the addition wrap
  (`Reserve.PlacedFits`), and it moves the pointer back exactly then (`Reserve.BumpFitsIff`); addresses consumed
  before are handed out again unless it stops at or above the end of the reserve (`Reserve.ConsumedIff`). When a
  process's first large malloc has got M bytes, malloc of 2^64 - M - 24 answers null and takes the pointer back over
  them, and the next large malloc gets a region that starts inside, whose bytes there are zeroed
  (`Wrapping.WrapOverlaps`).
* The size arithmetic of malloc wraps too: the 23 largest requests can succeed with a single page
  (`Wrapping.UndersizedGranted`).
* So malloc and calloc keep their promises exactly when they answer a pointer and the size is not one of those 23, or
  answer null and the bump pointer does not wrap (`Api.MallocGrantsIff`, `Api.CallocZeroes`). realloc also needs a
  block that starts before the 2 MiB mark of its run: any other is handed to the C library, which did not make it
  (`Api.ReallocResizes`, `src/alloc/preload.cpp:490-494`).
* The idle time of pages has the flaw of the idle time of runs: that the trimmer leaves every run's pages alone for it
  holds in all reachable states exactly when it is zero (`Failures.DirtyTimeKeptIff`). `Failures.PurgedFresh` has the
  pages of a run given back at the moment a block of it is handed out, and its stamp moved into the past.
* What the engine promises rests on a positive `min_score`. In every run with a given one, the cooldown keeps reclaims
  from one process apart, a thrashing process is left alone, every attempt is warranted, and nothing is tried while
  DAMON is on, exactly when it is positive (`EngineProofs.SpacedIff`, `ThrashHoldsIff`, `AttemptsWarrantedIff`,
  `DamonNeverTriesIff`).
* The repository's `README.md` speaks of 69 size classes at line 157; the table has 68.

## Model

| member | source | states |
|---|---|---|
| SizeClasses.TableAsListed | src/alloc/preload.cpp:51-59 | the 68 listed sizes are 8 to 64 in steps of 8, then four sizes per doubling |
| SizeClasses.TableSorted | src/alloc/preload.cpp:51-58 | the size table is strictly increasing, which the binary search needs |
| SizeClasses.ClassOf | src/alloc/preload.cpp:64-71 | the binary search returns the least class that holds n bytes, and 69 for a large request |
| SizeClasses.MapBytesBounds | src/alloc/preload.cpp:148-154 | a run's mapping is a multiple of the page, holds header and blocks, and is under 4 MiB |
| SizeClasses.BlockInRun | src/alloc/preload.cpp:152-154 | every block lies past the header and the bitmap and inside the run |
| SizeClasses.BlocksApart | src/alloc/preload.cpp:232 | two blocks of a run do not overlap |
| Arith.MaskIsAlignDown | src/alloc/preload.cpp:98 | and-ing with the inverted mask of a power of two rounds down to a multiple of it |
| Reserve.AddressReserve.Map | src/alloc/preload.cpp:96-107 | in 64-bit arithmetic: the region is aligned, inside the reserve and disjoint from every region ever returned; the bump pointer moves even on failure, and back exactly when the addition wraps, in which case nothing is returned |
| Reserve.PlacedFits | src/alloc/preload.cpp:97-99 | a region handed out lies between the old and the new bump pointer and below the end, and the addition has not wrapped |
| Reserve.PlacedIff | src/alloc/preload.cpp:96-107 | a call is answered exactly when mmap agrees and the region, at the next aligned address, is not empty and fits below the end |
| Reserve.BumpFitsIff | src/alloc/preload.cpp:97 | the bump pointer moves back exactly when the 64-bit addition wraps |
| Reserve.IssuedApart | src/alloc/preload.cpp:96-107 | over any sequence of calls that do not wrap, with any sizes, alignments and failures, every region returned is inside the reserve and no two share an address |
| Reserve.ConsumedIff | src/alloc/preload.cpp:96-107 | after a call, later calls that do not wrap hand out nothing below the old bump pointer exactly when the call did not wrap, or wrapped to the end of the reserve or above |
| Reserve.IssuedAnswersCall | src/alloc/preload.cpp:96-107 | each region returned has the size and the alignment its call asked for |
| Bitmap.FreshFill | src/alloc/preload.cpp:192-193 | the 0xFF fill with its tail mask is the full set of indices, with no bit at or above elems |
| Bitmap.TakeLowest | src/alloc/preload.cpp:221-227 | the lowest set bit of the first nonzero word is the least free index, and `b & (b - 1)` removes that index alone |
| Bitmap.GiveBit | src/alloc/preload.cpp:238-239 | the or adds one index alone and sets no bit at or above elems |
| RunSpec.FullIffNoneFree | src/alloc/preload.cpp:219-234 | with used plus free blocks equal to elems, a run is full exactly when no block is free |
| RunSpec.GiveUndoesTake | src/alloc/preload.cpp:219-244 | giving back the block just taken restores bitmap and count |
| RunSpec.HeldMeansUsed | src/alloc/preload.cpp:340 | a block that is not free makes used positive |
| RunSpec.SweptKeepsUsed | src/alloc/preload.cpp:383-388 | a trim pass leaves the number of used blocks alone and shortens the list by the idle runs only |
| RunObject.Run.constructor | src/alloc/preload.cpp:184-193 | a new run is empty, stamped, and all its blocks are free |
| RunObject.Run.Take | src/alloc/preload.cpp:219-235 | takes the least free block, or answers null exactly when none is free |
| RunObject.Run.Give | src/alloc/preload.cpp:236-244 | frees exactly the block of the pointer, and stamps the run when it empties |
| RunObject.Run.AllFree | src/alloc/preload.cpp:363-366 | the bit loop answers whether all blocks of the range are free |
| RunObject.Run.PageLoop | src/alloc/preload.cpp:358-371 | exactly the pages whose checked blocks are free become zero, and the purge counter counts them |
| RunObject.Run.PurgePages | src/alloc/preload.cpp:349-371 | the purge as a whole: skip rules, touch stamp, pages |
| ClassList.ClassState.Insert | src/alloc/preload.cpp:156-161 | the run becomes the head of a well-formed doubly linked list |
| ClassList.ClassState.Remove | src/alloc/preload.cpp:162-165 | the list stays well formed and loses exactly that run |
| ClassList.ClassState.Take | src/alloc/preload.cpp:219-235 | run_take with the class counter kept equal to the sum of used |
| ClassList.ClassState.Give | src/alloc/preload.cpp:236-244 | run_give with the class counter kept equal to the sum of used |
| ClassList.ClassState.Scan | src/alloc/preload.cpp:430-431 | the scan stops at the first run with room, and such a run has a free block |
| ClassList.ClassState.New | src/alloc/preload.cpp:167-197 | run_new fails exactly when the reserve or mmap refuses; else the new run is in front |
| ClassList.ClassState.Allocate | src/alloc/preload.cpp:429-434 | malloc's critical section: least free block of the first run with room, or block 0 of a new run, or null |
| ClassList.ClassState.PurgeRun | src/alloc/preload.cpp:339-372 | purge_run in the list: unmap and unlink, or keep and purge pages |
| ClassList.ClassState.Sweep | src/alloc/preload.cpp:383-388 | the walk ends, visits every run once though visited runs are unmapped, and leaves the others in order; the bytes given back add up |
| PurgeSafety.CheckedOrStraddling | src/alloc/preload.cpp:359-366 | the loop checks every block overlapping a page except one that straddles the page end |
| PurgeSafety.DiscardsExactly | src/alloc/preload.cpp:358-371 | for a size dividing 4096 a page is discarded exactly when all overlapping blocks are free |
| PurgeSafety.PurgeSafeIff | src/alloc/preload.cpp:351-371 | a run loses no live byte unless a discarded page ends inside a live block |
| PurgeSafety.SizeIsPurgeSafeIff | src/alloc/preload.cpp:351-371 | as far as one run's bitmap goes, a block size is safe for every pattern of free blocks exactly when it divides the page or is at least a page |
| PurgeSafety.LargeBlocksKeepPages | src/alloc/preload.cpp:355-362 | for blocks over a page nothing is discarded |
| PurgeSafety.AtMostOneUnchecked | src/alloc/preload.cpp:359-366 | at most one overlapping block goes unchecked, exactly when the size does not divide the page end offset |
| PurgeSafety.Class24Unsafe | src/alloc/preload.cpp:351-371 | some pattern of free 24-byte blocks is not safe, and block 170 straddles the end of page 0; Failures.Class24Hit reaches it |
| HeapSpec.LargeMapHolds | src/alloc/preload.cpp:403-404 | the size computed for a large request holds header and request, with less than a page to spare, exactly when nothing wraps; else it is zero or a single page |
| HeapProofs.TakeKeepsIff | src/alloc/preload.cpp:423-435 | malloc's critical section keeps the shared state consistent and the bump pointer from moving back exactly when a run has room or mapping one does not wrap |
| HeapProofs.GiveKeeps | src/alloc/preload.cpp:236-244 | run_give keeps the shared state consistent |
| HeapProofs.PurgeKeeps | src/alloc/preload.cpp:339-372 | purge_run keeps the shared state consistent, the recomputed size agreeing with the mapped one |
| HeapProofs.MapLargeKeepsIff | src/alloc/preload.cpp:402-420 | a large malloc keeps the shared state consistent and the bump pointer from moving back exactly when it succeeds or the addition does not wrap; its region has room exactly when the size is not one of the 23 largest |
| HeapProofs.MapLargeRoomyIff | src/alloc/preload.cpp:402-420 | so a state in which all large regions have room stays in order exactly when a region got has room, or none is got and nothing wraps |
| HeapProofs.UnmapLargeKeeps | src/alloc/preload.cpp:462-466 | a large free, its size read before the unmapping, keeps the shared state consistent and accounted for |
| HeapProofs.TakeIsAllocate | src/alloc/preload.cpp:429-434 | the step's take is what ClassState.Allocate does: the run used, its new state and the list; no other class is touched; when the bump pointer wraps, there is no block and only that pointer moves |
| Agreement.GiveIsGiven | src/alloc/preload.cpp:236-244 | the step's give is what ClassState.Give does, and touches no other class |
| Agreement.PurgeIsPurge | src/alloc/preload.cpp:339-372 | the step's purge is what ClassState.PurgeRun does: list, states, the bytes of every page and the freed counter; no other class is touched |
| Ownership.RunOfIff | src/alloc/preload.cpp:202-204 | run_of finds a block's run exactly when the block starts before the 2 MiB mark |
| Ownership.IssuedApart | src/alloc/preload.cpp:219-235 | two issued pointers share no byte |
| Ownership.IssuedInside | src/alloc/preload.cpp:199-201 | an issued pointer's bytes lie in its mapping, past the header |
| Ownership.SmallRoute | src/alloc/preload.cpp:206-213 | free sends a small block to its own run when run_of can find it, and recognises it not at all otherwise |
| Ownership.LargeRoute | src/alloc/preload.cpp:214-217 | a live large pointer never passes ours_small and is found by its own header |
| Ownership.ProbeMapped | src/alloc/preload.cpp:206-208 | the header probed for a live small block lies in that block's mapping |
| Ownership.LargeProbeOwnIff | src/alloc/preload.cpp:206-208 | for a large pointer the probe stays in its own mapping exactly when the region is 2 MiB aligned |
| Ownership.LargeProbeCoveredIff | src/alloc/preload.cpp:206-208 | the header probed for a large pointer is mapped, whatever else the heap holds, exactly when the region is 2 MiB aligned |
| Ownership.LostIff | src/alloc/preload.cpp:202-204 | exactly the last LostBlocks of a run start past the 2 MiB mark |
| Ownership.SomeBlockLostIff | src/alloc/preload.cpp:168-172 | a block size has a block that free loses exactly when it is at least 32 and the header area is at least the size plus 2 MiB modulo the size |
| Ownership.LostCount | src/alloc/preload.cpp:202-204 | the number of such blocks per run, in closed form |
| Ownership.LostInClasses | src/alloc/preload.cpp:168-172 | class 32 loses 384 blocks of every run, class 64 loses 128, class 4096 one |
| Issuing.TakeStep | src/alloc/preload.cpp:423-435 | malloc's critical section issues exactly one block, of its class, that nobody had |
| Issuing.GiveStep | src/alloc/preload.cpp:236-244 | giving back withdraws exactly that block |
| Issuing.PurgeStep | src/alloc/preload.cpp:339-372 | purging changes nothing that is issued |
| ProtocolSteps.TestOutcome | src/alloc/preload.cpp:447-468 | free's unlocked test sends every pointer back to where it came from, but for blocks past the 2 MiB mark, which it drops |
| ProtocolSteps.MallocHitKeeps | src/alloc/preload.cpp:424-427 | a cache pop hands one block of the class to the client and keeps the invariant |
| ProtocolSteps.RouteKeeps | src/alloc/preload.cpp:447-455 | the unlocked class read, then the push or the lock, keep the invariant |
| ProtocolSteps.FlushOutcome | src/alloc/preload.cpp:256-270 | the exit destructor finds the run of every cached block and locks its class |
| ProtocolSteps.FlushKeeps | src/alloc/preload.cpp:256-270 | every turn of the exit destructor keeps the invariant |
| ProtocolHeapSteps.GaveKeeps | src/alloc/preload.cpp:456-459 | giving back under the lock, from free or from the destructor, keeps the invariant |
| ProtocolHeapSteps.VisitKeeps | src/alloc/preload.cpp:383-388 | a visit of the trim walk keeps the invariant; the successor read before it is still listed |
| ProtocolHeapSteps.StepKeeps | src/alloc/preload.cpp:256-468 | every orderly step of every thread and of the trimmer keeps the invariant |
| ProtocolHeapSteps.Reached | src/alloc/preload.cpp:256-468 | the invariant holds in every state reachable by orderly steps |
| Guarantees.ArisesSound | src/alloc/preload.cpp:374-468 | in every reachable state all that threads hold or carry is issued and the run and large headers they are about to use are live; the probe of a large pointer and the read after munmap are not included |
| Guarantees.ExactlyOnePlace | src/alloc/preload.cpp:219-244 | in every interleaving each block is bitmap-free or in exactly one place: client, one cache slot, one thread's hands, leaked |
| Guarantees.HeldApart | src/alloc/preload.cpp:423-435 | two pointers held at once share no byte and lie in mapped memory |
| Guarantees.HeldFits | src/alloc/preload.cpp:396-436 | a held block of at most 2097152 bytes is of the least class that fits and lies in its run's data area; a large one has room |
| Guarantees.CacheHoldsItsClass | src/alloc/preload.cpp:247-251 | cache row c holds only findable blocks of class c, at most 16, none twice |
| Guarantees.LeakedUnreachable | src/alloc/preload.cpp:468 | free loses a block only when it starts past the 2 MiB mark of its run |
| Guarantees.PlacedBlocksMapped | src/alloc/preload.cpp:206-213 | the run of a held, cached, carried or leaked block is mapped and in use, and so is the header free reads |
| Guarantees.TrimSparesPlaced | src/alloc/preload.cpp:339-348 | a visit of the trimmer moves no block and unmaps no run with a block in anybody's hands |
| Guarantees.ClassExclusion | src/alloc/preload.cpp:383-389 | critical sections of a class exclude each other and the trim walk |
| Progress.HolderMoves | src/alloc/preload.cpp:383-459 | in every reachable state whoever holds a class lock can take a step of its own |
| Progress.NoDeadlock | src/alloc/preload.cpp:256-468 | in every reachable state each thread can take a step of its own, or waits for a lock whose holder can |
| Progress.TrimmerNoDeadlock | src/alloc/preload.cpp:374-392 | the trimmer can go on, or waits for a lock whose holder can |
| Guarantees.Conservation | src/alloc/preload.cpp:167-197 | live_blocks counts exactly the blocks outside the bitmaps; mapped minus freed is exactly the bytes mapped now |
| Timing.StampMeaning | src/alloc/preload.cpp:229-242 | a run is empty exactly when stamped, and the stamp is the start of its empty period |
| Timing.UnmappedAfterIdle | src/alloc/preload.cpp:340 | a run unmapped on a clock value not before its stamp lost no block to malloc during the idle time |
| Timing.DirtyLongEnoughIff | src/alloc/preload.cpp:348 | a run whose pages are given back was left alone for the idle time exactly when it was not touched after the clock value |
| Timing.IdleLongEnoughIff | src/alloc/preload.cpp:340 | a run that purge_run unmaps was idle long enough exactly when the stamp is not after the clock value |
| TrimSweep.OthersKeepClass | src/alloc/preload.cpp:383-389 | while the trimmer walks a class no other orderly step changes it |
| TrimSweep.PassIsSweep | src/alloc/preload.cpp:382-389 | in any interleaving, from lock to unlock the trimmer visits each listed run of the class once and leaves the list without the idle free runs, in order |
| TrimPass.EveryClassOnce | src/alloc/preload.cpp:374-391 | from waking to sleeping the trimmer locks and unlocks each of the 68 classes exactly once, in ascending order, all with the clock value read on waking |
| TrimPass.PassSweepsClass | src/alloc/preload.cpp:381-390 | so in every pass each class loses exactly the runs that were empty for the idle time by that clock value; the others stay, in order, only their touch stamps moving |
| Progress.SpawnCompletes | src/alloc/preload.cpp:247-251 | a thread starts idle, with no cache or with 68 empty rows |
| Progress.MallocCompletes | src/alloc/preload.cpp:423-435 | from any reachable state with the thread idle, its cache row empty, the class lock free and no wrap of the bump pointer ahead, an undisturbed malloc goes through: the block of the critical section is the client's, locks, threads and clock as before |
| Progress.FreeCompletes | src/alloc/preload.cpp:447-460 | for an idle thread without room in a cache and a free class lock, an undisturbed free of a block run_of can find goes through: it is in the bitmap again, nothing else is issued or withdrawn |
| Progress.FreeCaches | src/alloc/preload.cpp:447-455 | with fewer than 16 blocks in the cache row it goes through in three steps: the block is last in its row and nothing shared changes |
| Progress.MallocPops | src/alloc/preload.cpp:424-427 | malloc of a size whose cache row is not empty takes the row's last block in one step |
| Progress.LargeCompletes | src/alloc/preload.cpp:402-420 | a large malloc hands out the region at the next page boundary exactly when that can be mapped |
| Progress.LargeFreeCompletes | src/alloc/preload.cpp:462-466 | an undisturbed free of a large region goes through: the region is unmapped, nothing else is issued or withdrawn |
| ThreadExit.ExitCompletes | src/alloc/preload.cpp:256-270 | with no lock held, an exit goes through: the thread is gone, every block of its cache is free again, nothing else is issued or withdrawn |
| Integrity.PageSizesNotExposed | src/alloc/preload.cpp:351-353 | no byte of a block whose size divides the page, or is at least a page, can be discarded |
| Integrity.StepBytes | src/alloc/preload.cpp:339-372 | no step changes a byte of an issued pointer, unless its holder writes that byte or a discarded page ends inside the block |
| Integrity.BytesSurvive | src/alloc/preload.cpp:339-468 | through any interleaving an issued pointer keeps address and size, and every such byte that its holder does not write |
| Integrity.DeadForever | src/alloc/preload.cpp:96-107 | in every run of orderly steps an address that was unmapped is never mapped again |
| Integrity.HeaderReadMisses | src/alloc/preload.cpp:462-466 | after the munmap of a large region its header lies in no mapping, whatever other threads do before it is read again |
| Moving.MoveKeepsBytes | src/alloc/preload.cpp:496-500 | in any interleaving the bytes that realloc copies, by single stores at any time after reading them, are in the new block and stay there until its holder writes them, but for bytes that a discarded page can cut off |
| Failures.ClassSparedIff | src/alloc/preload.cpp:351-371 | in all reachable states the trimmer changes no byte of a live block of a class exactly when the size divides the page or is at least a page |
| Failures.PurgeHits | src/alloc/preload.cpp:351-371 | for any other class and any idle times a reachable visit zeroes a byte that a client wrote into a block it holds |
| Failures.Class24Hit | src/alloc/preload.cpp:351-371 | for 24-byte blocks that is block 170 |
| Failures.IdleTimeKeptIff | src/alloc/preload.cpp:340 | every run unmapped in a reachable state was empty for the idle time exactly when that time is zero |
| Failures.UnmappedFresh | src/alloc/preload.cpp:340 | a run of any class, emptied one millisecond after the clock was read, is unmapped at once, for any idle time |
| Failures.DirtyTimeKeptIff | src/alloc/preload.cpp:348 | every run whose pages are given back in a reachable state was left alone for the idle time exactly when that time is zero |
| Failures.PurgedFresh | src/alloc/preload.cpp:348-349 | a run touched one millisecond after the clock was read has its pages given back at once, for any idle time, and its stamp moves back |
| Failures.FirstLargeProbeIff | src/alloc/preload.cpp:206-208 | for the first large region the probed header is mapped exactly when the reserve starts on a 2 MiB boundary |
| Failures.ClassLeaksIff | src/alloc/preload.cpp:168-172 | a reachable state has a leaked block of a class exactly when the size is at least 32 and the header area is at least the size plus 2 MiB modulo the size |
| Wrapping.OrderlyIff | src/alloc/preload.cpp:96-107 | of the steps the code may take in a reachable state exactly the orderly ones leave the state consistent, large regions with room and the bump pointer where it was or further |
| Wrapping.WrapOverlaps | src/alloc/preload.cpp:96-107 | for any two large sizes as a process's first calls there is a third, refused in between, after which two clients hold regions that share all their common bytes, which are zeroed |
| Wrapping.UndersizedGranted | src/alloc/preload.cpp:402-420 | each of the 23 largest requests can succeed as a first call, with a single page |
| Api.RouteAgrees | src/alloc/preload.cpp:447-468 | free takes the branch the pointer was made for |
| Api.MallocGrantsIff | src/alloc/preload.cpp:396-436 | for every size malloc issues one new pointer with room, of the least class when small, or fails, all others untouched and the bump pointer not moved back: exactly when it succeeds on a size other than the 23 largest, or fails without a wrap |
| Api.MallocAnswers | src/alloc/preload.cpp:396-436 | in any case malloc touches no other pointer, and what it answers with is new and issued, with room exactly for sizes other than the 23 largest |
| Answers.MallocNullIff | src/alloc/preload.cpp:396-436 | malloc answers null exactly when no run of the least class for max(n, 1) bytes has a free block and none can be mapped, or no large region can |
| Answers.MallocPicks | src/alloc/preload.cpp:429-434 | a small malloc hands out the least free block of the first run of that class that has one, else block 0 of a run at the next 2 MiB boundary |
| Answers.MallocPlaces | src/alloc/preload.cpp:402-420 | a large malloc hands out the region at the next page boundary, or null when it cannot be mapped |
| Answers.CallocNullIff | src/alloc/preload.cpp:471-479 | calloc answers null exactly when the product overflows or there is no memory for it |
| Answers.ReallocOfNull | src/alloc/preload.cpp:482 | realloc of a null pointer keeps malloc's promise exactly when harmless, and answers null exactly when there is no memory |
| Answers.ReallocNullIff | src/alloc/preload.cpp:481-502 | realloc stays in place exactly when the size fits and uses more than half of an old size under 2097153; else it answers null exactly when there is no memory |
| Answers.ReallocZeroNullIff | src/alloc/preload.cpp:483 | realloc to zero answers null exactly when there is no memory for one byte after the free |
| Api.FreeReleases | src/alloc/preload.cpp:438-469 | free, a large block's size read before the unmapping, releases exactly its argument, unless it is a block past the 2 MiB mark |
| Api.FreeUndoesMalloc | src/alloc/preload.cpp:396-469 | for every size free of malloc's result leaves the same pointers issued with the same bytes |
| Api.CallocZeroes | src/alloc/preload.cpp:471-479 | calloc fails on overflow; else it is malloc, under the same exact condition, with every requested byte zero |
| Api.ReallocResizes | src/alloc/preload.cpp:481-502 | for every size realloc keeps the first min(old, n) bytes, has room for n, releases the old block once unless in place, leaves it on failure, and touches nothing else: exactly when the block starts before the 2 MiB mark and malloc's answer is harmless in that sense |
| Api.ReallocZero | src/alloc/preload.cpp:483 | realloc to zero frees the block and hands out one for a byte; the state stays in order exactly when that malloc does not wrap |
| EngineSpec.BestOfIsBest | src/core/engine.cpp:19-29 | the policy loop picks the longest matching prefix, the first of equals |
| EngineSpec.EqualLengthSamePrefix | src/core/engine.cpp:22-26 | equally long matching prefixes are the same prefix, so order only decides between duplicates |
| Engine.BestGroup | src/core/engine.cpp:31-41 | the group loop shared by mode_for and weight_for |
| Engine.ReclaimEngine.Scan | src/core/engine.cpp:43-73 | the scan makes a fresh snapshot and an entry for every pid seen |
| Engine.ReclaimEngine.GuardThrash | src/core/engine.cpp:228-240 | the thrash guard over all fault counts |
| Engine.ReclaimEngine.DamonSample | src/core/engine.cpp:87-111 | the DAMON branch of the sampler: per pid, cold kilobytes summed and the greatest age taken over the regions reported |
| Engine.ReclaimEngine.ComputeScores | src/core/engine.cpp:114-147 | the scoring loop is the fold of ScoredAt over the snapshot |
| Engine.ReclaimEngine.SortByScore | src/core/engine.cpp:269-270 | the order lists each eligible process once by falling score |
| Engine.ReclaimEngine.RunActions | src/core/engine.cpp:261-291 | the action loop on an order that sorting can produce |
| Engine.ReclaimEngine.RunCycle | src/core/engine.cpp:175-259 | run_cycle and force_cycle are the function Cycle of the old state and the observations |
| EngineCycle.PausesIff | src/core/engine.cpp:203-218 | run_cycle scores nothing exactly when the stall reaches a quarter or under 5 % of memory is available; then it tries nothing and changes no entry |
| EngineCycle.AttemptsNeedStrain | src/core/engine.cpp:219-245 | an attempt in a cycle that is neither forced nor a dry run needs no such emergency and one of the three pressure conditions |
| EngineCycle.CooldownExactly | src/core/engine.cpp:145-285 | exactly what a cycle does to a cooldown: 5 after a reclaim, else one less than the guard left if it runs and the process is seen |
| EngineCycle.ScoreLaws | src/core/engine.cpp:140-144 | the score is additive in memory and weight, 1 for an untouched megabyte, three tenths more when swapped, and falls evenly to zero at a quarter touched |
| EngineCycle.ScoredExactly | src/core/engine.cpp:114-147 | what is recorded of each process with DAMON off: memory, ratio, score, samples, first clear |
| EngineCycle.PositiveIff | src/core/engine.cpp:114-147 | with DAMON off a score is positive exactly when no cooldown runs, the sample counts and shows under a quarter touched, and the weight is positive |
| EngineCycle.DamonScores | src/core/engine.cpp:87-111 | with DAMON answering the ratio is what the cold total leaves of the memory, and the score is positive exactly when no cooldown runs, over three quarters are cold and the weight is positive |
| EngineCycle.ColdKbLaw | src/core/engine.cpp:93-97 | the cold total grows by the kilobytes of each region without accesses |
| EngineCycle.AttemptMeans | src/core/engine.cpp:261-291 | an attempt is on a process of enough score and memory, in the mode of its policy, and no process is tried twice |
| EngineCycle.ModeIsPolicy | src/core/engine.cpp:19-41 | mode and weight are those of the longest matching prefix, the first of equals, or the defaults |
| EngineCycle.LeftUntried | src/core/engine.cpp:261-291 | a cycle that acts leaves such a process untried only when a cap is reached, and then tries none that scores less |
| EngineCycle.CapsHold | src/core/engine.cpp:272-285 | successes stay within their cap, and neither cap was reached before the last attempt |
| EngineProofs.ScoreBounds | src/core/engine.cpp:140-144 | the score lies between 0 and 1.3 times weight times megabytes |
| EngineProofs.PositiveScoreIsCold | src/core/engine.cpp:140-144 | a positive score means a ratio under a quarter, whatever the weight |
| EngineProofs.ScoredFromOnce | src/core/engine.cpp:118-146 | the scoring loop scores each process once from its own entry and touches no other |
| EngineProofs.ActionsByScore | src/core/engine.cpp:261-291 | a prefix of the ranking is tried; no untried candidate scores higher; at most max_targets succeed; the total is the sum of gains and was below the cap before the last attempt |
| EngineProofs.CycleCool | src/core/engine.cpp:145-285 | with a positive min_score, what one cycle does to one cooldown: loss only by a zero score, reclaim only at zero, thrash |
| EngineProofs.CooldownBounds | src/core/engine.cpp:228-285 | cooldowns stay within 0 and 20 in every run, whatever the configurations |
| EngineProofs.CooldownDrains | src/core/engine.cpp:145 | with a positive min_score a cooldown is used up only by cycles that score the process at zero |
| EngineProofs.ReclaimsSpaced | src/core/engine.cpp:256-285 | with a positive min_score, between two reclaims from a pid lie at least five cycles that scored it at zero |
| EngineProofs.ThrashHolds | src/core/engine.cpp:228-240 | with a positive min_score a thrash hit forces twenty such cycles, the current one included |
| EngineProofs.TriedIsCold | src/core/engine.cpp:123-144 | with a positive min_score and without DAMON an attempt needs cleared bits and less than a quarter touched |
| EngineProofs.DamonNeverTries | src/core/engine.cpp:87-111 | with a positive min_score, DAMON on and set_targets refusing, no process is tried |
| EngineProofs.AttemptsWarranted | src/core/engine.cpp:118-291 | with a positive min_score every attempt follows an earlier clear of the pid's bits, shows under a quarter touched, and DAMON is off |
| EngineProofs.SpacedIff | src/core/engine.cpp:261-291 | all runs with a given min_score keep reclaims from a pid five zero-scored cycles apart exactly when min_score is positive |
| EngineProofs.UnspacedRun | src/core/engine.cpp:261-291 | with min_score zero or less two cycles in a row reclaim from one process |
| EngineProofs.ThrashHoldsIff | src/core/engine.cpp:228-240 | all runs with a given min_score spare a thrashing process for twenty zero-scored cycles exactly when min_score is positive |
| EngineProofs.AttemptsWarrantedIff | src/core/engine.cpp:118-291 | all attempts in all runs with a given min_score are warranted exactly when min_score is positive |
| EngineProofs.DamonNeverTriesIff | src/core/engine.cpp:87-111 | in all runs with a given min_score nothing is tried while DAMON is on and refuses exactly when min_score is positive |
| Sampler.DeliveredIff | src/core/workingset.cpp:64-76 | the pages read of an area are those up to its end or to the first read that delivers nothing |
| Sampler.PagesMeans | src/core/workingset.cpp:56-61 | a readable private anonymous area counts its whole pages from its first, any other none |
| Sampler.SampleArea | src/core/workingset.cpp:60-77 | the chunked loop counts exactly the soft-dirty entries of the pages read, and says whether the area was cut short |
| Sampler.SampleWorkingSet | src/core/workingset.cpp:43-85 | touched is exactly the soft-dirty pages read, the full count when every seek and read delivers; something is missed exactly when a counted area fails to seek or is cut short |
| Sampler.DirtyWithinTotal | src/core/workingset.cpp:55-82 | the one-pass count is at most the total |
| Sampler.SampledScoreBounds | src/core/engine.cpp:126-144 | a sampled ratio lies in [0, 1] and the score within its bounds |

## Left out

- Api.Realloc: modelled on values for a caller that nothing interferes with; its copy among other threads' steps is `Moving.MoveKeepsBytes`.
- Api.FreeReleases: reads a large block's size before unmapping it, where the source reads it again afterwards (`Integrity.HeaderReadMisses`).
- HeapProofs.UnmapLargeKeeps: the same.
- Protocol.Do: a critical section is one step, and the reserve's own mutex is part of it; the bump pointer is atomic in the source.
- Protocol.DoSpawn: whether a thread has a cache is arbitrary, because `tcache` at line 272 has no caller while both paths are coded.
- Protocol.Trace: runs of the system are made of orderly steps; what the code does after another step is followed for one malloc only (`Wrapping.WrapOverlaps`).
- Reserve.Placed: mmap is taken to map neither nothing, nor address zero, nor addresses from 2^63 on, and a region placed over another one is zeroed.
- Ownership.OursSmall: a header lookup is a map from live bases; client data never imitates a magic number.
- The unlocked probe of a large pointer is modelled as finding no header; whether the probed page is readable is stated separately (`Ownership.LargeProbeCoveredIff`).
- `g_purged` is counted per run (RunObject.Run.PageLoop) and not summed over the process.
- Clock reads inside one critical section other than run_give's two are taken as one.
- The fallback without a reserve, and what happens to pointers handed to the C library's own functions.
- `posix_memalign` and its wrappers: they return interior pointers that free and realloc need not recognise.
- Fork handlers: they take the locks in the opposite order to malloc, so `Progress.NoDeadlock` speaks of processes that do not fork.
- Initialisation, environment variables and exit statistics.
- EngineSpec.Score: floating point is modelled by reals.
- EngineSpec.Config: the cap of the action loop is one number; the source compares bytes with kilobytes there, and the cgroup reclaim after the loop is not modelled.
- Engine.ReclaimEngine.DamonSample: the target list is not kept, because `set_targets` ignores it and always refuses.
- Engine.ReclaimEngine.SortByScore: the library sort is stood in for by an insertion sort; every result about cycles holds for any order by falling score.
- Sampler.Pread: a read delivers whole entries or nothing; a positive read of under 8 bytes would make the source's loop repeat.
- The kernel, `/proc` parsing, pressure files, process_madvise, eBPF counters and cgroup, KSM, MGLRU drivers are inputs or absent.
- Return values in kilobytes and the statistics counters of the engine are not kept.
- Configuration parsing, logging, the IPC socket, command-line tools and charts would add only easy members.
