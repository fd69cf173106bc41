# Bikeshed64: memory, scheduler and Tetris

A Dafny model of three parts of the Bikeshed64 kernel and its programs, with proofs about them.

- Memory. Physical memory is a map from frame numbers to 512 words. The allocator's free stacks, pool headers and pool
  list live in that memory, as do the four-level page tables. Methods on the memory follow `phys_alloc.c` and
  `paging.c` store by store; a ghost book (free chunks, pools, pool list, what clients hold) says what the memory means.
  Boot (`physical.c`) and `fork` (`syscalls.c`) are built on top.
- Scheduler. Queue nodes, block allocator and process control blocks are cells in memory too. The class `Scheduler`
  follows `scheduler.c`; the module `SchedulerModel` says what each of its steps does to the queues as sequences.
- Tetris. The class `Engine` follows `tetris.c` on its board; the module `TetrisModel` is the game as a value and one
  tick as a function.

Frames are numbered (address / 4096) and kernel pointers are words; `Words` and `Entries` prove that the masks of
`paging.c` take entries apart the way they were put together. The clock is an argument of each dispatch, key presses
and random numbers are arguments of each Tetris tick.

Two places of the kernel are also modelled corrected, under the flag `repaired`: `phys_free_4KIB` (it takes an empty
pool list for what it is, and passes the physical address when it releases a pool) and `queue_enqueue_prio` (it links
a node in before the one the scan stopped at). With `repaired` false the code is as it is.

| file | what it holds |
|---|---|
| Words, Entries | 64-bit masks as arithmetic; page table entries |
| Lists | facts about sequences and sets that several modules use |
| PhysBook, PhysAlloc, PhysRuns | the allocator's book, its methods, and what any run of them makes of it |
| PageTree, PageClone, PageCleanup, PageMap, PageUnmap | tables as trees, and the operations on one of them |
| PageSpaces, VirtMemory | all address spaces together; the state machine of the operations |
| Fork | fork's writes into parent and child |
| MemoryMap, MemoryTotals, IdentityMap, Boot | carve-out and its totals, the kernel's map of memory, the allocator's start |
| Blocks, Sleepers, Processes, Queues, SchedulerModel, SchedulerTimes, Scheduler | the scheduler from its blocks up |
| TetrisModel, TetrisRuns, Tetris | the game, whole games, and its engine |

## Model

| member | source | states |
|---|---|---|
| `Boot.PhysMemoryInit` | kernel/src/arch/x86_64/virt_memory/physical.c:58-202 | from any memory map of disjoint regions ending below 512GiB: directory d is added if and only if some usable region left by the carving ends at d GiB + 512MiB or later; the stack of chunks is exactly the aligned 2MiB blocks of what both carvings leave, none meets the kernel or its tables, the allocator's invariant holds, the kernel's tables map memory and have an empty user half; otherwise no region fits, or memory reaches beyond what is mapped |
| `Boot.BootedWalk` | kernel/src/arch/x86_64/virt_memory/physical.c:209-315 | after boot the page at KERNEL_BASE + phys walks to phys, for every phys below (1 + directories added) GiB, by entries that let the kernel write it and user code not use it |
| `Boot.TablesApart` | kernel/src/arch/x86_64/virt_memory/physical.c:127-182 | no block left in the map overlaps the new paging structures |
| `IdentityMap.CreatePagingStructures` | kernel/src/arch/x86_64/virt_memory/physical.c:209-256 | the loops fill min(num_pds, 511) directories, in consecutive frames from base on, and nothing else but the pointer table |
| `IdentityMap.IdentityWalk` | kernel/src/arch/x86_64/virt_memory/physical.c:230-256 | the four-level walk over these tables is the identity shifted by KERNEL_BASE, with flags present and writable at every level |
| `MemoryMap.GetTotalUsableRam` | kernel/src/arch/x86_64/virt_memory/physical.c:326-464 | every region is carved in place; the totals are UsableRam and the highest end of a usable region left, 0 when there is none |
| `MemoryTotals.UsableRamCounts` | kernel/src/arch/x86_64/virt_memory/physical.c:428-430 | for disjoint regions total_usable_ram is the number of bytes that lie in a usable one |
| `MemoryMap.AddedFor` | kernel/src/arch/x86_64/virt_memory/physical.c:90-95 | directory n is added if and only if some usable region ends half a GiB into its GiB or later |
| `MemoryMap.CaseFour` | kernel/src/arch/x86_64/virt_memory/physical.c:364-417 | a region that contains the kernel is always taken by case 1: case 4 is never reached |
| `MemoryMap.CarvedKeeps` | kernel/src/arch/x86_64/virt_memory/physical.c:354-417 | a byte stays usable if and only if it was, is not in the kernel, and is not above the kernel in a region that starts below it |
| `MemoryMap.AllMapped` | kernel/src/arch/x86_64/virt_memory/physical.c:90-95 | rounding to the nearest GiB maps all memory if and only if the highest address is at most 1GiB, a whole number of GiB, or at least half a GiB into its last one |
| `MemoryMap.ClaimRegion` | kernel/src/arch/x86_64/virt_memory/physical.c:127-182 | the first region that fits is shrunk from below; when none is found, every region that would fit comes after one that begins at 1GiB or above |
| `MemoryMap.FitsMeans` | kernel/src/arch/x86_64/virt_memory/physical.c:138-157 | a region fits if and only if it is usable, has 4KiB, and the tables can begin at its first page boundary, at or above the kernel's end, below 1GiB, and end inside it |
| `MemoryMap.ClaimedKeeps` | kernel/src/arch/x86_64/virt_memory/physical.c:170-172 | the claim keeps just the bytes behind the tables |
| `MemoryMap.ClaimedDisjoint` | kernel/src/arch/x86_64/virt_memory/physical.c:170-172 | claiming keeps the usable regions disjoint |
| `MemoryMap.BlockAboveKernel` | kernel/src/arch/x86_64/virt_memory/phys_alloc.c:58-98 | no block of the carved map is block 0 or meets the kernel |
| `MemoryMap.SetupPhysicalAllocator` | kernel/src/arch/x86_64/virt_memory/phys_alloc.c:36-98 | pushing succeeds if and only if every block is mapped; the stack then holds exactly the aligned blocks of the usable regions, each once, with no pool and nothing held |
| `Entries.Decode` | kernel/src/arch/x86_64/virt_memory/paging.c:13-22 | the masks recover frame, present bit, size bit and copied flags from any entry built of them |
| `Entries.TableCopied` | kernel/src/arch/x86_64/virt_memory/paging.c:529-566 | the entry a clone writes for a table is present, leads to the copy and has the original's copied flags, whatever the old table's address adds |
| `Entries.AllowedFlags` | kernel/src/arch/x86_64/virt_memory/paging.c:166-241 | an entry for a new table allows writing and whatever else was asked for; an entry for a page allows exactly what was asked for |
| `PhysAlloc.PhysMem.Alloc4Kib` | kernel/src/arch/x86_64/virt_memory/phys_alloc.c:226-277 | fails exactly when there is neither a pool nor a chunk; when the head pool has free frames it gives the top one, that pool's implicit_next and all other pools stay; the exact book afterwards; the frame was held by nobody, all that is held keeps its contents, the invariant stays |
| `PhysRuns.BumpIsMost` | kernel/src/arch/x86_64/virt_memory/phys_alloc.c:226-243 | after any sequence of allocations and frees, implicit_next has passed as many frames of a pool as were ever out together since the pool was made: a pool takes a new frame only when all it has given out are out |
| `PhysRuns.FreeThenAlloc` | kernel/src/arch/x86_64/virt_memory/phys_alloc.c:226-349 | the next frame given out is the one just freed if and only if its pool was the head of the list or not on it; the book is then as before both |
| `PhysRuns.AllocThenFree` | kernel/src/arch/x86_64/virt_memory/phys_alloc.c:226-349 | freeing what was just given out restores the book if and only if the head pool had a freed frame to give |
| `PhysRuns.ServedFit` | kernel/src/arch/x86_64/virt_memory/phys_alloc.c:144-349 | every request that neither panics nor faults keeps what the book promises: each chunk in one place, pages out exactly those handed out, the list exactly the pools that can give |
| `PhysAlloc.PhysMem.Alloc2Mib` | kernel/src/arch/x86_64/virt_memory/phys_alloc.c:144-157 | takes the top chunk, which nobody held in whole or in part |
| `PhysAlloc.PhysMem.Free4Kib` | kernel/src/arch/x86_64/virt_memory/phys_alloc.c:290-349 | as written it returns if and only if some pool is listed and the frame is not the last one out of a listed pool that has given out all others; repaired it always does; the frame is then back, or its whole pool released as a chunk |
| `PhysBook.BlockedExample` | kernel/src/arch/x86_64/virt_memory/phys_alloc.c:303-338 | a pool that got back all but one of its 511 frames cannot take the last one |
| `PhysAlloc.PhysMem.Free2Mib` | kernel/src/arch/x86_64/virt_memory/phys_alloc.c:170-174 | pushes the chunk if its address is mapped once KERNEL_BASE is added, and faults otherwise |
| `PhysAlloc.PhysMem.Unlink` | kernel/src/arch/x86_64/virt_memory/phys_alloc.c:309-333 | the stores that take a pool out of the list, from the head or the middle |
| `PhysBook.ListCut` | kernel/src/arch/x86_64/virt_memory/phys_alloc.c:309-333 | after them the list is the old one without that pool, with next and prev links right again |
| `PhysBook.PoolCount` | kernel/src/arch/x86_64/virt_memory/phys_alloc.c:176-213 | free frames + frames out = frames ever given out <= 511; the free stack reaches 511 if and only if the pool is used up and nothing is out |
| `PhysBook.ClientWrites` | kernel/src/arch/x86_64/virt_memory/phys_alloc.c:176-349 | whatever clients store into what they hold, the invariant of stacks, headers and list stays |
| `PhysBook.HeldIsApart` | kernel/src/arch/x86_64/virt_memory/phys_alloc.c:144-349 | no held frame is a free chunk, a pool header or a free frame |
| `PhysBook.FreedTwiceBreaks` | kernel/src/arch/x86_64/virt_memory/phys_alloc.c:215-224 | pushing a frame that is already on its pool's free stack leaves memory that no book with that pool describes |
| `PhysBook.ChunkTwiceBreaks` | kernel/src/arch/x86_64/virt_memory/phys_alloc.c:170-174 | and pushing a chunk that is already free leaves memory that no book describes |
| `PageClone.VirtCloneMapping` | kernel/src/arch/x86_64/virt_memory/paging.c:503-680 | the copy's tree has the shape, sizes, flags and contents of the original, in frames that were all free before; fails only without chunks |
| `PageTree.CopiedView` | kernel/src/arch/x86_64/virt_memory/paging.c:503-671 | a walk finds in a copied tree a page with the same words, flags and size, or none, as in the original |
| `PageTree.CopiedPath` | kernel/src/arch/x86_64/virt_memory/paging.c:529-671 | and goes there by tables with the same flags |
| `PageCleanup.VirtCleanupTable` | kernel/src/arch/x86_64/virt_memory/paging.c:318-402 | succeeds if and only if the allocator is not blocked for these frames; every table and page is freed once, nothing else, and as written the root ends on its pool's free stack |
| `PageCleanup.VirtResetTable` | kernel/src/arch/x86_64/virt_memory/paging.c:408-426 | the same for all but the root, whose user half is then empty |
| `PageCleanup.AllStacked` | kernel/src/arch/x86_64/virt_memory/paging.c:318-402 | as written, after a cleanup every table and page of the space is on its pool's free stack, and every chunk is a free chunk |
| `PageCleanup.SecondCleanup` | kernel/src/kernel/scheduler/scheduler.c:122-129 | a second walk over the same root, in the memory the first has left, frees as its first a frame or chunk that is free already |
| `PageMap.MapAt` | kernel/src/arch/x86_64/virt_memory/paging.c:150-251 | adds one binding, with the tables it needs, and panics if and only if the slot is taken; the walk there goes by the tables that were there, with their flags, and by new ones that are writable and have the flags asked for; every other page walks as before |
| `PageMap.WayAllows` | kernel/src/arch/x86_64/virt_memory/paging.c:166-241 | a page just mapped may be used as was asked for, as far as the tables that were there before allow it: the new ones take nothing away |
| `PageUnmap.UnmapAt` | kernel/src/arch/x86_64/virt_memory/paging.c:257-312 | removes just the binding of that page, and frees its frame once |
| `PageUnmap.VirtLookupPhys` | kernel/src/arch/x86_64/virt_memory/paging.c:432-497 | the answer as a function of the page the walk finds and its directory entry |
| `PageUnmap.LookupTruth` | kernel/src/arch/x86_64/virt_memory/paging.c:464-496 | that answer is right if and only if the page is not missing under a present directory entry, and not one of the last 511 of a large page |
| `PageSpaces.OneFrameOnePage` | kernel/src/arch/x86_64/virt_memory/paging.c:78-426 | two user pages found in the same frame are the same page of the same address space |
| `PageSpaces.CloneThenCleanup` | kernel/src/arch/x86_64/virt_memory/paging.c:318-680 | cloning and cleaning up the clone leaves exactly what was held before, with its contents |
| `VirtMemory.VirtMem.CreateSpace` | kernel/src/arch/x86_64/virt_memory/paging.c:617-680 | a new address space has an empty user half and the kernel half it was given; no other space changes |
| `VirtMemory.VirtMem.CloneMapping` | kernel/src/arch/x86_64/virt_memory/paging.c:617-680 | every page of the copy shows the original's words, flags and size, by tables with the same flags; kernel halves are equal; no other space sees a change; all frames stay accounted for |
| `VirtMemory.VirtMem.Cleanup` | kernel/src/arch/x86_64/virt_memory/paging.c:388-402 | the space disappears with all its frames, the others are untouched, the accounting stays |
| `VirtMemory.VirtMem.Reset` | kernel/src/arch/x86_64/virt_memory/paging.c:408-426 | the space stays with no user page, the others are untouched |
| `VirtMemory.VirtMem.MapPage` | kernel/src/arch/x86_64/virt_memory/paging.c:78-115 | the page is found at the new frame and may be used as was asked for, as far as the tables that were there allow it; no other page changes, no table goes or changes its flags, and the frames a large mapping cuts off are exactly what is gained in frames that belong to no space |
| `VirtMemory.VirtMem.UnmapPage` | kernel/src/arch/x86_64/virt_memory/paging.c:257-312 | the page is gone, no other changes, its frame is freed; the two failures exactly |
| `VirtMemory.VirtMem.UserStore` | kernel/src/arch/x86_64/virt_memory/paging.c:503-680 | a store through one address space changes that word of that page and nothing any other space sees |
| `VirtMemory.VirtMem.NeverBlocked` | kernel/src/arch/x86_64/virt_memory/phys_alloc.c:290-349 | with the repaired phys_free_4KIB cleanup, reset and unmapping are never blocked |
| `VirtMemory.NothingLost` | kernel/src/arch/x86_64/virt_memory/paging.c:200-213 | a mapping cuts nothing off if and only if it is small or its directory entry does not lead to a page table |
| `VirtMemory.LostExample` | kernel/src/arch/x86_64/virt_memory/paging.c:200-213 | a large mapping over a page table with one page loses both |
| `Fork.ForkMemory` | kernel/src/kernel/syscalls/syscalls.c:52-115 | byte for byte: the parent's space is what it was but for the 32 bits at rdi, which are 0, and rax; the child's is what the parent's was but for the 32 bits where the lookup of rdi lands, which are 1, and rax; all other spaces are untouched; panics exactly on a Pid pointer that leads nowhere |
| `Fork.ForkAgrees` | kernel/src/kernel/syscalls/syscalls.c:69-106 | parent and child agree on pages, sizes, flags and every byte but the four of the Pid and the four the lookup leads to |
| `Fork.ForkTells` | kernel/src/kernel/syscalls/syscalls.c:89-106 | the 32 bits at byte address rdi are 0 for the parent; for the child they are 1 if and only if the lookup leads to rdi or a 1 was there; the 64 bits of rax are SUCCESS in the parent, and in the child if and only if the lookup does not lead inside them |
| `Fork.RdiBytes` | kernel/src/kernel/syscalls/syscalls.c:90-106 | the pointer fork follows is the number in the first eight bytes of the saved context |
| `Fork.LandingExample` | kernel/src/kernel/syscalls/syscalls.c:97-106 | a Pid in page 5 of a large page: the child's 1 goes to page 0 |
| `Blocks.BlockInit` | kernel/src/kernel/data_structures/block.c:7-35 | panics if and only if the region or the block size is too small; otherwise no block is in use and there are (length - header) / size of them |
| `Blocks.BlockAllocator.Alloc` | kernel/src/kernel/data_structures/block.c:37-52 | NULL if and only if all blocks are in use; otherwise a block nobody has, the one freed last before any new one |
| `Blocks.BlockAllocator.Free` | kernel/src/kernel/data_structures/block.c:54-59 | the block is no longer in use; blocks in use keep their contents |
| `Blocks.BlockCount` | kernel/src/kernel/data_structures/block.c:37-59 | blocks in use + blocks free = blocks handed out so far |
| `Sleepers.InsertBefore` | kernel/src/kernel/scheduler/scheduler.c:131-149 | linked in before the node the scan stops at, a sleeper gets its time, all others keep theirs, and the total is max(old total, t), although the comparator rewrites deltas during the scan |
| `Sleepers.AsWritten` | kernel/src/kernel/data_structures/queue.c:43-59 | as written all times are right if and only if the new sleeper wakes first or last |
| `Sleepers.AsWrittenExample` | kernel/src/kernel/data_structures/queue.c:55-59 | 10 and 20 to go, a third asks for 15: it gets 20 and the second wakes at 15 |
| `Sleepers.PlaceEnds` | kernel/src/kernel/data_structures/queue.c:36-53 | when the scan stops at the head, at the end, and when the node is linked in last without tail being moved |
| `Sleepers.AgedExactly` | kernel/src/kernel/scheduler/scheduler.c:205-238 | the sleepers that stay are aged by the elapsed time if and only if the head had at least that long to go, or slept alone |
| `Sleepers.Charged` | kernel/src/kernel/scheduler/scheduler.c:266-278 | for every queue, time and span, as written and repaired: when a process that goes to sleep has its full time ahead of it after the same dispatch has aged the queue |
| `Sleepers.ChargedExample` | kernel/src/kernel/scheduler/scheduler.c:266-278 | after running for 8, a sleep of 5 ends at once |
| `Queues.Queue.Enqueue` | kernel/src/kernel/data_structures/queue.c:10-25 | appends one node to the list in memory; tail is last |
| `Queues.Queue.Dequeue` | kernel/src/kernel/data_structures/queue.c:65-78 | takes the first node; the tail field is left as it is |
| `Queues.Queue.EnqueuePrio` | kernel/src/kernel/data_structures/queue.c:27-63 | where the node ends up, what the comparator leaves in the control blocks, what tail is, and that the list is intact unless the node was appended through a tail that is not the last node; then the two stores through tail are what has happened |
| `Queues.StaleTailLoses` | kernel/src/kernel/data_structures/queue.c:43-49 | appending through any tail that is not the last node, be it an earlier node, a free block or a node of another queue, leaves no list of size + 1 nodes |
| `Queues.AppendingReached` | kernel/src/kernel/data_structures/queue.c:43-49 | what following the links of any queue then finds: the queue that tail leads into is cut off there and goes on with the new node, all others are as before |
| `Queues.RepairedInsertion` | kernel/src/kernel/data_structures/queue.c:27-63 | the repaired insertion, in memory: tail last, times as in InsertBefore, one node more |
| `SchedulerModel.OnePlace` | kernel/src/kernel/scheduler/scheduler.c:151-331 | the invariant puts every process that is not killed in exactly one place: running, one ready queue, or asleep |
| `SchedulerModel.DispatchedGood` | kernel/src/kernel/scheduler/scheduler.c:240-331 | dispatch keeps that invariant and the processes, ends with a READY process running unless none is left, and sets a delay in (0, quantum] |
| `SchedulerModel.DispatchedWho` | kernel/src/kernel/scheduler/scheduler.c:259-331 | who runs next: the same process, or the one that has waited longest at the best priority that has any |
| `SchedulerModel.StuckMeans` | kernel/src/kernel/scheduler/scheduler.c:296-330 | nothing is left to run if and only if no process is READY |
| `SchedulerModel.WokenIsAged` | kernel/src/kernel/scheduler/scheduler.c:205-238 | get_next_sleep ages the deltas as Sleepers.Aged says |
| `SchedulerModel.QueuedIsInserted` | kernel/src/kernel/scheduler/scheduler.c:165-173 | schedule of a sleeper inserts it into the deltas as Sleepers says |
| `SchedulerTimes.DispatchedQuantum` | kernel/src/kernel/scheduler/scheduler.c:248-279 | dispatch charges the elapsed time: a READY process goes on with the rest of its quantum; whoever else runs next starts with 10 |
| `SchedulerTimes.QuantumLasts` | kernel/src/kernel/scheduler/scheduler.c:240-331 | over any run in which it neither sleeps nor exits, a process runs on as long as the times add up to less than its quantum |
| `SchedulerTimes.QuantumEnds` | kernel/src/kernel/scheduler/scheduler.c:270-279 | when they reach it, the process goes behind all others of its priority |
| `SchedulerTimes.TimerSet` | kernel/src/kernel/scheduler/scheduler.c:281-294 | the timer is set to the end of the quantum, or to when the first sleeper is due if that is earlier and not already past |
| `SchedulerTimes.SleepEvent` | kernel/src/kernel/scheduler/scheduler.c:184-278 | what a sleep leaves in the sleep queue, process by process and delta by delta |
| `SchedulerTimes.SleepExact` | kernel/src/kernel/scheduler/scheduler.c:184-278 | for every state and every sleep that loses nobody: the process is asleep with all of its time left if and only if Charged's condition holds |
| `SchedulerTimes.ChildQueued` | kernel/src/kernel/syscalls/syscalls.c:57-113 | the child is READY, has its parent's priority and stands behind all others of it; the parent runs on |
| `SchedulerModel.LosesMeans` | kernel/src/kernel/data_structures/queue.c:43-49 | a sleep loses a process if and only if it is to last longer than all others while tail does not hold the address of the last node |
| `SchedulerModel.LagStarts` | kernel/src/kernel/data_structures/queue.c:55-59 | a tail that is last is left behind if and only if a sleep ends between the last two sleepers |
| `SchedulerModel.LagEnds` | kernel/src/kernel/data_structures/block.c:37-52 | and a tail that is not last becomes last again, without an append, if and only if the block it leads to is free, is the next to be taken, and goes to a sleep that ends between the last two |
| `SchedulerModel.RunExact` | kernel/src/kernel/scheduler/scheduler.c:151-331 | over any run of timer, sleep, exit, fork and set_priority events, every process stays in exactly one place if and only if no event appends through a tail that is not the address of the last sleeper's node |
| `SchedulerModel.LossExample` | kernel/src/kernel/data_structures/queue.c:43-59 | with 10 and 20 to go, a sleep of 15 and then one of 100 lose a process |
| `SchedulerModel.ReuseExample` | kernel/src/kernel/data_structures/block.c:37-52 | the same two sleeps lose nothing when tail leads to the block freed last: the first sleeper is given it |
| `SchedulerModel.HappensMatched` | kernel/src/kernel/scheduler/scheduler.c:151-331 | every event that loses nothing keeps one node for every queued process, and, repaired, tail last |
| `SchedulerModel.RunRepaired` | kernel/src/kernel/scheduler/scheduler.c:151-331 | with the repaired insertion no run loses a process |
| `Scheduler.Scheduler.constructor` | kernel/src/kernel/scheduler/scheduler.c:42-60 | scheduler_init and the first process satisfy the invariant |
| `Scheduler.Scheduler.Schedule` | kernel/src/kernel/scheduler/scheduler.c:151-182 | puts the process at the end of its ready queue or into the sleep queue, in the node the allocator gives next; panics exactly on other states; when the append goes through a tail that is not last, the queues hold what Severed says |
| `Scheduler.Scheduler.GetNextSleep` | kernel/src/kernel/scheduler/scheduler.c:205-238 | refines Woken |
| `Scheduler.Scheduler.Dispatch` | kernel/src/kernel/scheduler/scheduler.c:240-331 | refines Dispatched, on nodes, free blocks and control blocks in memory; when the process put to sleep is appended through a tail that is not last, says what is then left in every queue |
| `Scheduler.Scheduler.TimerInterrupt` | kernel/src/kernel/scheduler/scheduler.c:199-203 | refines the timer event; nothing is lost |
| `Scheduler.Scheduler.SleepPcb` | kernel/src/kernel/scheduler/scheduler.c:184-196 | refines the sleep event; a loss happens exactly when LosesBy says so, and memory then holds Lost |
| `Scheduler.Scheduler.MSleep` | kernel/src/kernel/syscalls/syscalls.c:141-150 | the same for the low 32 bits of rdi |
| `Scheduler.Scheduler.Exit` | kernel/src/kernel/syscalls/syscalls.c:130-135 | refines the exit event; its control block is never given back |
| `Scheduler.Scheduler.Fork` | kernel/src/kernel/syscalls/syscalls.c:52-115 | refines the fork event; panics if and only if 1024 processes have been created since boot |
| `Scheduler.Scheduler.SetPriority` | kernel/src/kernel/syscalls/syscalls.c:156-162 | refines the event; panics exactly above IDLE |
| `Scheduler.NodesInUse` | kernel/src/kernel/scheduler/scheduler.c:151-182 | queue nodes in use never exceed the processes that are not running |
| `Scheduler.Scheduler.Room` | kernel/src/kernel/scheduler/scheduler.c:157-169 | so the ASSERTs on new nodes never fire |
| `Scheduler.Regions` | kernel/src/kernel/scheduler/scheduler.c:42-52 | the regions of scheduler_init hold 2046 nodes and 1024 control blocks |
| `TetrisModel.EveryGame` | programs/src/init/tetris.c:577-745 | after any keys and shapes: occupied cells = 4 * pieces - 10 * lines, score = 100 * lines, no full row while spawning or falling, and the falling piece on empty cells of the board |
| `TetrisModel.EveryPieceLands` | programs/src/init/tetris.c:629-664 | without pause and quit, a falling piece comes to rest within (21 - y) * ticks_per_drop - ticks ticks |
| `TetrisModel.FellRests` | programs/src/init/tetris.c:629-664 | a tick leaves the piece on empty cells, or at rest on something, with just its four cells added to the board, even where the tick places it twice |
| `TetrisModel.PutCounts` | programs/src/init/tetris.c:438-450 | placement of a free piece fills exactly four cells that were empty |
| `TetrisModel.PutTwice` | programs/src/init/tetris.c:438-450 | a second placement at the same spot changes nothing |
| `TetrisModel.DepthEnds` | programs/src/init/tetris.c:422-432 | a drop passes only free places and stops above one that is not |
| `TetrisModel.CompactRow` | programs/src/init/tetris.c:502-539 | a kept row falls by the number of cleared rows beneath it, for any board and any full_lines |
| `TetrisModel.CompactBlank` | programs/src/init/tetris.c:502-539 | and all rows above the kept ones are empty |
| `TetrisModel.CompactCounts` | programs/src/init/tetris.c:502-539 | clearing the full rows takes ten cells a row and leaves no full row |
| `TetrisRuns.PiecesInOrder` | programs/src/init/tetris.c:601-603 | in every game the pieces that appear are the one announced first and then the shapes drawn, each when the one before it appeared; the last drawn is the one announced |
| `TetrisRuns.PieceAppears` | programs/src/init/tetris.c:601-628 | each appears unrotated at the top in the middle, and falls if it fits there; otherwise the game is over |
| `TetrisRuns.SinksOnTime` | programs/src/init/tetris.c:641-651 | left alone, a piece stands still for ticks_per_drop ticks and then sinks by one row, or comes to rest where it cannot |
| `TetrisRuns.NeverSlower` | programs/src/init/tetris.c:314-338 | over any play the ticks per drop never grow, stay within 10 and 62, and are 62 exactly while fewer than ten lines have been cleared |
| `TetrisRuns.LinesClear` | programs/src/init/tetris.c:665-695 | full rows are found in one tick, stay for twelve and are then cleared and counted |
| `TetrisRuns.NoLines` | programs/src/init/tetris.c:665-676 | without a full row the next piece comes at once |
| `TetrisRuns.PauseTwice` | programs/src/init/tetris.c:586-599 | pause, any number of ticks, and pause again: the game goes on as if it had not been paused |
| `TetrisRuns.LeftRight` | programs/src/init/tetris.c:400-410 | a move to one side is undone by the key for the other |
| `TetrisRuns.TurnsByQuarters` | programs/src/init/tetris.c:67-113 | each rotation of a shape is the one before it turned by a quarter and shifted; J, L and T turn about their origin |
| `TetrisRuns.HangsTogether` | programs/src/init/tetris.c:67-113 | the four cells of a shape hang together in every rotation |
| `Tetris.Engine.CheckCollision` | programs/src/init/tetris.c:280-298 | reports a collision if and only if one of the four cells is outside or taken |
| `Tetris.Engine.HandleActions` | programs/src/init/tetris.c:395-436 | which key moves the piece where, and the drop loop's end |
| `Tetris.Engine.PlaceBlock` | programs/src/init/tetris.c:438-450 | writes just the piece's cells |
| `Tetris.Engine.CheckForLines` | programs/src/init/tetris.c:452-481 | full_lines marks exactly the full rows |
| `Tetris.Engine.ClearLines` | programs/src/init/tetris.c:502-539 | the two cursors, in place, give blank rows above the kept ones in their order, for any full_lines |
| `Tetris.Engine.UpdateScore` | programs/src/init/tetris.c:314-338 | adds the marked lines to the totals and speeds up from ten lines on |
| `Tetris.Engine.Update` | programs/src/init/tetris.c:577-703 | one tick refines Next and keeps the invariant; a new piece is the one announced, at screen origin (40, 2), unrotated |
| `Tetris.Engine.PlayGame` | programs/src/init/tetris.c:705-745 | a whole game refines Play from NewGame |

## Findings

Where the code does something else than it is for, the model keeps the code, and these say exactly when it is right.

- `phys_free_4KIB` (phys_alloc.c:298-301 and 337). Freeing the last frame out of a listed, used-up pool passes a
  kernel pointer to `phys_free_2MIB`, which adds KERNEL_BASE again and faults; freeing any frame when every pool is
  exhausted panics. Input: `BlockedExample`, and 511 frames taken from the only pool, one freed. `Free4Kib`: it
  returns if and only if neither is the case (`PhysBook.Blocked`). Cleanup, reset and unmapping inherit the condition.
- `queue_enqueue_prio` (queue.c:55-59). It links after `other`. Input: 10 and 20 to go, insert 15 (`AsWrittenExample`).
  Times are right if and only if the queue is empty, the new sleeper wakes no later than the first, or later than all
  (`AsWritten`). It also leaves `tail` behind if and only if the new sleeper goes between the last two (`LagStarts`).
  From then on `tail` may lead to an earlier node, to a block that has been freed, or to a node of a ready queue; it is
  last again after an append, or when the block it leads to is given to a new last sleeper (`LagEnds`,
  `ReuseExample`). A sleep that is to outlast all others while `tail` is not last loses processes (`LosesMeans`,
  `StaleTailLoses`; input: `LossExample`), and a run keeps every process in one place if and only if that never
  happens (`RunExact`).
- `virt_map_phys` (paging.c:201-213). A large mapping overwrites a present page table. Input: `LostExample`. Nothing is
  lost if and only if the page is small or its directory entry does not lead to a page table (`NothingLost`).
- `virt_lookup_phys` (paging.c:470-489). Large-page offsets lose bits 12 to 20, and a missing page under a page table
  is found at 0. Input: any page but the first of a large page. Right if and only if `LookupTruth`'s condition holds.
- `fork` (syscalls.c:98-106). It uses that lookup: with the Pid in a large page the child's 1 lands in the region's
  first page (`LandingExample`). The child finds its 1 if and only if the lookup leads to rdi, or a 1 was there
  (`ForkTells`).
- `get_next_sleep` (scheduler.c:214-231). Only one sleeper wakes per dispatch, and what is left of the elapsed time is
  dropped. All others are aged by the elapsed time if and only if the head had at least that long to go or slept alone
  (`AgedExactly`).
- `dispatch` (scheduler.c:270-278). It queues a process that goes to sleep before it ages the queue. Input: run for 8,
  sleep for 5 (`ChargedExample`). Where the insertion gives the right time, the sleeper has all of it left if and only
  if no time has passed, or it stands behind a head whose time is up; where it is linked in one place too far, if and
  only if the time taken off makes up for the time it has too much (`Charged`; `SleepExact` says so of the scheduler's
  own state).
- `exit` (syscalls.c:132, then scheduler.c:262) cleans up the same table twice. After the first cleanup, as written,
  every frame and chunk of the space is free (`AllStacked`), and the first one the second cleanup frees is one of them
  (`SecondCleanup`); pushing it again leaves a ring in memory that is no free stack (`FreedTwiceBreaks`,
  `ChunkTwiceBreaks`).
- `exit` never gives the process control block back: the 1025th process ever created panics (`Scheduler.Fork`).
- `get_total_usable_ram` (physical.c:365). Case 1 takes every region that contains the kernel, so what lies above the
  kernel is given up (`CaseFour`, `CarvedKeeps`).
- `phys_memory_init` (physical.c:91) rounds to the nearest GiB. Input: 1.25GiB of memory (`AllMappedExample`). All of it is mapped if and
  only if `AllMapped`'s condition holds; otherwise setting up the allocator may fault (`SetupPhysicalAllocator`).

## Left out

- Recursion by level: the four cleanup and the four clone functions of paging.c differ in their level only; one method
  with a level argument stands for them, and one for the three allocations of virt_map_phys.
- Addresses: frames are numbers, not `uint64_t` addresses, and words are natural numbers.
- The kernel half: clones copy its 256 entries; changes made below them later are shared and not modelled.
- virt_map_phys_range, and mappings of frames that were not allocated (the VGA page at paging.c:70).
- invlpg, CR3 loads and memory barriers.
- Fork.ForkMemory: takes the context to be in a small page, as the loader maps it (kernel/src/kernel/elf/elf.c:166), and
  does not model a Pid pointer that is unaligned or in the kernel half, which the system call accepts,
  because a store across two words or into kernel memory has no place in the address spaces modelled.
- Scheduler.Scheduler.Dispatch: after an append through a tail that is not last the run stops, because the free blocks
  and the queues may then share nodes; what the queues hold at that moment is stated. That the append was one of these
  is found by comparing tail with the node before, which the code does not do.
- PageUnmap.VirtLookupPhys: looks up user addresses only, because the tables of the kernel half are not modelled as
  trees.
- Sleepers.AsWritten: times are natural numbers; a sum of deltas above 2^32 is not wrapped.
- Scheduler and memory are separate machines: Exit marks the process and VirtMem.Cleanup frees its space; the page
  table of a process is not a field of its control block in the model.
- IdentityMap.CreatePagingStructures: the second loop, for memory beyond 1TiB, is not modelled, because no frame number
  reaches that far.
- Boot.PhysMemoryInit: mmap_array entries are disjoint when usable and end below 512GiB, because the frames of the model
  stop there.
- `placed` is bookkeeping of the model: how many pieces were placed.
- Drawing, keyboard, random numbers, timer hardware, interrupts, sound, shell and the ELF loader.
- Copy-on-write, which is present only in comments, the watermark allocator and the linked list.
