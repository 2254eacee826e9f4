# A model of the x64BareBones kernel, with proofs

This project models the parts of the x64BareBones teaching kernel whose correctness is not plain from
reading them, and proves what they are for:

- **Buddy allocator.** Free lists by order, splitting and merging. The free blocks are always the unique
  fully coalesced tiling of the free bytes, so freeing everything, in any order, gives back the initial
  lists; a request fails only if no suitable range exists.
- **Bitmap allocator.** First fit over pages with run lengths and counters.
- **Scheduler.** Four weighted priority queues, quanta, blocking, zombies and reaping, as a transition
  system over guarded events and as a class over process records. Placement, families and pids are
  invariants of every run; starvation and share bounds are stated for picks and for ticks. Where the code
  relies on its callers, a lemma says exactly which calls are safe.
- **Semaphores**, any number of them on top of the scheduler, with their accounts and their names.
- **Protocols on semaphores.** The kernel pipe, the one-slot mailbox of the readers/writers program and the
  synchronised counter, each for any number of processes and every interleaving.
- **Loops with an arithmetic law.** The filled circle, the module packer and loader with both copying loops,
  number printing and parsing, and the linked queue and list under everything else.

An imperative source file appears twice: as functions on values, about which the laws are proved, and as
classes and methods with the source's own loops and assignments, proved to compute those functions. The two
user programs `readersWriters.c` and `test_sync.c` are protocols between processes and have only the first
form, one step per statement; so have the two sides of the pipe, apart from its buffer. A kernel path runs
with interrupts disabled, so it is one atomic step up to its explicit timer interrupt or yield.

What each call does is stated once more on queues, lists and entries, apart from the functions that compute
it, in `BuddyChoice`, `SchedulerEffects`, `KernelEffects`, `PipeProgress` and `MvarProgress`; the last two and
`SyncCounter` also show that the protocols can run to their end.

The files are grouped by prefix: `Tilings`, `Buddy*` and `Powers`; `Bitmap*`; `Scheduler*`, `Fairness`,
`Starvation` and `KernelScheduler`; `Semaphore*`, `KernelSemaphores` and `KernelEffects`; `Pipe*`, `Mvar*` and
`SyncCounter`; `Circle`; `LinkedQueue`, `DoublyLinkedList`, `Matching` and `Sequences`; `ModuleImage`,
`Numerals` and `NumberText`. `dafny verify dfyconfig.toml` checks the project.

Where the code departs from what one would expect, the model follows the code:

- `mem_init` of the buddy allocator rounds an unaligned base down and extends the length by the offset, so
  its layout leaves the memory it was given (`BuddyProofs.LayoutInsideRegionIff`).
- It then places the first block at the next address that the top block size divides, and nothing before it.
  Of the kernel's own pool this loses 2 MiB less a page (`BuddyPool.KernelPool`); a pool of 2^o bytes at a
  multiple of 2^o is lost altogether (`BuddyPool.OwnSizedPoolIsEmpty`, `BuddyPool.LostLessThanPageIff`).
- Changing the priority of the running process queues it while it is still marked as running
  (`SchedulerRuns.NiceSafeIff`).
- Killing a process that waits on a semaphore leaves its pid in the queue (`KernelSemaphores.KillSafeIff`).
- The lower bound of the circle's loop is strict below the diagonal only (`Circle.OnCircle`).
- `itoa` prints no negative number correctly in a base other than 10, nor the least 32-bit number in base 10
  (`Numerals.ItoaDenotesIff`); `write_int` prints them all (`NumberText.WriteInt`).
- `memcpy` rules out overlapping buffers in its comment; it copies them all the same if the destination lies
  below the source, and repeats the first bytes if it lies above (`ModuleImage.MemCopyIff`).
- The counter of the synchronisation test is wrong under some schedule as soon as the semaphore is left out
  and there is work to do (`SyncCounter.TestEndsAtZeroIff`).
- `Enqueue` drops null, which is the pid of idle: on a semaphore idle would sleep without being queued
  (`SemaphoreObjects.Semaphore.Wait`), and it is no waiter in the protocols.

## Model

| member | source | states |
|---|---|---|
| Tilings.CoalescedTilingUnique | x64BareBones/Kernel/mem/pmem_buddy.c:88-133 | two sets of aligned, disjoint, fully coalesced blocks that cover the same bytes are the same set |
| Tilings.RangeInOneBlock | x64BareBones/Kernel/mem/pmem_buddy.c:72-107 | in a coalesced tiling every aligned, wholly covered range lies inside a single block |
| Tilings.BuddyInvolution | x64BareBones/Kernel/mem/pmem_buddy.c:23-26 | the buddy of a block's buddy is the block itself |
| BuddyProofs.InitInv | x64BareBones/Kernel/mem/pmem_buddy.c:29-70 | for any base, the initial blocks keep the whole invariant exactly if the order map has room for them; they tile the whole pages from the first address behind the order map that the top block size divides, up to the layout's end, and nothing before that address |
| BuddyProofs.LayoutArithmetic | x64BareBones/Kernel/mem/pmem_buddy.c:31-54 | where the order map, the managed region and its end lie for any base, the wrapping subtraction included: an unaligned base moves the end up by its offset |
| BuddyProofs.LayoutInsideRegionIff | x64BareBones/Kernel/mem/pmem_buddy.c:31-54 | the layout stays inside the memory it was given exactly when the base is page-aligned |
| BuddyProofs.LayoutFacts | x64BareBones/Kernel/mem/pmem_buddy.c:31-68 | for any base, where the layout begins and ends, and that the order map is long enough for every block placed, except for a region without a whole page whose end, moved up by its offset, makes one |
| BuddyProofs.SplitDownInv | x64BareBones/Kernel/mem/pmem_buddy.c:88-101 | the split loop keeps the tiling and the order map, and leaves a block of the wanted order at the head of its list |
| BuddyProofs.AllocInv | x64BareBones/Kernel/mem/pmem_buddy.c:72-107 | allocation keeps the whole invariant; the block is at least as large as the request, lies in the region, was entirely free, and exactly its bytes leave the free set; a failing request changes nothing |
| BuddyProofs.AllocFailsIffNoRange | x64BareBones/Kernel/mem/pmem_buddy.c:74-86 | a request fails exactly when no aligned, wholly free range of the rounded-up power of two exists anywhere |
| BuddyProofs.CoalesceInv | x64BareBones/Kernel/mem/pmem_buddy.c:116-133 | the merge loop ends with a block that has no free buddy, in a tiling of the same bytes |
| BuddyProofs.FreeInv | x64BareBones/Kernel/mem/pmem_buddy.c:109-134 | freeing a live block finds its true order, keeps the whole invariant and adds exactly its bytes to the free set |
| BuddyProofs.FreeSetDeterminedByLive | x64BareBones/Kernel/mem/pmem_buddy.c:88-133 | the set of free blocks is a function of the set of live blocks: no history can show in it |
| BuddyProofs.AllocThenFree | x64BareBones/Kernel/mem/pmem_buddy.c:72-134 | freeing what was just allocated restores the set of free blocks |
| BuddyProofs.StatsAreExact | x64BareBones/Kernel/mem/pmem_buddy.c:136-152 | total is the managed region, used the sum of the live block sizes, free the sum of the free ones |
| BuddyProofs.StepInv | x64BareBones/Kernel/mem/pmem_buddy.c:72-134 | one allocation or one free of null or of a live block keeps the invariant |
| BuddyProofs.RunInv | x64BareBones/Kernel/mem/pmem_buddy.c:72-134 | the invariant (tiling, coalescing, order map) holds after any run of allocations and frees |
| BuddyProofs.FullyFreedIsInitial | x64BareBones/Kernel/mem/pmem_buddy.c:52-134 | after any run that has freed every block, in any order, the free blocks are the ones `mem_init` made |
| BuddyPool.LostLessThanPageIff | x64BareBones/Kernel/mem/pmem_buddy.c:52-70 | the memory lost behind the order map is less than a page exactly if the top block size divides the address there or no whole page is left; otherwise everything up to the next such address is lost |
| BuddyPool.NothingToAllocateIff | x64BareBones/Kernel/mem/pmem_buddy.c:52-86 | every request fails on the fresh pool exactly if it manages nothing, which is exactly if that first address leaves no whole page |
| BuddyPool.OwnSizedPoolIsEmpty | x64BareBones/Kernel/mem/pmem_buddy.c:29-70 | a pool of 2^o bytes at a multiple of 2^o manages nothing, for every order |
| BuddyPool.MaxOrderIsLargest | x64BareBones/Kernel/mem/pmem_buddy.c:34-38 | for any length of a page or more the order loop stops at the largest order below the maximum whose blocks fit |
| BuddyPool.InitDescends | x64BareBones/Kernel/mem/pmem_buddy.c:52-68 | every initial free list is in descending address order |
| BuddyPool.MaxOrderOfPower | x64BareBones/Kernel/mem/pmem_buddy.c:34-38 | the order loop on a power of two stops at its exponent |
| BuddyPool.KernelPool | x64BareBones/Kernel/core/kernel.c:62-66 | of the kernel's own pool, 8 MiB at 6 MiB, one page holds the order map, 2 MiB less a page are lost and 6 MiB managed |
| BuddyChoice.SplitDownIs | x64BareBones/Kernel/mem/pmem_buddy.c:88-101 | splitting the head of a list leaves one piece on every list passed, the last two pieces on the list of the wanted order, and no other list changed |
| BuddyChoice.AllocExactly | x64BareBones/Kernel/mem/pmem_buddy.c:72-107 | a request is served from the head of the first sufficient non-empty list: it gets the last piece of that block, one piece stays on each list passed, every other list is as it was; it fails with no change if all those lists are empty |
| BuddyChoice.AllocTakesSmallest | x64BareBones/Kernel/mem/pmem_buddy.c:72-107 | over the set of free blocks: the block returned is the last piece of a smallest free block that suffices, every other free block stays free, and what becomes free lies inside the block split |
| BuddyChoice.FreeExactly | x64BareBones/Kernel/mem/pmem_buddy.c:109-134 | a freed block is merged exactly as long as its buddy is listed, each such buddy leaves its list, the result is put at the head of its own list, and no other list changes |
| BuddyChoice.LastFreedFirst | x64BareBones/Kernel/mem/pmem_buddy.c:72-134 | the block freed last, merged, is the first to be handed out for a request of its size |
| BuddyAllocator.FillAll | x64BareBones/Kernel/mem/pmem_buddy.c:53-68 | the placement loops over the orders compute the specified fill |
| BuddyAllocator.FillOne | x64BareBones/Kernel/mem/pmem_buddy.c:59-67 | the inner placement loop, one order |
| BuddyAllocator.Allocator.constructor | x64BareBones/Kernel/mem/pmem_buddy.c:29-70 | the arrays hold the specified initial state, valid and with nothing live |
| BuddyAllocator.Allocator.Alloc | x64BareBones/Kernel/mem/pmem_buddy.c:72-107 | the in-place allocator returns the specified address, reaches the specified state and stays valid |
| BuddyAllocator.Allocator.OrderForSize | x64BareBones/Kernel/mem/pmem_buddy.c:74-76 | the order loop finds the specified order |
| BuddyAllocator.Allocator.FirstFit | x64BareBones/Kernel/mem/pmem_buddy.c:80-86 | the search loop finds the first non-empty list |
| BuddyAllocator.Allocator.SplitLoop | x64BareBones/Kernel/mem/pmem_buddy.c:88-101 | the split loop in place equals the specified splitting and keeps its invariant |
| BuddyAllocator.Allocator.SplitHead | x64BareBones/Kernel/mem/pmem_buddy.c:90-100 | one split of a list head, with both order-map entries |
| BuddyAllocator.Allocator.TakeHead | x64BareBones/Kernel/mem/pmem_buddy.c:103-106 | the head of the list is taken and its order recorded |
| BuddyAllocator.Allocator.Free | x64BareBones/Kernel/mem/pmem_buddy.c:109-134 | null is ignored; a live block is freed as specified and stops being live |
| BuddyAllocator.Allocator.MergeAndPush | x64BareBones/Kernel/mem/pmem_buddy.c:116-133 | the merge loop and the final push equal the specified coalescing |
| BuddyAllocator.Allocator.UnlinkBuddy | x64BareBones/Kernel/mem/pmem_buddy.c:120-128 | the list walk finds the buddy exactly if it is listed and unlinks it |
| BuddyAllocator.Allocator.GetStats | x64BareBones/Kernel/mem/pmem_buddy.c:136-152 | the counting loops give total, used and free exactly |
| BitmapModel.PagesNeededIsLeast | x64BareBones/Kernel/mem/pmem_bitmap.c:26-34 | the page count is the least positive number of pages that holds the request, one for an empty request |
| BitmapModel.TablesFit | x64BareBones/Kernel/mem/pmem_bitmap.c:61-73 | bitmap and length table lie one after the other inside the metadata pages |
| BitmapModel.RoundUpIsLeast | x64BareBones/Kernel/mem/pmem_bitmap.c:61-73 | a table takes the least number of whole pages that holds it |
| BitmapModel.MetaPagesIsLeast | x64BareBones/Kernel/mem/pmem_bitmap.c:61-78 | the metadata are the least pages for a byte per page and, behind them, the least for four bytes per page |
| BitmapModel.InitInv | x64BareBones/Kernel/mem/pmem_bitmap.c:49-101 | initialisation fails exactly without a page beside the metadata, and otherwise establishes the invariant with no run live |
| BitmapModel.AllocInv | x64BareBones/Kernel/mem/pmem_bitmap.c:103-142 | null exactly if no run of free pages is long enough anywhere, the early exit included; otherwise the lowest such run, outside metadata and live runs; the invariant holds on |
| BitmapModel.FreeInv | x64BareBones/Kernel/mem/pmem_bitmap.c:144-167 | freeing the first page of a run frees exactly that run; any other page of the pool is a no-op; the invariant holds on |
| BitmapModel.RunsDisjoint | x64BareBones/Kernel/mem/pmem_bitmap.c:128 | no page belongs to two live runs |
| BitmapModel.AllocThenFree | x64BareBones/Kernel/mem/pmem_bitmap.c:103-167 | freeing a block just allocated restores bitmap, lengths and counters exactly |
| BitmapModel.RunNeedsPages | x64BareBones/Kernel/mem/pmem_bitmap.c:105-109 | a free run is never longer than the number of free pages, which makes the early exit sound |
| BitmapModel.RunInv | x64BareBones/Kernel/mem/pmem_bitmap.c:103-167 | in every reachable state a page is marked exactly if it is metadata or in one live run, and the counters match |
| BitmapModel.KernelPool | x64BareBones/Kernel/core/kernel.c:62-66 | the kernel's 8 MiB at 6 MiB have 3 metadata pages and 2045 free ones, and the first page handed out is the fourth |
| BitmapAllocator.MemInit | x64BareBones/Kernel/mem/pmem_bitmap.c:49-101 | -1 and no pool exactly without a page beside the metadata, otherwise 0 and the specified pool, valid |
| BitmapAllocator.Allocator.constructor | x64BareBones/Kernel/mem/pmem_bitmap.c:75-100 | the clearing and marking loops build the specified pool |
| BitmapAllocator.Allocator.FindRun | x64BareBones/Kernel/mem/pmem_bitmap.c:110-141 | the streak-counting scan finds the lowest run of k free pages, or none |
| BitmapAllocator.Allocator.Alloc | x64BareBones/Kernel/mem/pmem_bitmap.c:103-142 | the allocator in place equals the specified allocation and stays valid |
| BitmapAllocator.Allocator.Free | x64BareBones/Kernel/mem/pmem_bitmap.c:144-167 | the freeing loop in place equals the specified free for any address in the pool |
| BitmapAllocator.Allocator.GetStats | x64BareBones/Kernel/mem/pmem_bitmap.c:169-174 | the statistics are the page counts of the bitmap in bytes |
| SchedulerInvariant.PickKeepsCredits | x64BareBones/Kernel/sched/scheduler.c:198-217 | a pick never lets a queue's credit exceed its weight |
| SchedulerInvariant.PickFindsWork | x64BareBones/Kernel/sched/scheduler.c:198-217 | the pick gives up only if every ready queue is empty |
| SchedulerInvariant.DispatchInv | x64BareBones/Kernel/sched/scheduler.c:219-232 | dispatching restores the full invariant from a state with nobody current |
| SchedulerInvariant.ScheduleInv | x64BareBones/Kernel/sched/scheduler.c:234-261 | the timer interrupt keeps the invariant, whether it counts down, preempts or only dispatches |
| SchedulerSteps.BlockInv | x64BareBones/Kernel/sched/scheduler.c:370-399 | blocking the running process or a ready one keeps the invariant |
| SchedulerSteps.UnblockInv | x64BareBones/Kernel/sched/scheduler.c:401-411 | unblocking a sleeper that waits for nothing, or whose child has ended, keeps the invariant |
| SchedulerSteps.YieldInv | x64BareBones/Kernel/sched/scheduler.c:413-417 | yielding keeps the invariant |
| SchedulerSteps.CreateInv | x64BareBones/Kernel/sched/scheduler.c:117-155 | creating a process keeps the invariant, family lists and pid bounds included |
| SchedulerSteps.NiceInv | x64BareBones/Kernel/sched/scheduler.c:263-285 | changing the priority of a process that is not running keeps the invariant |
| SchedulerSteps.SemBlockInv | x64BareBones/Kernel/semaphore/semaphore.c:99-105 | blocking on a semaphore and yielding keeps the invariant |
| SchedulerSteps.SemWakeInv | x64BareBones/Kernel/semaphore/semaphore.c:81-84 | a post that wakes a sleeper keeps the invariant |
| SchedulerExit.OrphanIs | x64BareBones/Kernel/sched/scheduler.c:321-330 | the orphaning loop clears the parent of exactly the listed children |
| SchedulerExit.ReapAllIs | x64BareBones/Kernel/sched/scheduler.c:333-342 | the reaping loop deletes exactly the listed zombies |
| SchedulerExit.TerminateIs | x64BareBones/Kernel/sched/scheduler.c:311-368 | termination amounts to leaving every queue, settling the family, waking a waiting parent and dispatching |
| SchedulerExit.WakesWaitingParent | x64BareBones/Kernel/sched/scheduler.c:346-355 | a parent asleep in `waitPid` on a child is ready or running once that child has ended: no wake-up is lost |
| SchedulerExit.TerminateInv | x64BareBones/Kernel/sched/scheduler.c:311-368 | terminating any process but idle or a zombie keeps the invariant |
| SchedulerExit.ResumeFindsZombie | x64BareBones/Kernel/sched/scheduler.c:547-557 | a process that slept in `waitPid` runs again only once its child is a zombie it lists |
| SchedulerExit.WaitPidInv | x64BareBones/Kernel/sched/scheduler.c:537-559 | waiting for one's own child keeps the invariant, on the sleeping path as on the immediate one |
| SchedulerExit.ReapInv | x64BareBones/Kernel/sched/scheduler.c:553-557 | collecting a zombie keeps the invariant |
| SchedulerExit.ResumeInv | x64BareBones/Kernel/sched/scheduler.c:547-559 | finishing a `waitPid` after the sleep keeps the invariant |
| SchedulerRuns.InitialInv | x64BareBones/Kernel/sched/scheduler.c:95-115 | the state after initialisation satisfies the invariant |
| SchedulerRuns.StepInv | x64BareBones/Kernel/sched/scheduler.c:117-417 | every guarded event keeps the invariant |
| SchedulerRuns.RunInv | x64BareBones/Kernel/sched/scheduler.c:95-559 | the invariant holds after any run of guarded events |
| SchedulerRuns.PlacedExactlyOnce | x64BareBones/Kernel/sched/scheduler.c:117-417 | in every reachable state each process is in exactly the one place its state names: current with a quantum of 1 to 5, once in the ready queue of its own priority, once in the blocked queue, or a zombie in none |
| SchedulerRuns.ListedByParent | x64BareBones/Kernel/sched/scheduler.c:311-368 | each zombie is listed once by a parent that is no zombie, each other child once among the running children, and nowhere else |
| SchedulerRuns.NextPids | x64BareBones/Kernel/sched/scheduler.c:127 | only creation adds a pid, and it adds the next unused one |
| SchedulerRuns.PidsNeverReused | x64BareBones/Kernel/sched/scheduler.c:127 | a pid that is gone never names a process again |
| SchedulerRuns.BlockSafeIff | x64BareBones/Kernel/sched/scheduler.c:370-399 | blocking keeps the invariant exactly for the running process, a ready one or an unknown pid |
| SchedulerRuns.UnblockSafeIff | x64BareBones/Kernel/sched/scheduler.c:401-411 | unblocking keeps it exactly for a blocked process that no semaphore and no running child holds |
| SchedulerRuns.TerminateSafeIff | x64BareBones/Kernel/sched/scheduler.c:311-368 | termination keeps it exactly for processes other than idle and zombies |
| SchedulerRuns.WaitSafeIff | x64BareBones/Kernel/sched/scheduler.c:537-559 | `waitPid` keeps it exactly for one's own child, and for idle only if that is a zombie |
| SchedulerRuns.NiceSafeIff | x64BareBones/Kernel/sched/scheduler.c:263-285 | a change of priority keeps it exactly if the process is not running or its new queue is empty and next in line (with credit and no servable queue above, or with no usable credit anywhere and no work above); for idle, if moreover idle is marked running and nobody else is current |
| SchedulerRuns.NiceIdle | x64BareBones/Kernel/sched/scheduler.c:263-285 | the case of idle, which must not be left in a queue and must not displace a current process |
| SchedulerRuns.JoinedIsPickedIff | x64BareBones/Kernel/sched/scheduler.c:198-217 | a process that joins an empty queue alone is picked at once exactly if that queue is next in line |
| SchedulerEffects.FirstProcess | x64BareBones/Kernel/sched/scheduler.c:95-155 | the scheduler starts with idle alone and full credits; the first process created has pid 1 and the first tick sets it running for 5 ticks |
| SchedulerEffects.PickIsHighest | x64BareBones/Kernel/sched/scheduler.c:198-217 | for any queues, the queue picked is the highest that has work and credit, the credits being the weights if no queue had both; it pays one credit, and none is picked only if all are empty |
| SchedulerEffects.DispatchServes | x64BareBones/Kernel/sched/scheduler.c:219-232 | that queue's head, and nobody else, is set running for 5 ticks and leaves its queue; with nothing ready idle is made current |
| SchedulerEffects.TickIs | x64BareBones/Kernel/sched/scheduler.c:234-261 | a tick takes one from the running quantum, or on the last sends the process to the end of its own queue and dispatches |
| SchedulerEffects.YieldIs | x64BareBones/Kernel/sched/scheduler.c:413-417 | a process that yields is at the end of its own queue and the next one is dispatched |
| SchedulerEffects.CreateIs | x64BareBones/Kernel/sched/scheduler.c:117-155 | a new process gets the next pid, priority 2 and its creator as parent, joins the end of queue 2 and the front of the parent's children, and nothing else changes |
| SchedulerEffects.NiceIs | x64BareBones/Kernel/sched/scheduler.c:263-285 | for every process but a zombie the priority afterwards is the one asked for; if it is not running, only its entry and, if it is ready, its place (the end of the new queue) change; if it is running it is queued and the next one dispatched |
| SchedulerEffects.NicedSleeper | x64BareBones/Kernel/sched/scheduler.c:263-285 | a sleeper whose priority is changed joins the end of its new queue when it is unblocked |
| SchedulerEffects.BlockIs | x64BareBones/Kernel/sched/scheduler.c:370-399 | a process that blocks itself joins the end of the blocked queue and the next one is dispatched; a ready one moves from its ready queue to the blocked queue |
| SchedulerEffects.UnblockIs | x64BareBones/Kernel/sched/scheduler.c:401-411 | an unblocked process leaves the blocked queue for the end of the ready queue of its priority |
| SchedulerEffects.TerminateServes | x64BareBones/Kernel/sched/scheduler.c:311-368 | a process that ends leaves every queue; its children lose their parent, its zombies are deleted, it is left to its parent or deleted, a parent waiting for it wakes, and if it was running the next one is dispatched |
| SchedulerEffects.WaitSleeps | x64BareBones/Kernel/sched/scheduler.c:537-551 | waiting for a running child blocks the caller on it and dispatches |
| SchedulerEffects.ZombieCollected | x64BareBones/Kernel/sched/scheduler.c:553-558 | a zombie child is deleted and leaves its parent's list, at once or after the sleep |
| SchedulerEffects.SemBlockServes | x64BareBones/Kernel/semaphore/semaphore.c:99-105 | sleeping on a semaphore puts the caller at the end of the blocked queue and dispatches |
| SchedulerEffects.SemWakeIs | x64BareBones/Kernel/semaphore/semaphore.c:81-84 | waking from one puts the sleeper at the end of the ready queue of its priority |
| Fairness.PickProgress | x64BareBones/Kernel/sched/scheduler.c:198-217 | each pick of another queue brings a non-empty queue strictly closer to its own pick |
| Fairness.PickedWithinBound | x64BareBones/Kernel/sched/scheduler.c:198-217 | a queue that stays non-empty is picked within 7, 12, 16 or 19 picks by priority |
| Fairness.DelayIsExact | x64BareBones/Kernel/sched/scheduler.c:198-217 | with all queues busy the waiting measure falls by exactly one per pick of another queue and is zero exactly when the queue itself is picked |
| Fairness.WaitsExactly | x64BareBones/Kernel/sched/scheduler.c:198-217 | with all queues busy from some pick on, a queue is picked next after exactly as many others as its measure says |
| Fairness.AloneDrains | x64BareBones/Kernel/sched/scheduler.c:198-217 | a queue served alone uses up its own credit and no other |
| Fairness.BoundIsAttained | x64BareBones/Kernel/sched/scheduler.c:198-217 | the bounds 7, 12, 16 and 19 are exact: from the initial credits, after the queue alone has used up its own, all queues busy, precisely the last pick of its bound is its own |
| Fairness.CreditsStayOk | x64BareBones/Kernel/sched/scheduler.c:198-217 | credits never exceed weights over any sequence of picks |
| Fairness.PicksBetweenRefills | x64BareBones/Kernel/sched/scheduler.c:72-76 | between two refills a queue is picked at most as often as its weight |
| Fairness.CreditBalance | x64BareBones/Kernel/sched/scheduler.c:198-217 | with all queues busy, picks made plus credit left equal credit had plus weight times refills |
| Fairness.RoundIsExact | x64BareBones/Kernel/sched/scheduler.c:104-108 | a full round is ten picks, split 4:3:2:1 |
| Fairness.ShareIsProportional | x64BareBones/Kernel/sched/scheduler.c:198-217 | over n picks a queue's share stays within twice its weight of n times weight over ten |
| Starvation.FreshTurn | x64BareBones/Kernel/sched/scheduler.c:219-232 | a dispatch runs the head of one queue with a full quantum and leaves the other queues alone; idle runs exactly if all are empty |
| Starvation.FullTurn | x64BareBones/Kernel/sched/scheduler.c:240-257 | left alone, the running process keeps the processor for exactly the ticks of its quantum and then joins the end of its own queue |
| Starvation.DispatchShrinks | x64BareBones/Kernel/sched/scheduler.c:219-232 | a dispatch runs the waiting process or strictly lowers the number of picks it still has to wait |
| Starvation.StepShrinks | x64BareBones/Kernel/sched/scheduler.c:198-417 | every event of the scheduler does one or the other, or leaves the wait as it is and uses up the running turn |
| Starvation.WaitShrinks | x64BareBones/Kernel/sched/scheduler.c:198-417 | picks and ticks that pass are bounded by the fall of the waiting measure |
| Starvation.RunsWithinBound | x64BareBones/Kernel/sched/scheduler.c:198-261 | from position k of ready queue q a process runs within bound(q)*(k+1) picks, at most 19*(k+1), or five times as many ticks, at most 95*(k+1), whatever the others do |
| KernelScheduler.Scheduler.constructor | x64BareBones/Kernel/sched/scheduler.c:95-115 | the constructed scheduler is in the specified initial state |
| KernelScheduler.Scheduler.RefillCredits | x64BareBones/Kernel/sched/scheduler.c:72-76 | every queue gets its weight |
| KernelScheduler.Scheduler.PickNextQueue | x64BareBones/Kernel/sched/scheduler.c:198-217 | the two loops compute the specified pick and credits, -1 if all queues are empty |
| KernelScheduler.Scheduler.PickNextProcess | x64BareBones/Kernel/sched/scheduler.c:219-232 | the specified dispatch in place |
| KernelScheduler.Scheduler.TakeTick | x64BareBones/Kernel/sched/scheduler.c:240-257 | the countdown, with its unsigned wrap, and the return to the ready queue |
| KernelScheduler.Scheduler.Schedule | x64BareBones/Kernel/sched/scheduler.c:234-261 | the timer interrupt in place equals the specified step and keeps the invariant |
| KernelScheduler.Scheduler.AddProcess | x64BareBones/Kernel/sched/scheduler.c:117-155 | creation in place, with a fresh record under the next pid |
| KernelScheduler.Scheduler.ChangePriority | x64BareBones/Kernel/sched/scheduler.c:263-285 | the priority change in place, all branches |
| KernelScheduler.Scheduler.AddToBlockQueue | x64BareBones/Kernel/sched/scheduler.c:370-390 | blocking in place, for the running process and for others |
| KernelScheduler.Scheduler.BlockProcess | x64BareBones/Kernel/sched/scheduler.c:392-399 | the same followed by the interrupt if the caller blocked itself |
| KernelScheduler.Scheduler.UnblockProcess | x64BareBones/Kernel/sched/scheduler.c:401-411 | unblocking in place |
| KernelScheduler.Scheduler.Yield | x64BareBones/Kernel/sched/scheduler.c:413-417 | the quantum is set to one and the interrupt taken |
| KernelScheduler.Scheduler.OrphanChildren | x64BareBones/Kernel/sched/scheduler.c:321-330 | the orphaning loop on the records equals the specified orphaning |
| KernelScheduler.Scheduler.ReapZombies | x64BareBones/Kernel/sched/scheduler.c:333-342 | the reaping loop on the records equals the specified reaping |
| KernelScheduler.Scheduler.HandOverTo | x64BareBones/Kernel/sched/scheduler.c:346-360 | the zombie goes to its parent, which wakes if it waits for it, or is deleted |
| KernelScheduler.Scheduler.TerminateProcess | x64BareBones/Kernel/sched/scheduler.c:311-368 | termination in place equals the specified step, keeps the invariant and returns -1 exactly for an unknown pid |
| KernelScheduler.Scheduler.WaitPid | x64BareBones/Kernel/sched/scheduler.c:537-559 | `waitPid` in place up to its return or to the switch away, with its result |
| KernelScheduler.Scheduler.FinishWait | x64BareBones/Kernel/sched/scheduler.c:553-558 | the rest of `waitPid`: the child is a zombie by then, is deleted, and its pid returned |
| SemaphoreModel.OpenOkIff | x64BareBones/Kernel/semaphore/semaphore.c:52 | a new semaphore is consistent exactly if its value is not negative |
| SemaphoreModel.WaitKeepsOk | x64BareBones/Kernel/semaphore/semaphore.c:94-108 | a caller sleeps exactly if there is no token, at the end of the queue; otherwise it takes one |
| SemaphoreModel.PostKeepsOk | x64BareBones/Kernel/semaphore/semaphore.c:78-85 | a post wakes exactly the oldest waiter if there is one and otherwise leaves a token |
| SemaphoreModel.TryWaitKeepsOk | x64BareBones/Kernel/semaphore/semaphore.c:110-124 | an attempt fails exactly without a token and then changes nothing |
| SemaphoreModel.GetValueIsValue | x64BareBones/Kernel/semaphore/semaphore.c:126-145 | both ways of reading the value agree: minus the queue length is the value |
| KernelSemaphores.EventSleepers | x64BareBones/Kernel/semaphore/semaphore.c:94-108 | no scheduler event but a semaphore's own changes who sleeps on semaphores |
| KernelSemaphores.WaitKeeps | x64BareBones/Kernel/semaphore/semaphore.c:94-108 | `semWait` on any of many semaphores keeps queues, scheduler and accounts consistent |
| KernelSemaphores.PostKeeps | x64BareBones/Kernel/semaphore/semaphore.c:78-92 | so does `semPost` |
| KernelSemaphores.CallKeeps | x64BareBones/Kernel/semaphore/semaphore.c:35-145 | so does every call of the kernel |
| KernelSemaphores.KillSafeIff | x64BareBones/Kernel/semaphore/semaphore.c:78-92 | killing a process leaves the semaphores consistent exactly if it is not asleep on one |
| KernelSemaphores.Accounting | x64BareBones/Kernel/semaphore/semaphore.c:78-145 | in every reachable state a negative value counts exactly the distinct blocked waiters, each on one semaphore; wake-ups follow arrivals; completed waits are initial value plus posts less free tokens |
| KernelSemaphores.SleepersAreQueued | x64BareBones/Kernel/semaphore/semaphore.c:94-105 | every process asleep on a semaphore is in the queue of one: no wake-up is lost |
| KernelEffects.PostIs | x64BareBones/Kernel/semaphore/semaphore.c:78-92 | a post counts once and hands its token to the first of the queue, which is then ready at the end of the queue of its priority, or leaves it in the semaphore if nobody waits; nothing else changes |
| KernelEffects.WaitIs | x64BareBones/Kernel/semaphore/semaphore.c:94-108 | a wait takes a free token and returns, or puts its caller at the end of the queue, to sleep, and dispatches |
| KernelEffects.TryIs | x64BareBones/Kernel/semaphore/semaphore.c:110-124 | an attempt takes a free token or changes nothing |
| KernelEffects.OpenIs | x64BareBones/Kernel/semaphore/semaphore.c:35-60 | a new semaphore has its value, no waiters and no history; an existing one is left as it is |
| SemaphoreObjects.Semaphore.constructor | x64BareBones/Kernel/semaphore/semaphore.c:48-55 | the state of a new semaphore |
| SemaphoreObjects.Semaphore.Wait | x64BareBones/Kernel/semaphore/semaphore.c:94-108 | value, queue and scheduler change as specified, on both paths |
| SemaphoreObjects.Semaphore.Post | x64BareBones/Kernel/semaphore/semaphore.c:78-85 | the same for a post, the null dequeue included |
| SemaphoreObjects.Semaphore.TryWait | x64BareBones/Kernel/semaphore/semaphore.c:110-124 | take a token or fail without a trace |
| SemaphoreObjects.Semaphore.GetValue | x64BareBones/Kernel/semaphore/semaphore.c:126-145 | the reported value is the value |
| SemaphoreRegistry.CompareIsDictionary | x64BareBones/Kernel/semaphore/semaphore.c:170-191 | the comparison is negative exactly if the first name is a proper beginning of the second or smaller at the first place they differ |
| SemaphoreRegistry.Registry.InOrder | x64BareBones/Kernel/semaphore/semaphore.c:35-76 | before and after every call the listed names are in that order |
| SemaphoreRegistry.CompareOrders | x64BareBones/Kernel/semaphore/semaphore.c:170-191 | the comparison is zero exactly on equal names and changes sign when its arguments are swapped |
| SemaphoreRegistry.CompareTransitive | x64BareBones/Kernel/semaphore/semaphore.c:170-191 | the comparison is transitive |
| SemaphoreRegistry.CompareNames | x64BareBones/Kernel/semaphore/semaphore.c:170-191 | the comparison loop computes dictionary order |
| SemaphoreRegistry.SameName | x64BareBones/Kernel/semaphore/semaphore.c:147-161 | the matching loop decides equality of names |
| SemaphoreRegistry.OneMatch | x64BareBones/Kernel/semaphore/semaphore.c:193-199 | the first match in the list is the only semaphore of that name |
| SemaphoreRegistry.InsertName | x64BareBones/Kernel/semaphore/semaphore.c:56 | inserting a new name in order keeps the list strictly sorted |
| SemaphoreRegistry.RemoveName | x64BareBones/Kernel/semaphore/semaphore.c:73 | removing by name removes exactly the semaphore that bears it |
| SemaphoreRegistry.Registry.Get | x64BareBones/Kernel/semaphore/semaphore.c:193-199 | the one listed semaphore of a name, never one that has been unlinked, or null if there is none |
| SemaphoreRegistry.Registry.Open | x64BareBones/Kernel/semaphore/semaphore.c:35-60 | an existing semaphore is returned unchanged whatever value is asked for; otherwise a new one with that value is listed in order |
| SemaphoreRegistry.Registry.Unlink | x64BareBones/Kernel/semaphore/semaphore.c:67-76 | -1 and no change for an unknown name; otherwise exactly that semaphore leaves the list and is marked |
| PipeProtocol.StoreAppends | x64BareBones/Kernel/ipc/pipe.c:91-93 | storing into a ring that is not full appends the byte and overwrites no unread one |
| PipeProtocol.TakeRemoves | x64BareBones/Kernel/ipc/pipe.c:116-118 | taking from a ring that is not empty removes the oldest byte |
| PipeProtocol.HolderMayProceed | x64BareBones/Kernel/ipc/pipe.c:89-118 | a granted writer finds a free slot, a granted reader an unread byte |
| PipeProtocol.StepInv | x64BareBones/Kernel/ipc/pipe.c:77-124 | free write tokens, granted writers and size sum to 256, free read tokens and granted readers to size, in every step of every process |
| PipeProtocol.RunInv | x64BareBones/Kernel/ipc/pipe.c:77-124 | so in every reachable state, for any number of writers and readers |
| PipeProtocol.PipeIsFifo | x64BareBones/Kernel/ipc/pipe.c:77-124 | the bytes taken are a prefix of the bytes stored, and exactly size are unread |
| PipeProtocol.NeverStuck | x64BareBones/Kernel/ipc/pipe.c:89-120 | a writer and a reader asleep at once means some process holds a token |
| PipeProtocol.ReturnsInFull | x64BareBones/Kernel/ipc/pipe.c:87-123 | a call returns only with all of its bytes transferred and never more |
| PipeProtocol.CallMovesItsData | x64BareBones/Kernel/ipc/pipe.c:87-121 | what a call has moved so far is, in order, the beginning of its data or of its result |
| PipeProgress.WriterStores | x64BareBones/Kernel/ipc/pipe.c:89-95 | a writer with its token puts exactly its next byte behind the unread ones, posts on the read semaphore and calls again |
| PipeProgress.ReaderTakes | x64BareBones/Kernel/ipc/pipe.c:114-120 | a reader with its token takes exactly the oldest unread byte, posts on the write semaphore and calls again |
| PipeProgress.CallerWaits | x64BareBones/Kernel/ipc/pipe.c:87-114 | a call with bytes left gets a free token or sleeps at the end of the queue, and nothing else changes |
| PipeProgress.CallBeginsAndEnds | x64BareBones/Kernel/ipc/pipe.c:77-123 | a call begins with nothing moved and ends exactly when it has moved everything |
| PipeProgress.StuckOnlyOneSided | x64BareBones/Kernel/ipc/pipe.c:77-124 | if no call can make a step, all are finished but for writers at a full pipe without readers left, or readers at an empty pipe without writers left |
| PipeProgress.DataArrives | x64BareBones/Kernel/ipc/pipe.c:77-124 | for any data of any length there is a schedule after which a write of it and a read of its length are both finished and the reader has exactly the data |
| PipeProtocol.Pipe.constructor | x64BareBones/Kernel/ipc/pipe.c:33-42 | an opened pipe is empty |
| PipeProtocol.Pipe.StoreByte | x64BareBones/Kernel/ipc/pipe.c:91-93 | the three statements of the write loop in place |
| PipeProtocol.Pipe.TakeByte | x64BareBones/Kernel/ipc/pipe.c:116-118 | the three statements of the read loop in place |
| MvarProtocol.StepInv | x64BareBones/Userland/UserApps/ReadersWriters/readersWriters.c:26-66 | every statement of every writer and reader keeps one token and the slot consistent |
| MvarProtocol.RunInv | x64BareBones/Userland/UserApps/ReadersWriters/readersWriters.c:26-66 | so in every reachable state, for any number of processes |
| MvarProtocol.OneToken | x64BareBones/Userland/UserApps/ReadersWriters/readersWriters.c:31-33 | exactly one token exists, across both semaphores and the processes between wait and post |
| MvarProtocol.ConsumedInOrder | x64BareBones/Userland/UserApps/ReadersWriters/readersWriters.c:26-66 | the consumed values are the stored ones but for at most the last, still in the slot |
| MvarProtocol.SlotIsReady | x64BareBones/Userland/UserApps/ReadersWriters/readersWriters.c:31-62 | a writer about to store finds the slot read and cleared, a reader about to copy an unread value |
| MvarProtocol.ReaderGetsLast | x64BareBones/Userland/UserApps/ReadersWriters/readersWriters.c:59-63 | what a reader takes away is the value stored last |
| MvarProtocol.NeverAllAsleep | x64BareBones/Userland/UserApps/ReadersWriters/readersWriters.c:73-74 | with a writer and a reader present, some process can move |
| MvarProgress.AtWaitStep | x64BareBones/Userland/UserApps/ReadersWriters/readersWriters.c:30-60 | a process at its wait takes the token or sleeps behind the others |
| MvarProgress.WriterStores | x64BareBones/Userland/UserApps/ReadersWriters/readersWriters.c:31-32 | a writer with the token finds the slot clear and leaves its symbol there as the next value |
| MvarProgress.ReaderCopies | x64BareBones/Userland/UserApps/ReadersWriters/readersWriters.c:59-60 | a reader with the token copies the oldest value not yet consumed |
| MvarProgress.ReaderClears | x64BareBones/Userland/UserApps/ReadersWriters/readersWriters.c:61 | then it clears the slot |
| MvarProgress.Posts | x64BareBones/Userland/UserApps/ReadersWriters/readersWriters.c:31-62 | behind its store or its clearing a process wakes the first sleeper of the other side or leaves the token, and loops |
| MvarProgress.AnyExchange | x64BareBones/Userland/UserApps/ReadersWriters/readersWriters.c:26-66 | for any sequence of writers and readers there is a schedule after which exactly their symbols, in that order, have been stored and consumed and nobody is inside or asleep |
| SyncCounter.SleepsAndWakes | x64BareBones/Userland/UserApps/Tests/test_sync.c:52-56 | a process that finds the token taken sleeps behind the others; one that leaves lets the first of them in or frees the token |
| SyncCounter.TestCanFinish | x64BareBones/Userland/UserApps/Tests/test_sync.c:65-94 | with or without the semaphore there is a schedule in which all four processes do their n iterations and the counter ends at 0 |
| SyncCounter.WrapAdds | x64BareBones/Userland/UserApps/Tests/test_sync.c:16-22 | adding in 64 bits and wrapping at each step equals wrapping the sum |
| SyncCounter.StepInv | x64BareBones/Userland/UserApps/Tests/test_sync.c:49-57 | every statement of every process keeps one token and the counter equal to what has been added |
| SyncCounter.RunInv | x64BareBones/Userland/UserApps/Tests/test_sync.c:49-57 | so for every schedule |
| SyncCounter.CounterIsExactIff | x64BareBones/Userland/UserApps/Tests/test_sync.c:16-57 | under every schedule the counter is, whenever nobody is inside, the wrapped sum of increment times completed iterations: exactly if the semaphore is used or no two processes have iterations to do of which one changes the counter |
| SyncCounter.MutualExclusion | x64BareBones/Userland/UserApps/Tests/test_sync.c:52-56 | with the semaphore no two processes are inside together |
| SyncCounter.RunFree | x64BareBones/Userland/UserApps/Tests/test_sync.c:16-57 | without the semaphore, if no two processes with work include one that changes the counter, the counter is right after every statement |
| SyncCounter.SleeperHasHolder | x64BareBones/Userland/UserApps/Tests/test_sync.c:52-56 | a process sleeps only while another is inside |
| SyncCounter.TestEndsAtZeroIff | x64BareBones/Userland/UserApps/Tests/test_sync.c:65-94 | the four processes of the test leave the counter at 0 under every schedule in which they finish, exactly if the semaphore is used or n is 0 |
| SyncCounter.Race | x64BareBones/Userland/UserApps/Tests/test_sync.c:16-22 | without the semaphore, any two of any number of processes with work can lose the first one's whole increment |
| SyncCounter.EndsAtOne | x64BareBones/Userland/UserApps/Tests/test_sync.c:65-94 | without the semaphore and with work to do, a schedule in which all four finish leaves 1 |
| Circle.OnCircle | x64BareBones/Kernel/drivers/video/videoDriver.c:219-239 | at every point the loop visits, p is the exact midpoint value and x^2+y^2-y <= r^2 <= x^2+y^2+y, strict on the left below the diagonal |
| Circle.LoopFits | x64BareBones/Kernel/drivers/video/videoDriver.c:219-239 | for radii below 2^62 the loop's variables stay inside 64 bits |
| Circle.LinesFitIff | x64BareBones/Kernel/drivers/video/videoDriver.c:198-240 | no end of a line leaves 64 bits exactly if the extreme points of the circle do not |
| Circle.PaintedIsClose | x64BareBones/Kernel/drivers/video/videoDriver.c:198-240 | every pixel painted before clipping satisfies u^2+v^2 <= r^2+r |
| Circle.DiscIsPainted | x64BareBones/Kernel/drivers/video/videoDriver.c:198-240 | every pixel with u^2+v^2 <= r^2 is painted |
| Circle.ReachRow | x64BareBones/Kernel/drivers/video/videoDriver.c:226-239 | the loop skips no row |
| Circle.Screen.PutPixelIfValid | x64BareBones/Kernel/drivers/video/videoDriver.c:105-110 | exactly the addressed pixel changes, and only on the screen |
| Circle.Screen.DrawHLine | x64BareBones/Kernel/drivers/video/videoDriver.c:181-193 | exactly the pixels of the line change, for either order of its ends |
| Circle.Screen.FillCircleOctants | x64BareBones/Kernel/drivers/video/videoDriver.c:198-205 | exactly the pixels of the four lines change |
| Circle.Screen.DrawCircle | x64BareBones/Kernel/drivers/video/videoDriver.c:207-240 | exactly the painted pixels on the screen change; a radius with its sign bit set, or zero, paints the centre |
| Matching.WithoutEqual | x64BareBones/Kernel/lib/ADT/Queue/queue.c:128-164 | removal with a pid comparison is removal of the first equal element |
| Matching.InsertKeepsSorted | x64BareBones/Kernel/lib/ADT/DoubleLinkedList/doubleLinkedList.c:95-125 | sorted insertion keeps a list sorted and puts the new element after all its ties |
| Matching.MatchAt | x64BareBones/Kernel/lib/ADT/DoubleLinkedList/doubleLinkedList.c:133-141 | the first match is found and removed at its position |
| DoublyLinkedList.List.constructor | x64BareBones/Kernel/lib/ADT/DoubleLinkedList/doubleLinkedList.c:22-30 | an empty list |
| DoublyLinkedList.List.Add | x64BareBones/Kernel/lib/ADT/DoubleLinkedList/doubleLinkedList.c:53-71 | insertion at the front, all links in place |
| DoublyLinkedList.List.AddSorted | x64BareBones/Kernel/lib/ADT/DoubleLinkedList/doubleLinkedList.c:73-126 | insertion before the first element that compares greater, all links in place |
| DoublyLinkedList.List.Find | x64BareBones/Kernel/lib/ADT/DoubleLinkedList/doubleLinkedList.c:128-143 | the first match, or null |
| DoublyLinkedList.List.Remove | x64BareBones/Kernel/lib/ADT/DoubleLinkedList/doubleLinkedList.c:145-174 | the first match leaves the list, all links in place |
| DoublyLinkedList.List.Length | x64BareBones/Kernel/lib/ADT/DoubleLinkedList/doubleLinkedList.c:176-184 | the length field is the number of elements |
| LinkedQueue.Queue.constructor | x64BareBones/Kernel/lib/ADT/Queue/queue.c:22-35 | an empty queue |
| LinkedQueue.Queue.Enqueue | x64BareBones/Kernel/lib/ADT/Queue/queue.c:53-74 | the object joins the tail, null is ignored; head, tail and length stay right |
| LinkedQueue.Queue.Dequeue | x64BareBones/Kernel/lib/ADT/Queue/queue.c:76-93 | the head leaves, or null from an empty queue |
| LinkedQueue.Queue.Length | x64BareBones/Kernel/lib/ADT/Queue/queue.c:95-108 | length and emptiness |
| LinkedQueue.Queue.Find | x64BareBones/Kernel/lib/ADT/Queue/queue.c:110-126 | the first match, or null |
| LinkedQueue.Queue.Remove | x64BareBones/Kernel/lib/ADT/Queue/queue.c:128-164 | the first match leaves, with head, tail and length right in every case |
| ModuleImage.LeastFirst | x64BareBones/Kernel/core/moduleLoader.c:40-45 | the least significant byte comes first |
| ModuleImage.LittleEndianRoundTrip | x64BareBones/Kernel/core/moduleLoader.c:40-45 | four bytes give back a size exactly if it is below 2^32 |
| ModuleImage.RecordAt | x64BareBones/Kernel/core/moduleLoader.c:21-34 | before module i the cursor stands at its size with its bytes behind |
| ModuleImage.LoadModule | x64BareBones/Kernel/core/moduleLoader.c:21-38 | one module is delivered, the image and the modules before it undisturbed, the cursor moved past it |
| ModuleImage.LoadModules | x64BareBones/Kernel/core/moduleLoader.c:11-19 | every module of a packed image arrives at its own target byte for byte |
| ModuleImage.ReadWord | x64BareBones/Kernel/core/moduleLoader.c:40-45 | the four bytes at the address, least significant first |
| ModuleImage.WriteFile | x64BareBones/Toolchain/ModulePacker/main.c:111-121 | the chunked copy appends the whole file |
| ModuleImage.PackAndLoad | x64BareBones/Toolchain/ModulePacker/main.c:54-87 | packing the files, placing the image and loading from behind the kernel puts every file after the first at its own target byte for byte |
| ModuleImage.BuildImage | x64BareBones/Toolchain/ModulePacker/main.c:54-87 | the image is the kernel, the number of modules and each module behind its size |
| ModuleImage.MemCopy | x64BareBones/Kernel/lib/console/lib.c:16-51 | on any two buffers, overlapping or not, both paths leave the bytes of an upward copy and change nothing else; they are the source's if the destination does not begin inside the source |
| ModuleImage.MemCopyIff | x64BareBones/Kernel/lib/console/lib.c:16-51 | the source's bytes arrive whatever memory holds, exactly if the destination does not begin inside the source |
| ModuleImage.OriginIsRemainder | x64BareBones/Kernel/lib/console/lib.c:16-51 | where it does, byte k of the destination is the source's byte at the remainder of k by the distance |
| ModuleImage.CopyWords | x64BareBones/Kernel/lib/console/lib.c:32-40 | the word loop on aligned buffers gives the same bytes as a bytewise upward copy |
| ModuleImage.CopyBytes | x64BareBones/Kernel/lib/console/lib.c:41-48 | the byte loop, on any buffers |
| ModuleImage.UpReads | x64BareBones/Kernel/lib/console/lib.c:47-48 | what the loop is about to read is still untouched, or was itself delivered one distance earlier |
| ModuleImage.UpWord | x64BareBones/Kernel/lib/console/lib.c:38-39 | copying a word equals copying its four bytes one by one, for buffers at least a word apart or copied downwards |
| Numerals.NumeralRoundTrip | x64BareBones/Kernel/lib/console/lib.c:61-87 | the digits printed in any base stand for the number, without leading zero |
| Numerals.Lengths64 | x64BareBones/Kernel/lib/console/lib.c:61-87 | at most 20 decimal, 16 hexadecimal, 64 binary digits for 64 bits |
| Numerals.AtoiOfItoa | x64BareBones/Userland/UserLib/stringLib.c:27-99 | parsing what was printed in base 10 gives the number back exactly if it is not the least 32-bit one |
| Numerals.AtoiReads | x64BareBones/Userland/UserLib/stringLib.c:27-54 | on spaces, at most one sign, digits and anything else, the result is the signed value of the digits in 32 bits |
| Numerals.DigitChars | x64BareBones/Userland/UserLib/stringLib.c:74-79 | digit d is the d-th of 0-9 and a-z |
| Numerals.ItoaDenotesIff | x64BareBones/Userland/UserLib/stringLib.c:56-99 | for every 32-bit number and base the printed text stands for the number exactly if it is not negative, or the base is 10 and it is not the least one |
| Numerals.NegativeDigits | x64BareBones/Userland/UserLib/stringLib.c:74-79 | a negative number leaves, in every base, a first character that is no digit and no digit worth anything |
| NumberText.ToString | x64BareBones/Kernel/lib/console/lib.c:61-87 | the emission loop and the in-place reversal produce the numeral and its terminator |
| NumberText.ReverseInPlace | x64BareBones/Kernel/lib/console/lib.c:79-85 | swapping inwards reverses the stretch and nothing else |
| NumberText.ItoaInto | x64BareBones/Userland/UserLib/stringLib.c:56-99 | the buffer holds the specified text, negation wrap included |
| NumberText.ParseInt | x64BareBones/Userland/UserLib/stringLib.c:27-54 | the three loops compute the specified value |
| NumberText.WriteUnsigned | x64BareBones/Kernel/lib/string/strings.c:40-45 | the recursion writes the decimal numeral |
| NumberText.SignedIsDenoted | x64BareBones/Kernel/lib/string/strings.c:47-55 | the text written stands for the number, whatever its sign and also for the least one |
| NumberText.WriteInt | x64BareBones/Kernel/lib/string/strings.c:47-55 | sign and magnitude, correct for the least number too |
| NumberText.WriteHex | x64BareBones/Kernel/lib/string/strings.c:57-74 | the hexadecimal numeral; the temporary of 8 or 16 characters never overflows |
| NumberText.DrawnText | x64BareBones/Kernel/drivers/video/videoDriver.c:243-266 | buffers of 21, 19 and 67 characters hold any 64-bit value with prefix and terminator |

## Left out

- BuddyProofs.InitInv: asks for a region that ends 2^32 bytes or more below the top of the address space, so that rounding up does not wrap.
- BuddyAllocator.Allocator.constructor: the same, and that the order map has an entry for every block placed, because otherwise the source writes behind it (`BuddyProofs.InitInv` gives the exact condition).
- BuddyAllocator.Allocator.Alloc: asks for a request of at most 2^63 bytes, because above that the shift of the order loop is undefined.
- BuddyAllocator.Allocator.Free: asks for null or a live block, because the order map says nothing about other addresses.
- BitmapAllocator.MemInit: asks for fewer than 2^31 pages, because the scan counts them in an `int`; the padding entries of the two tables up to whole pages are not modelled.
- KernelScheduler.Scheduler.TerminateProcess: asks for the scheduler's invariant and a process that is neither idle nor a zombie, because outside it the code follows pointers to deleted processes.
- SchedulerRuns.RunInv: covers runs of guarded events; for blocking, unblocking, termination and `waitPid` the SafeIff lemmas show that the guards exclude exactly the calls that break the invariant, and for priorities the guard also excludes the harmless cases that `SchedulerRuns.NiceSafeIff` describes.
- ModuleImage.LoadModules: asks for targets that overlap neither the image nor each other, and for an image in the packer's format.
- NumberText.ItoaInto: covers bases 2 to 36; the source divides by zero or runs on for others.
- Circle.Screen.DrawCircle: uses unbounded coordinates; sums of centre and radius that leave 64 bits, which C leaves undefined, are not modelled (`Circle.LinesFitIff` says when there are none).
- The free lists of the buddy allocator and the queues inside the scheduler and the semaphores are sequences; the linked nodes behind queues and lists are modelled once, in `LinkedQueue` and `DoublyLinkedList`, and the links that `pmem_buddy.c` threads through free memory are not.
- A pointer to a process is its pid; saved stacks, base pointers, argument vectors, names, descriptors and the foreground flag of a process, and their freeing, are not modelled.
- A current process without a parent that ends itself is deleted and dispatches in one step; the source touches the deleted record once more in the interrupt.
- Node and record allocation is taken to succeed; freeing of whole queues and lists is left out.
- Spinlocks: each kernel path is atomic, so a lock is always free when it is tried.
- `semClose`, the list of linked processes, and the release of a semaphore once it is unlinked and unused.
- The pipe table (`pipe_open`, `get_pipe_idx`, `pipe_close`): a scan over two slots; closing a pipe in use, descriptor wrap-around and foreign semaphores of the same name are not modelled.
- In the mailbox program the values are consumed when the slot is copied; the order in which readers then print is not modelled, nor is the sleep before each wait.
- `wait(status)`, which no system call reaches, and the formatting of process lists.
- `ksprintf`'s format scanning: only the number writers are modelled.
- Assembly, boot loader, interrupt controllers, stack switching, the framebuffer, fonts, sound, console, keyboard, shell, games and the system-call layer.
