# Verified models of the operating-systems labs

This project models the parts of the repository where several CPUs, pointers or bit tricks meet, and proves what they
are for. Everything is Dafny 4.11; `dafny verify dfyconfig.toml` checks the whole project.

| component | repository file | modules |
|---|---|---|
| scheduler, semaphores, run queue | kernel/src/kmt.c | Kernel, KernelInvariant, KernelSemSteps, KernelCpuSteps, KernelTheorems, KernelRotation, KernelLocks, KernelProgress, TaskQueue |
| nesting spin locks | kernel/src/kmt.c | SpinLock |
| trap handlers | kernel/src/os.c | Irq |
| page allocator | kernel/src/pmm.c, kernel/include/pmm.h | SlabPage, SlabHeap, SlabProgress, SlabAssertion, SlabFull |
| page tables | am/src/x86/qemu/vme.c, start64.S | PageTable, PageTree, KernelTables, AddressSpace |
| list benchmark | apps/coremark/src/core_list_join.c | CoreList, ListSort, ListCrc, SortRuns, MergeSort, ListBench |
| 64-bit division | libs/klib/src/int64.c | Division |
| coroutines | Coroutine/libco/co.c | CoSelect, Coroutine, CoStranded, CoTurns |
| expressions | nemu/src/monitor/debug/expr.c | Expr, ExprMeaning |
| printing and reading numbers | libs/klib/src/printf.c, stdlib.c | NumberText, Snprintf, Directives, DirectiveExamples, Atoi |

Options, Arithmetic, Words (words as numbers, bit operations as functions on their digits) and Ring (circular doubly
linked lists) are shared.

## How the code is modelled

- Sequential code on pointers and arrays is a class or an array with methods: the run queue, the handler list, a page
  and its bitmap, the table pages of an address space, the benchmark list, the coroutine ring, the output buffer. Each
  method is proved against a function of the old state, and the lemmas speak about that function.
- Code that several CPUs, or several coroutines, run at once is a state machine: `Enabled` and `Do` give one step,
  `Behavior` or `Run` all runs. Each CPU of the scheduler carries a program counter through `kmt_context_save` and
  `kmt_schedule`, because `last` names a task that the CPU no longer owns between kmt.c:208 and kmt.c:217. Each task
  carries one through `kmt_create`, `kmt_sem_wait` and `kmt_sem_signal`, which can be preempted wherever interrupts are
  on. Accesses made under a lock are one step unless a field they read can be written without it.
- Machine words are numbers with explicit wrap-around. `__builtin_clz` and `__builtin_ctz` are functions; `ctz(0)` is
  an arbitrary value (the parameter `emptyTest`).
- `pgalloc`'s pages, `crc16`, `core_bench_state`, `core_bench_matrix`, the handlers' results, the contexts of traps and
  the random number of rounds are parameters.
- The hardware's view of a page table follows sections 4.3 (32-bit) and 4.5 (4-level) of the Intel Software Developer's
  Manual, volume 3A, large pages included; the text of a number is compared with section 7.21.6.1 of C11.

## Model

| member | source | states |
|---|---|---|
| KernelTheorems.StepKeepsInv | OSkernel/kernel/src/kmt.c:119-240 | every step of every CPU and task, trap, save, schedule, create, wait or signal, keeps the whole kernel invariant |
| KernelTheorems.BehaviorKeepsInv | OSkernel/kernel/src/kmt.c:59-65 | the invariant holds in every state of every run from the state kmt_init leaves |
| KernelTheorems.ExactlyOneSpot | OSkernel/kernel/src/kmt.c:191-240 | in every reachable state a created task is in exactly one place: one queue position, one CPU's current, one CPU's not yet requeued last, in one scheduler's hand, or with its creator |
| KernelTheorems.NoStackRace | OSkernel/kernel/src/kmt.c:206-239 | no two CPUs ever execute on one task's stack, and the task under a CPU is not in the queue, in another scheduler's hand or about to be returned to by another CPU |
| KernelTheorems.DispatchedContextIsLatest | OSkernel/kernel/src/kmt.c:208-239 | a dispatched task runs on the registers that its latest trap saved |
| KernelTheorems.SaveAssertionsHold | OSkernel/kernel/src/kmt.c:193-205 | the assertions of kmt_context_save hold whenever they are evaluated |
| KernelTheorems.QueueLockExcludes | OSkernel/kernel/src/kmt.c:220-237 | at most one CPU is inside a queue_lk section, and the lock names it |
| KernelTheorems.WaitListLength | OSkernel/kernel/src/kmt.c:126-172 | while a semaphore's lock is free its wait list holds exactly max(0, -value) distinct WAITING tasks |
| KernelTheorems.LengthLawNeedsNonNegative | OSkernel/kernel/src/kmt.c:119-125 | for every run, that law holds throughout if and only if the value given to kmt_sem_init was not negative |
| KernelTheorems.WaitingTaskHasOneKeeper | OSkernel/kernel/src/kmt.c:131-171 | a task is WAITING exactly while one, and only one, party is bound to wake it: no wakeup is lost |
| KernelTheorems.CompletedWaitsBounded | OSkernel/kernel/src/kmt.c:126-172 | units are conserved, and completed waits never exceed a non-negative initial value plus the signals |
| KernelTheorems.BlockedWaitReturnsWoken | OSkernel/kernel/src/kmt.c:147-171 | a wait that blocked returns only after a signal took its task off the list and made it RUNNING |
| KernelRotation.LineStep | OSkernel/kernel/src/kmt.c:221-232 | starting to rotate, rotating and picking keep the cyclic order of the queue; all other steps only append |
| KernelRotation.RotationProgress | OSkernel/kernel/src/kmt.c:223-228 | a turn of the rotate loop brings the first runnable task one closer, and no other CPU or task takes it further away |
| KernelRotation.RotationEnds | OSkernel/kernel/src/kmt.c:223-228 | however the others interleave, the rotate loop turns fewer times than the queue was long |
| KernelRotation.QueuedStep | OSkernel/kernel/src/kmt.c:221-232 | a step dispatches a queued runnable task or leaves it queued with no more tasks ahead, one fewer if it ends a schedule |
| KernelRotation.DispatchedSoon | OSkernel/kernel/src/kmt.c:213-240 | from any reachable state a RUNNING task with k tasks ahead in the line is among those dispatched by the next k+1 schedules over all CPUs, whatever is enqueued, blocked or woken; by the next k+2 if a check_running_ulk under way has already passed it |
| KernelRotation.UnlockedLine | OSkernel/kernel/src/kmt.c:220-237 | while queue_lk is free that line is the queue and no check is under way |
| KernelLocks.QueueLockIsSpinLock | OSkernel/kernel/src/kmt.c:220-237 | queue_lk moves in the scheduler machine as the spin locks move, and its holder takes no trap |
| KernelLocks.SemLockIsSpinLock | OSkernel/kernel/src/kmt.c:128-166 | a semaphore's lock is taken and freed by the running task only, whose CPU takes no trap meanwhile |
| KernelProgress.GoesOn | OSkernel/kernel/src/kmt.c:119-240 | in every reachable state every CPU has its next step to take, if and only if it does not spin on a lock that is taken |
| KernelProgress.SeekerTakesNoTrap | OSkernel/kernel/src/kmt.c:96-109 | a CPU that is after a lock, spinning or not, takes no trap |
| KernelProgress.NoDeadlock | OSkernel/kernel/src/kmt.c:119-240 | whenever a CPU spins, another one can take a step that is no trap |
| KernelProgress.SemReleaseComes | OSkernel/kernel/src/kmt.c:126-172 | the task that holds a semaphore's lock frees it within four of its own steps; no other step frees it or takes the release further away |
| KernelProgress.QueueReleaseComes | OSkernel/kernel/src/kmt.c:220-237 | the CPU that holds queue_lk frees it within twice the length of the queue and one steps of its own; no other step frees it or takes the release further away |
| KernelProgress.WaitListStep | OSkernel/kernel/src/kmt.c:126-166 | a wait that blocks puts its task at the end of the wait list, a signal takes the one at the end to wake it, and no other step changes the list |
| KernelProgress.LastBlockedFirstWoken | OSkernel/kernel/src/kmt.c:126-166 | so the last to block is the first to be woken, over every run: those in front stay while somebody waits behind them |
| SpinLock.StepKeepsInv | OSkernel/kernel/src/kmt.c:96-117 | every access of lock, unlock, pushcli, popcli and holding keeps the lock invariant |
| SpinLock.NestingCountsAndMasks | OSkernel/kernel/src/kmt.c:273-286 | ncli is the number of outstanding pushes, and interrupts are off while it is positive |
| SpinLock.OutermostReleaseRestores | OSkernel/kernel/src/kmt.c:281-286 | the release of the last lock held, in whatever order, restores the interrupt state of the first acquire, and no other release does |
| SpinLock.MutualExclusion | OSkernel/kernel/src/kmt.c:96-117 | at most one CPU is inside a lock, and a lk->cpu that is set names a CPU inside |
| SpinLock.HoldingIsExact | OSkernel/kernel/src/kmt.c:288-295 | though it reads two fields at different times, holding() answers whether this CPU holds the lock, so lock spins and unlock panics exactly on misuse |
| SpinLock.LocksAreAtomic | OSkernel/kernel/src/kmt.c:96-117 | under every interleaving a lock goes from free to a CPU or from that CPU to free, and its holder runs with interrupts off |
| SpinLock.GoesOn | OSkernel/kernel/src/kmt.c:96-117 | a CPU that has neither finished nor panicked can always go on, and makes no progress only while another one is inside the lock it spins on |
| SpinLock.LockTakes | OSkernel/kernel/src/kmt.c:96-109 | undisturbed, kmt_spin_lock takes a free lock in five steps: one push more, interrupts off, held by this CPU, all else as before |
| SpinLock.UnlockFrees | OSkernel/kernel/src/kmt.c:110-117 | and kmt_spin_unlock frees a lock that the CPU holds: one push fewer, and interrupts as before the first push if none is left |
| Ring.Ring.InsertEnd | OSkernel/kernel/src/kmt.c:308-316 | the links afterwards are those of the old members followed by the new one |
| Ring.Ring.RemoveFront | OSkernel/kernel/src/kmt.c:340-356 | the first member leaves the ring with cleared links, or null stands for an empty ring |
| Ring.Ring.Unlink | Coroutine/libco/co.c:161-166 | the member leaves the ring and the others stay in order |
| TaskQueue.CheckRunning | OSkernel/kernel/src/kmt.c:406-416 | true exactly when some queued task is RUNNING |
| TaskQueue.Contains | OSkernel/kernel/src/kmt.c:381-388 | true exactly for the members of the queue |
| TaskQueue.PickNext | OSkernel/kernel/src/kmt.c:221-236 | takes out the first RUNNING task, moves those before it behind the others in order, and picks idle exactly when there is none |
| Irq.RegisteredKeepsOrder | OSkernel/kernel/src/os.c:129-151 | a registration keeps the list in order; it takes effect if the list is empty or the number is not below the first one, and is dropped otherwise |
| Irq.RegisteredPlace | OSkernel/kernel/src/os.c:129-151 | it goes behind the handlers with a lower number and in front of those with the same, but never to the front of the list |
| Irq.LowNumberIsLost | OSkernel/kernel/src/os.c:138-149 | a handler registered with -1 behind one with 0 is silently lost |
| Irq.SaveFirstScheduleLast | OSkernel/kernel/src/kmt.c:59-65 | with the INT_MIN and INT_MAX handlers registered first, any later registrations all land between them, in order |
| Irq.TrapSavesThenSchedules | OSkernel/kernel/src/os.c:95-119 | then every timer or yield trap saves first, schedules last and returns what schedule chose |
| Irq.CallsThoseRegistered | OSkernel/kernel/src/os.c:95-119 | the handlers called for an event are those registered for it or for every event, each as often as it is registered, in the order of their numbers |
| Irq.RegisteredIsCalled | OSkernel/kernel/src/os.c:121-151 | and behind the INT_MIN and INT_MAX handlers that is every handler ever registered for the event |
| Irq.TrapIff | OSkernel/kernel/src/os.c:95-119 | a trap returns a context if and only if the event is a timer interrupt or a yield and one context in all is given, by the handlers called or left from before |
| Irq.HandlerList.CheckSeq | OSkernel/kernel/src/os.c:27-35 | check_seq never fails on a list that registrations built |
| Irq.HandlerList.OnIrq | OSkernel/kernel/src/os.c:121-151 | the relinked list holds the entries that the registration function says |
| Irq.HandlerList.OsTrap | OSkernel/kernel/src/os.c:95-119 | runs the handlers that answer the event in list order and returns their one context, or panics |
| Words.MaskIsLowest | OSkernel/kernel/include/pmm.h:32-32 | MASK(x) is the power of two of the lowest set bit, or 0 |
| SlabPage.NumBitmapIsMacro | OSkernel/kernel/include/pmm.h:7-7 | the words in use are NUM_BITMAP of the class, hold one bit per block, and the blocks fill the data area |
| SlabPage.TakeCorrect | OSkernel/kernel/src/pmm.c:62-125 | taking hands out a free block at the offset of its index and changes no other bit, answers no exactly when nothing is free, and keeps the meaning of is_full whatever ctz(0) is |
| SlabPage.TakeLowest | OSkernel/kernel/src/pmm.c:64-71 | the block handed out is the lowest free one |
| SlabPage.GiveCorrect | OSkernel/kernel/src/pmm.c:151-217 | returning a block sets its bit, through the encodings of 2048 and 4096 too, and clears is_full |
| SlabPage.GiveUndoesTake | OSkernel/kernel/src/pmm.c:64-71 | taking a block and returning it leaves every bitmap word as it was |
| SlabPage.InitPageAllFree | OSkernel/kernel/src/pmm.c:220-362 | init_page leaves a valid page on which every block is free |
| SlabPage.SlabPage.constructor | OSkernel/kernel/src/pmm.c:220-362 | the loops of init_page store that page |
| SlabPage.SlabPage.TakeBlock | OSkernel/kernel/src/pmm.c:62-125 | the scanning loop, in place, does what Take says |
| SlabPage.SlabPage.GiveBlock | OSkernel/kernel/src/pmm.c:156-216 | the switch of kfree, in place, does what Give says |
| SlabHeap.UpPow2IsLeast | OSkernel/kernel/include/pmm.h:27-27 | UP_POW2 gives the least power of two that is at least the size and at least 8 |
| SlabHeap.AddrDecodes | OSkernel/kernel/src/pmm.c:152-153 | kfree recovers page and block index from every address that kalloc can hand out |
| SlabHeap.AddrOfIsAddr | OSkernel/kernel/src/pmm.c:68-68 | the address computed from word and loc() is that of the block |
| SlabHeap.StepKeepsInv | OSkernel/kernel/src/pmm.c:52-217 | every allocation and free step of every CPU keeps the heap invariant |
| SlabHeap.ReachableIsSafe | OSkernel/kernel/src/pmm.c:52-217 | no reachable step touches memory outside an initialised page, or a bit that belongs to no block |
| SlabHeap.LiveBlockPlaced | OSkernel/kernel/src/pmm.c:52-148 | a block in use lies in the data area of one page inside the heap, is large enough, and is aligned to its rounded size |
| SlabHeap.LiveBlocksDisjoint | OSkernel/kernel/src/pmm.c:52-217 | blocks in use never overlap, under any interleaving of allocations and frees |
| SlabHeap.LiveIffBitClear | OSkernel/kernel/src/pmm.c:64-71 | a block is in use exactly when its bit is clear |
| SlabHeap.AllocationIsFresh | OSkernel/kernel/src/pmm.c:52-148 | the address an allocation returns was not in use, is in use for its request afterwards, and no other block changes; a free gives up its own block only, and no other step changes what is in use |
| SlabProgress.VisitOutcome | OSkernel/kernel/src/pmm.c:58-129 | a look at a page hands out a block if and only if the page is of the class, not marked full and has a free block; otherwise it goes on to the next page and changes nothing |
| SlabProgress.GrowOutcome | OSkernel/kernel/src/pmm.c:132-140 | behind the last page a request claims a new one, if and only if the next page ends below the end of the heap |
| SlabProgress.RequestEnds | OSkernel/kernel/src/pmm.c:52-148 | however the other CPUs interleave, a request is over after at most three more steps of its own than its list had pages |
| SlabProgress.FailsOnlyWithoutRoom | OSkernel/kernel/src/pmm.c:52-148 | a request that ends without an address has looked at every page of its list when that page offered no block, and has found no room for another page |
| SlabProgress.SucceedsWithRoom | OSkernel/kernel/src/pmm.c:130-146 | from every reachable heap with room for one more page, every request of an idle CPU gets an address by that CPU's own steps |
| SlabProgress.BusyCanStep | OSkernel/kernel/src/pmm.c:52-148 | a CPU at work on a request can always take its next step |
| SlabProgress.RoomNeverReturns | OSkernel/kernel/src/pmm.c:132-140 | room that is gone does not come back |
| SlabHeap.FullHidesAtMostTop | OSkernel/kernel/src/pmm.c:71-122 | in every reachable state a page marked full has at most one free block, its last |
| SlabPage.TakeHidesIff | OSkernel/kernel/src/pmm.c:71-122 | taking a block leaves its page marked full with the last block free if and only if two blocks were free, the last one and one whose bit is in the same word |
| SlabFull.HidesIff | OSkernel/kernel/src/pmm.c:71-122 | over every step of every reachable heap: a page hides its last block afterwards if and only if it did before and no block came back to it, or the step takes such a last but one block |
| SlabFull.FullWithFreeBlock | OSkernel/kernel/src/pmm.c:71-122 | every heap with room for one more page gets there: after 127 requests of 512 bytes a page is marked full and its block 127 is free |
| SlabHeap.ListsPartitionPages | OSkernel/kernel/src/pmm.c:130-146 | the per-CPU page lists partition the pages handed out, and each list runs from the sentinel to tail_page |
| SlabHeap.BlocksConserved | OSkernel/kernel/src/pmm.c:52-217 | free bits plus blocks in use, times the class, are 65536 for every page |
| SlabAssertion.HoldsInFirstHalf | OSkernel/kernel/src/pmm.c:197-206 | the assertion in the 512 case of kfree holds exactly for blocks in the first 32 KiB of a page's data |
| SlabAssertion.AssertionFails | OSkernel/kernel/src/pmm.c:197-206 | every heap with room for one more page reaches a state where a caller holds a block that fails it |
| PageTable.FlagsAreBits | OSkernel/abstract-machine/am/include/x86.h:24-26 | PTE_P, PTE_W and PTE_U are the digits that the model reads |
| PageTable.BaseIsMask | OSkernel/abstract-machine/am/src/x86/qemu/vme.c:53-55 | baseof clears exactly the page offset |
| PageTable.EntryIsOr | OSkernel/abstract-machine/am/src/x86/qemu/vme.c:68-68 | or-ing flags into an aligned page address loses nothing |
| PageTable.IndexIsMaskAndShift | OSkernel/abstract-machine/am/src/x86/qemu/vme.c:3-22 | masks, shifts and bits of both configurations select the index of an address at every level |
| PageTree.PathIsPage | OSkernel/abstract-machine/am/src/x86/qemu/vme.c:49-51 | two addresses share all their indices exactly when they share their page |
| PageTree.OffsetOfPath | OSkernel/abstract-machine/am/src/x86/qemu/vme.c:3-22 | the indices of an address add up to its page address |
| PageTree.TranslateIsFlat | OSkernel/abstract-machine/am/src/x86/qemu/vme.c:57-75 | the hardware's walk through a tree of tables is a lookup of one leaf word: the tree refines a flat map |
| PageTree.AttachKeeps | OSkernel/abstract-machine/am/src/x86/qemu/vme.c:66-68 | entering a fresh zeroed table keeps the tree a tree |
| PageTree.AttachKeepsLeaves | OSkernel/abstract-machine/am/src/x86/qemu/vme.c:66-68 | and keeps every leaf word |
| PageTree.SetLeafKeeps | OSkernel/abstract-machine/am/src/x86/qemu/vme.c:151-155 | writing one leaf word changes no other |
| KernelTables.UserIsNotKernel | OSkernel/abstract-machine/am/src/x86/qemu/vme.c:24-34 | user addresses never share a level-1 entry with the kernel |
| KernelTables.KernelAreas | OSkernel/abstract-machine/am/src/x86/qemu/vme.c:24-34 | the kernel areas are the first 512 GiB on the 64-bit configuration, the first GiB and everything from 0xfd000000 on the 32-bit one |
| KernelTables.KernelLookup | OSkernel/abstract-machine/am/src/x86/qemu/vme.c:117-131 | what the kernel's tables translate, large pages included, depends on those tables only |
| KernelTables.BootEntryIs | OSkernel/abstract-machine/am/src/x86/qemu/start64.S:17-29 | the two halves stored for entry i are the 1 GiB page i, present, writable, large and not for users |
| KernelTables.BootTablesAreShared | OSkernel/abstract-machine/am/src/x86/qemu/start64.S:6-29 | the tables that the 64-bit boot code builds meet what the address spaces assume of the kernel's tables |
| KernelTables.BootTranslates | OSkernel/abstract-machine/am/src/x86/qemu/start64.S:6-29 | they map the 512 GiB kernel area to itself and nothing else |
| KernelTables.KernelTree | OSkernel/abstract-machine/am/src/x86/qemu/vme.c:97-109 | the tree built by _vme_init can be shared by every address space |
| KernelTables.PageStep | OSkernel/abstract-machine/am/src/x86/qemu/vme.c:102-106 | the page loop meets every page of a kernel area once and stops, past the wrap-around at 4 GiB too |
| AddressSpace.KernelPages | OSkernel/abstract-machine/am/src/x86/qemu/vme.c:120-131 | in every address space a kernel page translates as the kernel's tables say |
| AddressSpace.LeafWrite | OSkernel/abstract-machine/am/src/x86/qemu/vme.c:149-156 | writing a user leaf word changes the translation of that page alone |
| AddressSpace.SpacesStayApart | OSkernel/abstract-machine/am/src/x86/qemu/vme.c:117-158 | while one address space is protected, mapped into or torn down, another keeps its tables and every translation |
| AddressSpace.AreaStep | OSkernel/abstract-machine/am/src/x86/qemu/vme.c:124-129 | the loop of _protect visits each level-1 entry of a kernel area once and stops, though one area ends at address 0 |
| AddressSpace.Mmu.PgAllocZ | OSkernel/abstract-machine/am/src/x86/qemu/vme.c:40-47 | the next fresh page, zeroed, or nothing when the supply is empty |
| AddressSpace.Mmu.PtWalk | OSkernel/abstract-machine/am/src/x86/qemu/vme.c:57-75 | the cell of the leaf word, if and only if the supply covers the tables that are missing, exactly which are taken from it; all leaf words and foreign tables stay |
| AddressSpace.Mmu.SetEntry | OSkernel/abstract-machine/am/src/x86/qemu/vme.c:149-156 | maps or unmaps exactly one page, or panics as the page's present translation says |
| AddressSpace.Mmu.WalkAgain | OSkernel/abstract-machine/am/src/x86/qemu/vme.c:157-157 | the second walk of _map changes nothing and allocates nothing |
| AddressSpace.Mmu.Map | OSkernel/abstract-machine/am/src/x86/qemu/vme.c:142-158 | is done if and only if the address is a user address and aligned, the frame aligned, no present bit comes with a write bit, the supply covers the missing tables, and the page was not mapped yet (or, to unmap it, was), and otherwise panics for the first of these that fails; when done the page translates to its frame with the right write bit, or to nothing, and every other user or kernel page as before |
| AddressSpace.Mmu.VmeInit | OSkernel/abstract-machine/am/src/x86/qemu/vme.c:89-115 | on both configurations the kernel's tables map exactly the kernel areas to themselves, writable and not for users; on the 32-bit one this takes 269 pages, and fails with fewer |
| AddressSpace.Mmu.Protect | OSkernel/abstract-machine/am/src/x86/qemu/vme.c:117-136 | a new address space has the kernel's translations and no user page |
| AddressSpace.Mmu.Teardown | OSkernel/abstract-machine/am/src/x86/qemu/vme.c:77-87 | gives every table page at or below a table to pgfree once, and nothing else, and reads no page it gave back |
| AddressSpace.Mmu.Unprotect | OSkernel/abstract-machine/am/src/x86/qemu/vme.c:138-140 | frees exactly the table pages of the address space: no mapped frame, no kernel table, none twice |
| AddressSpace.Mmu.Lifetime | OSkernel/abstract-machine/am/src/x86/qemu/vme.c:117-158 | over any sequence of maps and unmaps, which completes exactly if every call is legal after the ones before it and the supply covers their tables, what pgfree gets is exactly what pgalloc gave, each page once, and all other memory is as it was |
| AddressSpace.MapUnmapMap | OSkernel/abstract-machine/am/src/x86/qemu/vme.c:142-158 | in a fresh address space every aligned user page can be mapped, unmapped and mapped again, with one page in the supply for each level of tables |
| CoreList.Reverse | OSkernel/abstract-machine/apps/coremark/src/core_list_join.c:395-404 | the list afterwards is the old one reversed |
| CoreList.Find | OSkernel/abstract-machine/apps/coremark/src/core_list_join.c:370-380 | the first node with the wanted idx or low byte, or NULL when there is none |
| CoreList.CacheNext | OSkernel/abstract-machine/apps/coremark/src/core_list_join.c:156-162 | the node after the found one becomes the second, the order of the others stays |
| CoreList.CachedSameNodes | OSkernel/abstract-machine/apps/coremark/src/core_list_join.c:156-162 | and no node is lost or doubled |
| CoreList.Remove | OSkernel/abstract-machine/apps/coremark/src/core_list_join.c:316-328 | two nodes swap their items and the second leaves the list |
| CoreList.UndoRemove | OSkernel/abstract-machine/apps/coremark/src/core_list_join.c:345-355 | the inverse: the list and both items are back |
| ListSort.CalcFunc | OSkernel/abstract-machine/apps/coremark/src/core_list_join.c:63-95 | a cached value is returned and nothing changes; otherwise the value is computed with the crc of the moment and cached in the low byte, its uncut form goes into the crc, and crcstate and crcmatrix keep the first nonzero result of their kind |
| ListSort.Results.ComputedOf | OSkernel/abstract-machine/apps/coremark/src/core_list_join.c:70-88 | what is computed: the state benchmark for kind 0, with 0x22 for the smallest two sizes, the matrix benchmark for kind 1, the data itself for the others |
| ListSort.Compare | OSkernel/abstract-machine/apps/coremark/src/core_list_join.c:101-118 | a comparison settles its two items, the first one first, with the crc that is then current, and returns the difference of their keys; copying, for the index, takes the high byte over the low one |
| ListCrc.TurnsAre | OSkernel/abstract-machine/apps/coremark/src/core_list_join.c:63-95 | the items computed by a series of calls are those called for that had no cached value, each once, in the order in which they were first called for |
| ListCrc.ReplayIsFold | OSkernel/abstract-machine/apps/coremark/src/core_list_join.c:63-95 | after any series of calls the crc is the fold of crcu16 over the values computed, in that order; each item holds the value computed with the crc at its own turn, and crcstate and crcmatrix the first nonzero one of their kind |
| SortRuns.MergeStep | OSkernel/abstract-machine/apps/coremark/src/core_list_join.c:457-469 | moving the lower head behind the merged part keeps both runs sorted and stable |
| SortRuns.PassStep | OSkernel/abstract-machine/apps/coremark/src/core_list_join.c:439-482 | merging one more pair of runs keeps the pass's output made of runs of double length |
| MergeSort.CompareNodes | OSkernel/abstract-machine/apps/coremark/src/core_list_join.c:463-463 | keys of nodes compared before stay fixed though the comparison writes items and res->crc |
| MergeSort.MergePair | OSkernel/abstract-machine/apps/coremark/src/core_list_join.c:451-478 | the two runs are merged in place, stably, behind what was merged before |
| MergeSort.Pass | OSkernel/abstract-machine/apps/coremark/src/core_list_join.c:430-484 | one pass turns runs of insize into runs of twice that, with the same nodes |
| MergeSort.Mergesort | OSkernel/abstract-machine/apps/coremark/src/core_list_join.c:426-496 | the sort ends and returns the same nodes, sorted and stable for either comparator, with every item settled; after a sort by value items and crc are what the comparisons made, called in the order of the log, come to |
| ListBench.FindPhase | OSkernel/abstract-machine/apps/coremark/src/core_list_join.c:143-170 | each find is for the first node that fits, counts it as found or missed, adds the bits of the word found or of the second of the reversed list, and splices; the sum returned is that of findNum such turns, and the list has the same nodes |
| ListBench.RemovePhase | OSkernel/abstract-machine/apps/coremark/src/core_list_join.c:174-186 | removing the second node and undoing it restores links and items; meanwhile the checksum takes in the word of the head once for each node up to the one that fits |
| ListBench.AscendingUnique | OSkernel/abstract-machine/apps/coremark/src/core_list_join.c:187-188 | the nodes have only one arrangement in strictly ascending idx |
| ListBench.BenchList | OSkernel/abstract-machine/apps/coremark/src/core_list_join.c:132-199 | any list of at least three nodes, ascending in distinct idx and with equal bytes in every data16, is left as it was: head, order, items and contents; the checksum returned is the crc over the heads' words of the sum of the finds, for the order that the finds and the sort left |
| Division.ShiftSubtract | OSkernel/abstract-machine/libs/klib/src/int64.c:244-272 | the branch-free loop ends with quotient and remainder, from any start that leaves a remainder below the divisor and room for the signed mask |
| Division.MaskDecides | OSkernel/abstract-machine/libs/klib/src/int64.c:265-267 | the arithmetic shift of d - r - 1 is all ones exactly when r is at least d |
| Division.Turn | OSkernel/abstract-machine/libs/klib/src/int64.c:251-268 | one turn moves one digit and keeps r below d |
| Division.NarrowStart | OSkernel/abstract-machine/libs/klib/src/int64.c:154-159 | the shifted halves are the quotient and remainder words of the loop, for counts below 32 |
| Division.WideStart | OSkernel/abstract-machine/libs/klib/src/int64.c:203-210 | and for counts above 32 |
| Division.DivideByHigh | OSkernel/abstract-machine/libs/klib/src/int64.c:99-160 | the branches for a divisor whose low half is zero |
| Division.DivideByLow | OSkernel/abstract-machine/libs/klib/src/int64.c:163-211 | the branches for a divisor that fits the low half |
| Division.DivideHigh | OSkernel/abstract-machine/libs/klib/src/int64.c:212-242 | the branches for two words with high halves |
| Division.UDivModDi4 | OSkernel/abstract-machine/libs/klib/src/int64.c:65-273 | q * b + r == a and r < b for every a and every b but zero, on every branch |
| Division.UDivDi3 | OSkernel/abstract-machine/libs/klib/src/int64.c:58-62 | the unsigned quotient |
| Division.UModDi3 | OSkernel/abstract-machine/libs/klib/src/int64.c:277-283 | the unsigned remainder |
| Division.DivDi3 | OSkernel/abstract-machine/libs/klib/src/int64.c:19-29 | the quotient truncated toward zero, if and only if it is not MIN / -1, which wraps to MIN |
| Division.ModDi3 | OSkernel/abstract-machine/libs/klib/src/int64.c:43-54 | the remainder with the dividend's sign |
| Division.DivModDi4 | OSkernel/abstract-machine/libs/klib/src/int64.c:33-39 | the same quotient, and the remainder of the dividend's sign always |
| Division.TruncRemainder | OSkernel/abstract-machine/libs/klib/src/int64.c:19-54 | truncated quotient and remainder fit together |
| CoSelect.SelectRunnable | Coroutine/libco/co.c:169-185 | if any coroutine can run, one that can run is selected, whatever the number of rounds |
| CoSelect.EveryRunnableHasATurn | Coroutine/libco/co.c:169-185 | some number of rounds from 1 to the ring's length selects any given coroutine that can run |
| CoSelect.RandSelect | Coroutine/libco/co.c:169-185 | despite its i-- the search ends on the linked ring and returns that choice |
| Coroutine.StepSane | Coroutine/libco/co.c:49-107 | whatever rule a wait breaks, every step that frees nothing twice keeps the ring, the waiter slots and the running coroutine consistent |
| Coroutine.StepKeepsInv | Coroutine/libco/co.c:49-107 | every step whose waits have one waiter and close no circle keeps the invariant |
| Coroutine.RunnableExists | Coroutine/libco/co.c:88-107 | then some coroutine of the ring is NEW or RUNNING in every state of every run |
| Coroutine.ChosenRuns | Coroutine/libco/co.c:94-104 | the chosen coroutine was NEW or RUNNING and is RUNNING |
| Coroutine.WaitReturnsAfterDeath | Coroutine/libco/co.c:74-86 | co_wait comes back only after its target died and before it is freed, and nobody else waits for it |
| Coroutine.DeathWakesWaiter | Coroutine/libco/co.c:53-58 | a death wakes exactly the coroutine that waits for it |
| Coroutine.TwoWaitersGetStuck | Coroutine/libco/co.c:82-83 | two waiters for one target: the first is never woken, and co_yield finds none that can run |
| Coroutine.TwoWaitersNoCircle | Coroutine/libco/co.c:82-83 | and no wait of that run closes a circle |
| CoStranded.StrandsIff | Coroutine/libco/co.c:74-86 | a wait for a coroutine that is not dead leaves somebody waiting in every continuation if and only if its target already has a waiter or the wait closes a circle |
| CoStranded.FreesOnceIff | Coroutine/libco/co.c:76-85 | a wait for a dead coroutine frees what no other coroutine has come back to free if and only if it keeps the rules |
| CoStranded.SecondWaiterStrandsFirst | Coroutine/libco/co.c:82-83 | a second waiter takes the slot of the first, who then waits for ever |
| CoStranded.CircleStrandsCaller | Coroutine/libco/co.c:81-84 | a wait that closes a circle of waits is never woken |
| CoStranded.CanWake | Coroutine/libco/co.c:49-107 | while the rules are kept every waiting coroutine can come back: let each one that is chosen finish |
| CoStranded.CircleGetsStuck | Coroutine/libco/co.c:74-86 | two coroutines that wait for each other both wait for ever, though main runs on and only the last wait broke a rule |
| CoTurns.SelectsRank | Coroutine/libco/co.c:169-185 | k rounds end at the coroutine with k modulo the number of those that can run before it in the ring |
| CoTurns.MayBeChosenIff | Coroutine/libco/co.c:88-107 | a coroutine that can run may be chosen by a yield if and only if at most 129 that can run stand before it in the ring, or, for the first of them, at most 129 can run |
| CoTurns.NewcomerIsLast | Coroutine/libco/co.c:62-71 | a coroutine starts at the end of the ring, and every other keeps its place and status |
| CoTurns.MainIsPassedOver | Coroutine/libco/co.c:88-107 | with 129 coroutines started, or more, no random number lets main run when it yields first |
| Expr.MinimalIsWellFormed | Emulator/nemu/src/monitor/debug/expr.c:211-222 | every tree, written with minimal parentheses, reads back as itself with the same value, or the same trap |
| Expr.MinimalIsShortest | Emulator/nemu/src/monitor/debug/expr.c:211-222 | no other way of writing it is shorter |
| Expr.PrintBalanced | Emulator/nemu/src/monitor/debug/expr.c:174-191 | the text of a tree has matching parentheses |
| Expr.PrintTopOps | Emulator/nemu/src/monitor/debug/expr.c:197-210 | the operators outside parentheses of a text are the tree's, in order |
| Expr.MainOfTree | Emulator/nemu/src/monitor/debug/expr.c:211-222 | the rule for the main operator finds the root of every tree |
| Expr.OnePairIsParen | Emulator/nemu/src/monitor/debug/expr.c:153-172 | the counting rule holds exactly for texts in one pair of parentheses |
| Expr.RootOperator | Emulator/nemu/src/monitor/debug/expr.c:299-315 | the place found splits the text into the texts of both operands |
| Expr.CheckParentheses | Emulator/nemu/src/monitor/debug/expr.c:153-172 | the loop decides the counting rule |
| Expr.MyCheckParentheses | Emulator/nemu/src/monitor/debug/expr.c:174-191 | true exactly for matching parentheses |
| Expr.FindTheMainOp | Emulator/nemu/src/monitor/debug/expr.c:192-318 | the place of the main operator, or 0 when there is no operator, unless the 30 operators of the buffer are too few |
| Expr.FitsIff | Emulator/nemu/src/monitor/debug/expr.c:192-210 | a text that fits the 64 tokens overfills that buffer if and only if it has 31 operators outside parentheses |
| Expr.LongSumOverfills | Emulator/nemu/src/monitor/debug/expr.c:192-210 | the sum of 32 numbers does |
| Expr.TrapsIff | Emulator/nemu/src/monitor/debug/expr.c:416-426 | evaluating a tree traps if and only if some division in it divides INT_MIN by -1 |
| Expr.TrapCanBeTyped | Emulator/nemu/src/monitor/debug/expr.c:416-426 | (0-2147483647-1)/(0-1) does |
| Expr.Eval | Emulator/nemu/src/monitor/debug/expr.c:319-433 | ends and comes to the left-associative value of the tree, a division by zero giving 0, or to the trap of its first division of INT_MIN by -1, or to an overfull buffer of operators; what the value is ExprMeaning says |
| ExprMeaning.ApplyIff | Emulator/nemu/src/monitor/debug/expr.c:416-426 | an operator comes to the one int that is congruent to the sum, difference or product modulo 2^32, to the quotient whose remainder is smaller than the divisor and has the sign of the dividend, to 0 for a divisor 0, and traps exactly if there is none |
| ExprMeaning.ValueIff | Emulator/nemu/src/monitor/debug/expr.c:319-433 | so a tree comes to v if and only if its operators, taken as these relations, lead from its numbers to v |
| ExprMeaning.ValueIsExact | Emulator/nemu/src/monitor/debug/expr.c:416-426 | without divisions the value is congruent modulo 2^32 to the value over unbounded integers |
| ExprMeaning.SmallIsExact | Emulator/nemu/src/monitor/debug/expr.c:416-426 | and equal to it whenever that is an int |
| ExprMeaning.Precedence | Emulator/nemu/src/monitor/debug/expr.c:211-222 | three numbers and two operators are read as C groups them, products first and from the left |
| ExprMeaning.Parentheses | Emulator/nemu/src/monitor/debug/expr.c:153-172 | and with parentheses as those say |
| NumberText.NumeralDenotes | OSkernel/abstract-machine/libs/klib/src/printf.c:295-301 | the numeral of a value stands for it |
| NumberText.NumeralStarts | OSkernel/abstract-machine/libs/klib/src/printf.c:295-301 | and has no superfluous zero |
| NumberText.NumeralIsReversed | OSkernel/abstract-machine/libs/klib/src/printf.c:295-301 | the digits that the loop stores are the numeral backwards when the buffer has room |
| NumberText.FieldIsStandard | OSkernel/abstract-machine/libs/klib/src/printf.c:202-280 | the padded field is the one C11 asks for if and only if width, precision and flags are supported |
| NumberText.LeftIgnoresPrecision | OSkernel/abstract-machine/libs/klib/src/printf.c:230-280 | with '-' the field is the one that C11 asks for without the precision |
| NumberText.ZerosFillBuffer | OSkernel/abstract-machine/libs/klib/src/printf.c:230-280 | a field whose zeros and sign do not fit the buffer is its 32 digits without the sign, behind the spaces of its width |
| NumberText.CutIsNotStandard | OSkernel/abstract-machine/libs/klib/src/printf.c:296-300 | digits beyond the 32 of the buffer are lost, and the field is then never C11's |
| Snprintf.NumeralOfDenotes | OSkernel/abstract-machine/libs/klib/src/printf.c:694-756 | the digits compared with are those of the value, none superfluous, and none at all for zero with a precision |
| Snprintf.ConversionIsStandard | OSkernel/abstract-machine/libs/klib/src/printf.c:686-758 | every integer conversion gives C11's field of the value cut to its length, if and only if it has at most 32 digits and a supported width and precision |
| Directives.DirectiveReads | OSkernel/abstract-machine/libs/klib/src/printf.c:605-683 | every spelling of flags, width, precision, stars and length is read as what C11 makes of it |
| Directives.RenderDirective | OSkernel/abstract-machine/libs/klib/src/printf.c:590-602 | the text of a format is the texts of its directives and the characters between them, in order |
| Directives.NumberDirective | OSkernel/abstract-machine/libs/klib/src/printf.c:686-758 | an integer directive in a format puts out C11's field for the value of its argument at its length, in its own base, case and sign, exactly when there is room for it |
| Directives.UnsignedText | OSkernel/abstract-machine/libs/klib/src/printf.c:686-758 | %u, %o, %x, %X and %b write the argument modulo 2 to its length in base 10, 8, 16, 16 and 2, without a superfluous zero, lower or upper case as asked, for every length |
| Directives.SignedText | OSkernel/abstract-machine/libs/klib/src/printf.c:724-741 | %d and %i write the signed number congruent to the argument modulo 2 to its length |
| Directives.StringDirective | OSkernel/abstract-machine/libs/klib/src/printf.c:799-823 | %s puts out the string, or as much of it as the precision allows, on the side of its field that '-' asks for |
| Directives.CharacterDirective | OSkernel/abstract-machine/libs/klib/src/printf.c:779-797 | %c puts out its argument cut to a char |
| Directives.PointerText | OSkernel/abstract-machine/libs/klib/src/printf.c:825-841 | %p writes the 64 bits of a pointer as 16 upper-case hexadecimal digits |
| Directives.OtherDirective | OSkernel/abstract-machine/libs/klib/src/printf.c:843-852 | %%, and any other character that is no conversion, puts out that character and takes no argument; so do f, e and g, as floating point is switched off |
| DirectiveExamples.Bases | OSkernel/abstract-machine/libs/klib/src/printf.c:694-712 | %x and %X of 255 are ff and FF, %o of 8 is 10, %b of 5 is 101 |
| DirectiveExamples.ZeroPadded | OSkernel/abstract-machine/libs/klib/src/printf.c:604-615 | %05d of -42 is -0042 |
| DirectiveExamples.StarWidth | OSkernel/abstract-machine/libs/klib/src/printf.c:617-632 | %*d of 5 and 42 is 42 behind three spaces |
| Snprintf.LeftLosesPrecision | OSkernel/abstract-machine/libs/klib/src/printf.c:233-243 | %-5.3d of 7 is not C11's field |
| Snprintf.WideZerosAreCut | OSkernel/abstract-machine/libs/klib/src/printf.c:240-242 | nor is %040d of 7 |
| Snprintf.OutReversed | OSkernel/abstract-machine/libs/klib/src/printf.c:202-226 | puts out the padded reverse of the buffer |
| Snprintf.NtoaFormat | OSkernel/abstract-machine/libs/klib/src/printf.c:230-280 | puts out the field of digits, sign and flags |
| Snprintf.NtoaLong | OSkernel/abstract-machine/libs/klib/src/printf.c:284-304 | puts out the field of a value in a base |
| Snprintf.PutFormat | OSkernel/abstract-machine/libs/klib/src/printf.c:590-853 | puts out the untruncated text of the format and its arguments |
| Snprintf.Vsnprintf | OSkernel/abstract-machine/libs/klib/src/printf.c:580-860 | stores exactly the first n-1 characters of the untruncated output and a NUL, writes nothing else, and returns the untruncated length |
| Snprintf.PrintThenAtoi | OSkernel/abstract-machine/libs/klib/src/stdlib.c:16-33 | atoi reads back what snprintf makes of %d, and of %0Nd for N up to 32 |
| Atoi.AtoiText | OSkernel/abstract-machine/libs/klib/src/stdlib.c:16-33 | the loop computes the number behind an optional minus modulo 2^32 |
| Atoi.AtoiReadsPrintD | OSkernel/abstract-machine/libs/klib/src/stdlib.c:16-33 | atoi of the plain or zero-padded decimal text of any x of at most 31 digits is x modulo 2^32 |

## Findings

Where the code does not do what its callers would expect, the model keeps the code, gives an input, and proves the exact
condition.

| source | what happens, and when | members |
|---|---|---|
| OSkernel/kernel/src/os.c:138-149 | os_on_irq drops a handler without a word if and only if the list is not empty and its number is below the first one's | Irq.RegisteredKeepsOrder, Irq.LowNumberIsLost |
| OSkernel/kernel/src/kmt.c:119-125 | the wait list law fails from the start for a semaphore initialised with a negative value, and only then | KernelTheorems.LengthLawNeedsNonNegative |
| OSkernel/kernel/src/pmm.c:197-206 | the assertion in the 512 case of kfree is wrong for half of the blocks of such a page; pmm.c leaves DEBUG undefined, so it is not compiled in | SlabAssertion.HoldsInFirstHalf, SlabAssertion.AssertionFails |
| OSkernel/kernel/src/pmm.c:71-122 | a page is marked full while its last block is free exactly from the step that takes the last but one of its blocks, both in the last bitmap word, until a block comes back to it; no other block is ever hidden | SlabPage.TakeHidesIff, SlabFull.HidesIff, SlabFull.FullWithFreeBlock, SlabHeap.FullHidesAtMostTop |
| OSkernel/abstract-machine/libs/klib/src/int64.c:19-29 | MIN / -1 wraps to MIN in __divdi3; every other quotient is right | Division.DivDi3 |
| Coroutine/libco/co.c:74-86 | co_wait makes a coroutine wait for ever if and only if its target, not dead, already has a waiter or the wait closes a circle | CoStranded.StrandsIff, CoStranded.CircleGetsStuck, Coroutine.TwoWaitersGetStuck |
| Coroutine/libco/co.c:88-107 | a yield can reach a coroutine that can run if and only if at most 129 such stand before it in the ring, or at most 129 can run if it is the first; behind more, main is passed over by every random number | CoTurns.MayBeChosenIff, CoTurns.MainIsPassedOver |
| Emulator/nemu/src/monitor/debug/expr.c:416-426 | eval traps if and only if a division in the tree divides INT_MIN by -1 | Expr.TrapsIff, Expr.TrapCanBeTyped |
| Emulator/nemu/src/monitor/debug/expr.c:192-210 | the buffer of find_the_main_op is one operator too small for the longest texts: exactly those with 31 operators outside parentheses | Expr.FitsIff, Expr.LongSumOverfills |
| OSkernel/abstract-machine/libs/klib/src/printf.c:230-301 | with '-' a precision counts for nothing, and zeros, a sign or digits that the 32-character buffer has no room for are lost; every other field is C11's | Snprintf.ConversionIsStandard, Snprintf.LeftLosesPrecision, Snprintf.WideZerosAreCut, NumberText.LeftIgnoresPrecision, NumberText.ZerosFillBuffer |

## Left out

- Expr.Eval: sums and products wrap; what follows a write behind the buffer of operators, tokenising, registers,
  hexadecimal numbers, DEREF, `&&`, `==` and `!=` are not modelled, nor texts that are not the text of a tree.
- ListBench.BenchList: lists shorter than three nodes, core_list_init, core_bench_state and core_bench_matrix are not
  modelled.
- MergeSort.Mergesort: calls on an empty list and overflow of insize are not modelled.
- Division.UDivModDi4: division by zero, which faults, and a NULL rem are not modelled.
- AddressSpace.Mmu.Lifetime: it ends at the first panic, which halts the machine.
- AddressSpace.Mmu.PgAllocZ: the zeroing loop is one assignment; pages come from a list of aligned, distinct, unused
  addresses, and mapped frames are never among them.
- KernelTables.BootTablesAreShared: the words of the top-level page that start64.S does not write are taken to be zero,
  and physical addresses to stay below 2^52.
- Snprintf.Vsnprintf: the `#` flag, a NULL buffer, the other output functions, a format that ends inside
  a directive and missing or mismatched arguments are not modelled; long has 64 bits.
- Atoi.AtoiText: overflow of int, undefined in C, wraps.
- SlabHeap.StepKeepsInv: requests of 0 and above 4096 bytes and the 32-bit build, where the macro misspelt at pmm.c:228
  leaves a class without bitmap, are not modelled; the page lock and global_lk are held for one step.
- Coroutine.StepKeepsInv: setjmp, longjmp and the stack switch, failing malloc, uses of a freed coroutine and the return
  of main are not modelled; nobody waits for main, whose struct co_start never returns.
- CoStranded.StrandsIff: continuations that free a coroutine twice, undefined in C, are not followed.
- kmt_teardown and tasks_throw: they mark a task DEAD before taking the lock and need it to be in the queue, so they fall
  outside the protocol.
- Failing allocations in kmt_create, kmt_sem_wait and os_on_irq, and overflow of a semaphore's value.
- Weak memory: steps are sequentially consistent and _atomic_xchg is atomic.
- Context switching, trap entry, control registers, TLBs and _ucontext; a handler's returned context runs next.
- Devices, boards, the NES emulators, the other benchmarks, the debugger's commands and user interfaces.
