# A model of the kernel's memory manager and scheduler

This project models the parts of a small RISC-V kernel where most can go wrong, and proves what
they are for:

* **Page tables over the free-page list** (`kernel/mm/mm.c`, `kernel/mm/vm.c`, `kernel/mm/vm.h`).
  Physical memory is one array of 64-bit words; free pages are linked through their own first word;
  table pages come from and return to that list. `PageTables` gives the state as a value (the free
  stack, the table at each place of each tree, the valid leaves) and every operation as a function;
  `Kernel.Machine` is the code as it runs on the array, proved to compute exactly those functions;
  the theorems are about the functions, for any number of trees and any run.
* **The scheduler** (`kernel/process/scheduler.c`, `process.c`, `swtch`). `Scheduling` gives each
  scheduler call as a step on values; `KernelScheduler.Scheduler`, with the ring buffers and the
  sorted array of `ReadyQueues`, is the code as it runs. The theorems hold in every interleaving of
  steps.
* **The SimpleFS directory** (`kernel/fs/simplefs.c`) and **`print_num`** (`kernel/printf.c`).

## Modelling decisions

* Words are `nat` below 2^64 and wrap explicitly (`va + size - 1`, `pa += PGSIZE`, left shifts).
  The shift and mask macros of `vm.h` are written with bitwise operators defined bit by bit on
  naturals (`Bits`) and proved equal to the division and remainder forms used elsewhere.
* A panic is a result (`Remap`, `ZeroSize`, `NotMapped`, `KvmInit` returning false), so `mappages` and
  `unmappages` have no precondition on the range or the permissions; callers owe a live root. `vm_free`
  takes a leaf without R, W and X for a table (`Sv39.LeafPteFields` gives the exact condition), so it
  asks for a tree without such leaves; one that is only ever mapped with R, W or X stays such a tree
  (`PageTableRuns.RunKeepsFreeable`).
* `mm_init` starts from arbitrary memory contents; the linker's `__heap_end` is a parameter. The last
  free page links to 0; in an empty pool the head is the end address instead, and the count guards it.
* Each scheduler call is atomic on the one CPU, which the note at kernel/process/scheduler.c:51-57
  supports. `swtch` returns only when the outgoing process is resumed, so the aging code at the end of
  `sched_tick` runs in whichever process reaches it: a process switched out inside `sched_tick` runs
  it when it is resumed. The model records this per process (`Resume`), instead of letting aging
  happen at arbitrary times.
* Processes are indices into the process table; index 64 is the idle process. Tick counters and
  process identifiers are unbounded.

## Where the code and its documentation differ

* docs/SCHEDULER.md says that every 100 ticks all processes are boosted. `Boosting.BoostedOnHundredIff`
  gives, for every state and every normal process in a place, the exact condition under which it is on
  level 0 after such a tick. It is not boosted when it is the running process and keeps the CPU, when
  it is the process dispatched by that very tick, when no process is current, and when the tick ends a
  time slice and switches to a process that was not itself interrupted in `sched_tick`.
  `AgingGap.AgingMissedFromBoot` is a run from boot on which the boost of tick 100 fails for everybody.
* Starvation freedom, which the boost is meant to give, holds among normal processes
  (`Starvation.NoStarvation`): as long as no real-time process is in a queue or running and none is
  added, every normal process that waits while the CPU is not idle is dispatched within 25950 ticks,
  because each missed boost uses up a demotion or a place in the queue. With a FIFO process or idle on
  the CPU it fails: neither is ever preempted (`Idling.KeepsCpu`).
* The documentation says that idle runs only when no other process is ready. The next process is chosen
  before the outgoing one is queued, so idle runs next to a ready process after a yield or the end of a
  slice with nobody else ready, and after an addition while idle runs, until the next yield:
  `Idling.StalledIff` says for every run exactly when, `Idling.NeverStallsIff` on which runs the
  documentation is right throughout, and `BootRuns.LoneStallsFromBoot` is a run of four steps on which
  it is not.
* A FIFO process that yields is lost (`SchedulerRuns.FifoYieldLoses`, and
  `BootRuns.FifoLostFromBoot` for the process kernel/main.c sets up); a switch keeps the scheduler's
  invariant exactly when the outgoing process is not a FIFO one (`SchedulerRuns.YieldKeepsIff`).
* SimpleFS stores 27 characters of a name but looks for all of it, so long names are never found and can
  be created twice (`SimpleFs.LongNameTwice`); `SimpleFs.StaysDistinctIff` says on which runs names stay
  distinct.

## Model

| member | source | states |
|---|---|---|
| Sv39.PXIsDigit | kernel/mm/vm.h:33-35 | PX, written with shift and mask, is the base-512 digit of the virtual page number at each level |
| Sv39.TablePteFields | kernel/mm/vm.h:28-30 | the entry of a table page is recognised as a table and gives back exactly that page |
| Sv39.LeafPteFields | kernel/mm/vm.c:114 | a leaf entry is valid and gives back the physical page for every 64-bit address; vm_free takes it for a table exactly when R, W and X are all absent |
| Sv39.LeafPermIsRwx | kernel/mm/vm.c:207 | the permission condition in division form is the mask vm_free applies |
| PhysicalMemory.FollowVisits | kernel/mm/mm.c:29-41 | following the links k times from the head reaches the k-th free page, and after all of them the end mark |
| Kernel.Machine.constructor | kernel/mm/mm.c:14-45 | from any memory contents, all pages of the pool end up free and linked in address order |
| Kernel.Machine.AllocPage | kernel/mm/mm.c:47-65 | pops the head of the list, returns the page all zero, changes no other page; NULL exactly when the list is empty |
| Kernel.Machine.FreePage | kernel/mm/mm.c:67-77 | pushes the page on the list and changes no other page, even while a tree is being taken apart |
| Kernel.Machine.ReturnPage | kernel/mm/mm.c:67-77 | a page handed out goes back to the pool and all trees keep their contents |
| Kernel.Machine.Walk | kernel/mm/vm.c:63-90 | the loop computes the three-level descent: the address of the leaf entry, missing tables allocated on demand, NULL exactly when out of range or out of pages |
| Kernel.Machine.MapPages | kernel/mm/vm.c:93-125 | the in-place loop computes MapPages on the value, for every outcome, every range, wrapping ones included, and every permission, and terminates |
| Kernel.Machine.UnmapPages | kernel/mm/vm.c:128-153 | the in-place loop computes UnmapPages on the value |
| Kernel.Machine.WalkAddr | kernel/mm/vm.c:156-171 | the physical page of a mapped address, 0 otherwise; memory, the pool and its end mark unchanged |
| Kernel.Machine.Va2Pa | kernel/mm/vm.c:179-190 | the translation of the address, 0 when unmapped; memory, the pool and its end mark unchanged |
| Kernel.Machine.CreateTable | kernel/mm/vm.c:193-200 | a fresh empty tree, NULL exactly when no page is free |
| Kernel.Machine.FreeTable | kernel/mm/vm.c:203-215 | the recursion without a level pushes the subtree in post-order, reads no entry of a freed page, and changes no memory outside the subtree |
| Kernel.Machine.VmFree | kernel/mm/vm.c:203-215 | frees exactly the tree of this root; the free count rises by the number of its tables; for trees without leaves that lack R, W and X |
| Kernel.Machine.KvmInit | kernel/mm/vm.c:15-50 | gets through exactly when at least 101 pages are free, and then uses 101; the table it returns makes the hardware translate every byte of RAM and of the three devices to itself, RAM with R, W and X, devices with R and W, and fault on every other 64-bit address |
| PageTableRuns.RunOk | kernel/mm/vm.c:63-215 | over any run of create, map, unmap, free, alloc and free page: every tree is three-level, on pages of its own, and free, handed-out and table pages partition the pool |
| PageTableRuns.RunIsolates | kernel/mm/vm.c:63-215 | a tree that no operation of a run names comes out with the same tables and leaves |
| PageTableRuns.RunKeepsFreeable | kernel/mm/vm.c:93-215 | a tree only ever mapped with R, W or X has no leaf that vm_free would take for a table, after every run |
| PageTableInvariant.MapFromFrame | kernel/mm/vm.c:93-125 | mapping leaves all other trees and all existing tables alone |
| TableFreeing.FreedMembers | kernel/mm/vm.c:203-215 | a page is pushed for a subtree exactly when it holds one of its tables |
| TableFreeing.FreedIsTree | kernel/mm/vm.c:203-215 | vm_free on a root pushes each page of the tree exactly once and nothing else |
| TableFreeing.FreeTreeOk | kernel/mm/vm.c:203-215 | after vm_free the invariant holds and the free count has grown by the number of tables |
| Mapping.MapFromLeaves | kernel/mm/vm.c:101-124 | whatever the outcome, the new leaves are the old ones plus the mapping of a prefix of the range |
| Mapping.MapFromStops | kernel/mm/vm.c:104-124 | where the loop stopped and why: end of range, already mapped page, MAXVA, or no page left for a table still missing |
| Mapping.MapSucceedsIff | kernel/mm/vm.c:93-125 | an unmapped range is mapped exactly when its last page is in reach below MAXVA and the missing tables number at most the free pages; it takes exactly that many |
| MappedRanges.MappedBytes | kernel/mm/vm.c:93-125 | after success, va2pa of va+k is pa+k for every byte of the range |
| MappedRanges.MappedPages | kernel/mm/vm.c:101-123 | after success a page is mapped exactly when it was before or shares a byte with the range, aligned or not |
| MappedRanges.UnmapSucceedsIff | kernel/mm/vm.c:128-153 | unmapping goes through exactly when every page of the range is mapped |
| MappedRanges.UnmapUndoesMap | kernel/mm/vm.c:93-153 | unmapping a range just mapped restores every translation, though the tree may have grown |
| MappedRanges.MapAllCosts | kernel/mm/vm.c:26-47 | mapping pairwise disjoint ranges in sequence succeeds exactly when the tables missing for all of them number at most the free pages |
| MappedRanges.KvmInitTakes101 | kernel/mm/vm.c:15-50 | the kernel's own page table takes 101 pages |
| KernelSpace.MapAllPage | kernel/mm/vm.c:26-47 | after a sequence of ranges is mapped, a page is mapped exactly when it was before or a range includes it, and as that range says |
| KernelSpace.KernelTranslates | kernel/mm/vm.c:15-50 | after kvminit, va2pa gives every byte of the four numeral ranges itself and 0 for every other address; their leaves hold V, R, W, and X exactly in RAM |
| KernelSpace.KernelOnHardware | kernel/mm/vm.c:15-50 | the Sv39 hardware walk gives the same addresses with these rights, for every 64-bit address |
| HardwareWalk.HardwareAgrees | kernel/mm/vm.c:63-90 | for every 64-bit address the Sv39 hardware walk hits exactly when the page is mapped below MAXVA with an acceptable leaf, with the address va2pa gives and the rights of the leaf |
| HardwareWalk.AcceptedLeaf | kernel/mm/vm.h:16-30 | a leaf gives the rights its permissions ask for, and is acceptable to the hardware exactly when these have R or X, and W only with R |
| HardwareWalk.MappedBytesOnHardware | kernel/mm/vm.c:93-125 | after a successful mapping with usable permissions the hardware translates every byte as intended, with exactly the rights asked for |
| HardwareWalk.RunIsolatesHardware | kernel/mm/vm.c:63-215 | a tree no operation of a run names translates every address as before on the hardware |
| ReadyQueues.Ring.Enqueue | kernel/process/scheduler.c:67-74 | appends to the FIFO sequence the ring stands for, despite wraparound; dropped exactly when full |
| ReadyQueues.Ring.Dequeue | kernel/process/scheduler.c:77-85 | takes the front of that sequence |
| ReadyQueues.RtQueue.Enqueue | kernel/process/scheduler.c:88-103 | the shifting loop is sorted insertion |
| ReadyQueues.RtQueue.Dequeue | kernel/process/scheduler.c:106-116 | takes the front, keeps the order of the rest |
| RealTimeQueue.FrontIsEarliest | kernel/process/scheduler.c:88-116 | the front of the sorted array is the earliest-added process of least priority number, and the rest is the array of the others |
| RealTimeRuns.RunFiled | kernel/process/scheduler.c:176-328 | along every run the array is the sorted filing of the processes added or returned and not yet dispatched, in order of arrival; none is dropped, and their priorities do not change |
| RealTimeRuns.NextIsEarliest | kernel/process/scheduler.c:200-209 | in every state reached from initialisation sched_next takes the earliest pending real-time process of least priority number |
| SchedulerInvariant.InsertPlace | kernel/process/scheduler.c:93-101 | a process is inserted behind all at least as urgent and before all less urgent ones, which keep their order |
| SchedulerInvariant.NoDrop | kernel/process/scheduler.c:67-74 | a process not yet in a queue always finds room, by counting against the 64-entry table |
| SchedulerInvariant.AddRoutes | kernel/process/scheduler.c:176-197 | in any state: where sched_add puts a process by policy and level, levels out of range and full queues included |
| SchedulerInvariant.NextOk | kernel/process/scheduler.c:200-225 | sched_next takes exactly one process off its queue, and chooses idle only when every queue is empty |
| SchedulerInvariant.NextRealTime | kernel/process/scheduler.c:203-209 | a waiting real-time process is preferred, the one of least priority number |
| SchedulerInvariant.NextNormal | kernel/process/scheduler.c:211-224 | otherwise the front of the lowest nonempty level, with 5, 10, 20 or 40 ticks by level |
| SchedulerInvariant.YieldOk | kernel/process/scheduler.c:267-328 | a switch keeps the invariant and every process in its place |
| SchedulerInvariant.AgeIs | kernel/process/scheduler.c:371-383 | aging makes level 0 the concatenation of levels 0 to 3, empties the others, resets level and slice of those it moves, loses none |
| SchedulerRuns.RunOk | kernel/process/scheduler.c:176-383 | after every run the invariant holds and exactly the added processes are in a place |
| SchedulerRuns.ExactlyOnePlace | kernel/process/scheduler.c:176-305 | a placed process is current and RUNNING, or RUNNABLE in exactly the queue its policy and level name |
| SchedulerRuns.FifoYieldLoses | kernel/process/scheduler.c:284-295 | a FIFO process that yields is in no queue, not current, and still RUNNING |
| SchedulerRuns.YieldKeepsIff | kernel/process/scheduler.c:267-317 | a switch keeps the invariant exactly when the outgoing process is not a FIFO one |
| Starvation.DispatchedWithin | kernel/process/scheduler.c:331-383 | when only normal processes are in a place and only normal ones are added, a process waiting while the CPU is not idle is dispatched before its bound of ticks has passed, in every run, changes and freeing of other slots included |
| Starvation.DispatchedFromLevel0 | kernel/process/scheduler.c:200-225 | under the same conditions, index k of level 0 behind a process with r ticks left: within r + 5k ticks |
| Starvation.DispatchedAfterAging | kernel/process/scheduler.c:369-383 | under the same conditions, after an aging step every waiting process is dispatched within 350 ticks |
| Starvation.NoStarvation | kernel/process/scheduler.c:331-383 | when only normal processes are in a place and only normal ones are added, and the CPU is not idle, every waiting process is dispatched within 25950 ticks |
| Boosting.BoostedOnHundredIff | kernel/process/scheduler.c:331-383 | for every state and every normal process in a place: it is on level 0 after a tick that is a multiple of 100 exactly when (no current process) it was already; (slice not ending) it was already or is not the current one; (slice ending, n next) for n, it was already, and for others, n was itself interrupted in sched_tick, or it waited on level 0 |
| AgingGap.AgingMissedFromBoot | kernel/process/scheduler.c:356-383 | a run from boot on which tick 100 passes and three processes stay on level 3 |
| AgingGap.WholeSlice | kernel/process/scheduler.c:352-361 | a slice of k ticks ends in a switch at its k-th tick, without aging when the next process has not run yet |
| Idling.KeepsCpu | kernel/process/scheduler.c:356-367 | without a yield, idle and FIFO processes stay current whatever waits |
| Idling.YieldStalls | kernel/process/scheduler.c:320-328 | after a switch idle runs next to a ready process exactly when the outgoing process goes back into a queue and nobody else was ready |
| Idling.StepStalls | kernel/process/scheduler.c:176-383 | the exact condition for every step: a lone process gives up the CPU, a process is added while idle runs, or it was so before and the step is not a yield |
| Idling.StalledIff | kernel/process/scheduler.c:176-383 | after every run idle runs next to a ready process exactly when a step brought it about, or it was so at the start, and no yield followed |
| Idling.NeverStallsIff | kernel/process/scheduler.c:320-367 | idle runs only when nothing is ready, throughout a run, exactly when no step of the run meets that condition |
| BootRuns.LoneStallsFromBoot | kernel/process/scheduler.c:320-328 | allocate, add, yield, yield: process 0 waits and idle runs |
| BootRuns.FifoLostFromBoot | kernel/main.c:109-117 | the FIFO process of the kernel's own test, dispatched after boot, is RUNNING in no place once it yields |
| SchedulerAccounts.QuantumLasts | kernel/process/scheduler.c:352-361 | with fewer ticks than its slice and no yield, a normal process is still current and its slice is down by exactly those ticks |
| SchedulerAccounts.QuantumEnds | kernel/process/scheduler.c:356-361 | the tick that uses up the slice takes the CPU away and puts the process at the end of the next level, at most 3, or on level 0 exactly when the tick also ages it |
| SchedulerAccounts.RunsItsSlice | kernel/process/scheduler.c:200-361 | a normal process dispatched on level 0, 1, 2 or 3 that does not yield is current for exactly 5, 10, 20 or 40 ticks, whatever else happens, and is then preempted as QuantumEnds says |
| SchedulerAccounts.DispatchedFull | kernel/process/scheduler.c:211-220 | whatever step dispatches a normal process, it starts with 5, 10, 20 or 40 ticks by level |
| SchedulerAccounts.SwitchedOut | kernel/process/scheduler.c:284-290 | a normal process switched out goes to the end of its own level with ticks left, of the next one down, or the last, without |
| SchedulerAccounts.EarlyYield | kernel/process/scheduler.c:284-328 | a normal process that yields keeps its level and goes to its end, or to level 0 exactly when the process resumed then ages |
| SchedulerAccounts.TimeConserved | kernel/process/scheduler.c:331-354 | after every run CPU ticks are idle ticks plus everyone's CPU time plus ticks with no current process |
| SchedulerAccounts.UsageWithin100 | kernel/process/process.c:83-97 | in every state reached from initialisation neither usage figure underflows or exceeds 100 percent |
| Charges.TickCharges | kernel/process/scheduler.c:331-349 | in any state a tick is charged to the process current when it arrives and to nobody else, and counts as idle exactly when that is idle |
| Charges.TickTakesOne | kernel/process/scheduler.c:351-367 | while the slice lasts, a tick takes one from it, whatever the policy, and leaves the rest of the process alone |
| Charges.YieldCounts | kernel/process/scheduler.c:275-302 | a switch is counted once for the process that leaves and once for the one that comes, which notes the time |
| Charges.RunCharges | kernel/process/scheduler.c:267-349 | over every run the CPU time of a process that is not freed grows by exactly the ticks that find it current, its switch count by exactly the times it gets or loses the CPU |
| Charges.RunCounts | kernel/process/scheduler.c:331-349 | over every run the CPU's ticks grow by all ticks and its idle ticks by those that find idle current |
| Charges.PidsDistinct | kernel/process/process.c:29-34 | in every state reached from initialisation no two processes have the same identifier, and none has one still to be given out |
| Charges.NewcomerJoins | kernel/process/process.c:29-56 | a process allocated and added joins the end of level 0 with priority 100, a new identifier and empty accounts, whatever its slot was used for |
| Charges.SlotGivenBack | kernel/process/process.c:58-70 | a freed slot keeps no identifier, priority or counts, is allocated again unless an earlier one is unused, and nobody else changes |
| Priorities.SetPrioritySets | kernel/process/scheduler.c:238-258 | both priorities become the request clamped to 0..139; up to 99 the policy becomes round-robin, above it the level is 0, 1, 2 or 3 by tens; nothing else changes |
| Priorities.SmallerFirst | kernel/process/scheduler.c:88-116 | in every run, of two waiting real-time processes the one with the larger number gets the CPU only after the other has had it |
| Priorities.PriorityDecides | kernel/process/scheduler.c:238-258 | of two processes given real-time priorities a < b and added in either order, the one with a is dispatched first, in every run |
| Priorities.RoundRobinPreempted | kernel/process/scheduler.c:356-366 | a round-robin process with at most one tick left loses the CPU at the next tick and waits in the array again |
| SchedulerAccounts.ResumeRestores | kernel/process/swtch.S:14-58 | a resumed process gets back exactly the registers live when it was switched out |
| KernelScheduler.Cpu.Swtch | kernel/process/swtch.S:14-58 | all 14 registers are saved, unless the old context is NULL, and all 14 are loaded |
| KernelScheduler.Scheduler.constructor | kernel/process/scheduler.c:148-173 | the tables, queues and idle process after initialisation: the state from which the runs from boot start |
| KernelScheduler.Scheduler.SchedAdd | kernel/process/scheduler.c:176-197 | computes Add: state, routing by policy, clamped level |
| KernelScheduler.Scheduler.SchedNext | kernel/process/scheduler.c:200-225 | the search over queues and levels computes Next; a normal process gets 5, 10, 20 or 40 ticks by level |
| KernelScheduler.Scheduler.ContextSwitch | kernel/process/scheduler.c:267-317 | computes Switch: requeueing with demotion, then loading with swtch |
| KernelScheduler.Scheduler.SchedYield | kernel/process/scheduler.c:320-328 | computes Yield: next chosen before the outgoing process is requeued |
| KernelScheduler.Scheduler.SchedTick | kernel/process/scheduler.c:331-384 | computes TickStep: accounting, preemption, and the end of sched_tick in the process that reaches it; the tick is charged to the process that was current |
| KernelScheduler.Scheduler.DrainLevel | kernel/process/scheduler.c:374-381 | the aging loop over one level computes Drain and terminates |
| KernelScheduler.Scheduler.AgeTail | kernel/process/scheduler.c:369-383 | the aging loops compute Age on multiples of 100 |
| KernelScheduler.Scheduler.ProcessAlloc | kernel/process/process.c:29-56 | the search takes the first unused slot and initialises it; NULL when there is none |
| KernelScheduler.Scheduler.YieldCpu | kernel/process/scheduler.c:320-328 | computes YieldStep: a voluntary yield, and the end of sched_tick in the resumed process if that was interrupted there |
| KernelScheduler.Scheduler.ProcessFree | kernel/process/process.c:58-70 | computes Release |
| KernelScheduler.Scheduler.SchedSetPriority | kernel/process/scheduler.c:238-258 | computes SetPriority, and meets PrioritySet: clamped priority, real-time policy up to 99, level by tens above, nothing else changed |
| SimpleFs.FileTable.FindInode | kernel/fs/simplefs.c:46-68 | the byte-by-byte search finds the first inode whose stored name is the given one |
| SimpleFs.FileTable.SfsCreate | kernel/fs/simplefs.c:71-107 | computes Create on the table, with the free-inode counter exact; the new inode has its number, the type asked for and size 0, the others are unchanged |
| SimpleFs.FileTable.SfsDelete | kernel/fs/simplefs.c:110-132 | computes Delete on the table, with the free-inode counter exact; exactly the inode found is cleared |
| SimpleFs.CreateInserts | kernel/fs/simplefs.c:71-107 | for names of at most 27 characters, create is insertion of a new name with an unused inode number; it fails exactly when the name exists or no inode is free |
| SimpleFs.DeleteRemoves | kernel/fs/simplefs.c:110-132 | delete is removal of the name; it fails exactly when the name does not exist |
| SimpleFs.RunKeepsDirectory | kernel/fs/simplefs.c:71-132 | every run of creates and deletes of such names keeps the table a finite map, with names and free inodes adding up to 64 |
| SimpleFs.StepIsMapStep | kernel/fs/simplefs.c:71-132 | each operation is a step of a bounded map from names to inode numbers |
| SimpleFs.LongNames | kernel/fs/simplefs.c:51-59 | longer names are never found; creating one keeps names distinct exactly when its first 27 characters are not a name yet, or no inode is free |
| SimpleFs.StaysDistinctIff | kernel/fs/simplefs.c:71-132 | over every run, names of any length included, names are distinct throughout exactly when no create of a long name meets its cut name and a free inode |
| SimpleFs.LongNameTwice | kernel/fs/simplefs.c:71-107 | the same name of 28 characters can be created twice on the empty table |
| PrintNum.PrintNum | kernel/printf.c:10-33 | for bases 2 to 16 the text is padding followed by the numeral, whose characters, read by their codes, give the number back; its length is the larger of width and digit count; the buffer is overrun exactly for widths above 32 and numbers from the 32nd power of the base on |
| PrintNum.FitsBuffer | kernel/printf.c:10-22 | from base 4 on, and so for the bases printf passes, no 64-bit number overruns the buffer with digits |
| PrintNum.ShownSpells | kernel/printf.c:13-22 | the characters chosen are digits below the base, without a leading zero, that read as the number |
| PrintNum.NumeralUnique | kernel/printf.c:13-22 | a number has only one such numeral |
| PrintNum.ShownValue | kernel/printf.c:15-22 | the digits printed read back as the number |

## Left out

- `process_free` of a process that is queued or running: it would leave a stale queue entry; no code calls it.
- `scheduler()` beyond its first dispatch: it passes no old process, so the running one is neither saved nor requeued (kernel/process/scheduler.c:424-431).
- `swtch` with a NULL next context: `context_switch` never passes one.
- Affinity, more than one CPU, page-table switching in `context_switch`, names of processes.
- 64-bit overflow of tick counters and of the products in the usage percentages.
- `sched_set_priority` and `sched_set_policy` on a process that is queued or running: they can leave it in a queue that no longer matches, and are taken to be called only on processes that wait nowhere.
- The hardware's check of an access against the rights it finds, and the A and D bits: they decide whether an access is allowed, not which address it reaches.
- `satp`, TLB fences, trap entry and return, `switch_to_user`, `trap_vector_user`.
- `kmalloc`: a bump pointer with no free.
- `elf_load`, VFS dispatch, system calls, the shell, devices and `printf` format parsing.
- SimpleFS reads, writes and block counters: no block is ever allocated, so there is no content to speak of.
- PrintNum.PrintNum: bases outside 2 to 16; base 1 would not terminate, and above 16 there are no digits.
- Kernel.Machine.VmFree: not for trees with a leaf that lacks R, W and X; `vm_free` would take the page mapped there for a table and free whatever its contents name.
