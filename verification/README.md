# Project SOL in Dafny

A verification project for the Project SOL kernel: a model of its memory management,
scheduling, interrupt-driven drivers, boot-time parsing, text screen and demonstration
program, with proofs about every run of it. `dafny verify dfyconfig.toml` checks all of it.

## What is modelled

- **Virtual memory** (`memory`, `frames`, `framelaws`, `pagetree`, `vm`, `vmsteps`, `vmlaws`,
  `vmruns`, `vmsystem`, `page`). Page tables are words in memory; `Paging.Page` changes them in
  place, as the kernel does, and is proved to refine `Vm.Vm`, the tables seen as sets and maps:
  which pages are reserved, which blocks of 2 MB are reserved by their level-2 entry alone
  ("lazy"), and which frame is behind which page. `Frames.FrameAllocator` is the allocator
  underneath, with its bump cursors, excluded ranges and the free list threaded through the
  freed frames. `VmSystem` runs stacks, heap ranges and page faults in any order.
- **Kernel heap** (`heapspec`, `kmalloc`, `heapruns`): five pools of blocks carved from heap pages, page
  ranges for large requests, free lists and headers in memory.
- **Queues, scheduler and drivers** (`queue`, `schedspec`, `schedlaws`, `ataspec`, `ring`,
  `kernel`, `kernelruns`, `drivers`). `Queues.Queue` is the pointer-level queue as written.
  `Drivers.Scheduler` works on four such linked queues, which show the sequences of `SchedSpec`.
  `Drivers` holds the scheduler, the disk driver and the keyboard driver as classes;
  `KernelRuns` interleaves system calls, driver calls and interrupts.
- **Snakes** (`snakesearch`, `snakespec`, `snakeruns`, `snakes`): the random search, the shared
  board, and the linked list of snakes with bodies updated in place.
- **Boot** (`boot`, `multiboot`, `startup`): from the bytes of the boot information through coalescing to the
  frame allocator. Section 3.6 of the Multiboot2 Specification version 2.0 gives the tag format.
- **Screen** (`stdlib`, `vga`): memcpy's forward loop, and the 25 by 80 buffer as a window on an
  unbounded log.

## Reading the model

Memory is a map from frame numbers to 512 words; addresses, sizes and counters are integers, and
32-bit or 16-bit truncation is written out where the code relies on it. A `FATAL` is an endless
halt: methods and step functions report it (`fatal`, `halted`, `Halted`). Every interrupt gate of
the kernel disables interrupts, so each system call, driver section and interrupt is one step.

The scheduler, its queues and the drivers are modelled for both forms of `Queue::Push`: a flag
`guarded` selects the form in which the last three lines run only for a non-empty queue, which
never goes wrong; without it pushes behave as written, and a push behind another entry's stale
head ends the run as `Corrupt`. All invariants hold in both forms up to that point.

Predicates such as `SysInv`, `Rescheduled`, `Freed` or `KInv` quantify over a small
enumeration of their parts, so that a lemma can be about one part. Proofs that only pass a
definition on start by hiding it.

## Where the code and its intent differ

The model follows the code. Each difference has a lemma that says exactly when it matters.

- `proc/Queue.cpp:13-20` links a lone entry to itself; popped, it stays in `head`. The next push of
  another entry is lost (`Queues.ReadyExact`, `Queues.RunExact`, `Queues.SelfLink`). At system level
  two processes are enough (`KernelRuns.SelfLinkedRun`), and two different readers of the disk
  (`KernelRuns.ReaderStays`, `KernelRuns.SecondReader`), which `init/kmain.cpp:52-56` has.
- `proc/Scheduler.cpp:13-19` never initialises the owner field; an entry with junk in it is fatal
  (`SchedLaws.AddKeeps`).
- `proc/Scheduler.cpp:42` reads the state through a NULL `curProc`; this matters exactly when the
  word at address 0 equals EXITED (`SchedLaws.RescheduleEffect`).
- `proc/Scheduler.cpp:25` re-reads the length, so a call wakes half of the waiting processes
  (`SchedLaws.UnblockExact`), enough exactly for one (`SchedLaws.UnblockDrains`,
  `KernelRuns.LostWakeUp`); with two readers a key's wake-up is lost
  (`KernelRuns.LostWakeUpRun`).
- `mm/x86_64/Page.cpp:104-105` tests the level-1 entry of a lazily reserved block through NULL,
  that is, word 0 of memory (`VmLaws.AcceptsExact`); the first stack is such a case
  (`Paging.FirstStackRefused`), and so is the header of a large heap block
  (`VmSystem.FirstTouchExact`, `Kmalloc.FirstLargeHalts`). `HeapRuns.BlocksSafe` says which bytes
  of a live block can be touched.
- `mm/x86_64/Page.cpp:121` ignores a failed frame allocation and would map frame 0
  (`VmRuns.BackNeedsAFrame`).
- `mm/x86_64/Page.cpp:262-271` leaves the pages before the end of the slot reserved when a heap
  request crosses it (`VmSystem.HeapOverrun`).
- `lib/kmalloc.cpp:60-61` cuts the rounded length to 32 bits (`HeapSpec.AllocedExact`,
  `HeapSpec.PayloadFits`).
- `arch/x86_64/arch_init.cpp:53` forgets that an unaligned memory region was dropped
  (`Boot.InitMemRegions`), an empty memory map is read once past its end
  (`Multiboot.WalkExact`).
- `arch/x86_64/arch_init.cpp:24-49` never looks at the type of a memory map entry, although
  `lib/multiboot.h:7` names the one for RAM: a reserved range can be handed out
  (`Boot.ReservedIssued`), exactly when it contains the start of a usable frame (`Boot.RamExact`).
- `lib/multiboot.cpp:106` never advances over a tag of size 0 (`Multiboot.HangsExact`).
- `drivers/display/x86_64/VgaConsole.cpp:51-54` scrolls by one row for a newline that comes right
  after the last cell was written (`Vga.PrintShows`, `Vga.ScreenIsWindow`).

## Model

| member | source | states |
|---|---|---|
| Frames.FrameAllocator.AddMemRegion | mm/Frame.cpp:17-36 | a region is appended with its end rounded up and its cursor past frame 0; an unaligned start is refused with status 1 and changes nothing |
| Frames.FrameAllocator.AddMemExcludeRegion | mm/Frame.cpp:38-50 | an excluded range is appended rounded up; an unaligned start is dropped with status 1 |
| Frames.FrameAllocator.SkipExcluded | mm/Frame.cpp:74-85 | the inner loop moves one region's cursor to one frame past the end of every touching excluded range and touches nothing else |
| Frames.FrameAllocator.Alloc | mm/Frame.cpp:65-109 | hands out the first never issued frame of the first region that has one, else the last freed frame, else NULL; the free list in memory keeps spelling out the freed frames |
| Frames.FrameAllocator.AllocZeroed | mm/Frame.cpp:111-118 | the same frame as Alloc, with all of its 512 words zero and no other word of memory changed |
| Frames.FrameAllocator.Free | mm/Frame.cpp:120-129 | the frame becomes the last freed one and holds the link to the one before; an unaligned address is ignored; frame 0 would lose the list |
| Frames.SkipIsMax | mm/Frame.cpp:74-85 | the skipped cursor is the maximum of the old cursor and one frame past each touching excluded range, both directions |
| Frames.IssueWindow | mm/Frame.cpp:69-95 | a region issues the first frame of its window, if any, and keeps exactly the others |
| FrameLaws.FreshExact | mm/Frame.cpp:65-95 | a frame is issued before any is reused if and only if it lies in a region, past its first usable frame and past every touching excluded range |
| FrameLaws.FreshOnce | mm/Frame.cpp:65-95 | no frame is issued twice if and only if no two regions can issue the same frame |
| FrameLaws.FreshAvoidsExcluded | mm/Frame.cpp:74-85 | no issued frame overlaps an excluded range, and frame 0 is never issued |
| FrameLaws.RunConserves | mm/Frame.cpp:65-129 | over every run of allocations and releases the multiset of never issued, freed and held frames is constant, and never issued frames go out first and in order |
| Paging.OffsetsNest | mm/x86_64/Page.cpp:53-59 | the four table indices of an address are the nested quotients of its page number |
| Paging.OffsetsWrap | mm/x86_64/Page.cpp:53-59 | bits 48 to 63 of an address take no part in the walk |
| Paging.Page.WalkPageTable | mm/x86_64/Page.cpp:61-83 | the walk returns exactly the entries that exist for the page in the recorded tables, NULL below the first absent one |
| Paging.Page.WalkEntries | mm/x86_64/Page.cpp:61-83 | what the walked entries hold: present bits tell which tables exist, marks tell which blocks and pages are marked |
| Paging.Page.constructor | mm/x86_64/Page.cpp:289-310 | the three kernel slots are linked from a fresh root, and the whole invariant holds at the start |
| Paging.BootInv | mm/x86_64/Page.cpp:289-310 | every run of reservations, releases and accepted faults from the start keeps the system invariant |
| Paging.FirstStackRefused | mm/x86_64/Page.cpp:104-107 | an input on which that happens: the first stack after start-up, every page of it reserved and every first fault on it refused while word 0 of memory carries no mark |
| Paging.Page.AllocVirt4kChunk | mm/x86_64/Page.cpp:140-188 | the loop over memory refines the reservation function: status and the address space it leaves, with every table word accounted for; every page that stays mapped keeps its frame and all of the frame's words |
| Paging.Page.MarkAt | mm/x86_64/Page.cpp:166-184 | a spanned block without a table is marked whole, any other page gets its table and its own mark |
| Paging.Page.FreeVirt4kChunk | mm/x86_64/Page.cpp:190-229 | the loop over memory refines the release function, freed frames going onto the free list inside the frames themselves; every page that stays mapped keeps its frame and all of the frame's words |
| Paging.Page.ClearEntry | mm/x86_64/Page.cpp:208-215 | clearing a page's entry gives its frame, if any, back to the free list and changes no other page |
| Paging.Page.ExpandBlock | mm/x86_64/Page.cpp:109-119 | the table built for a lazily reserved block has 512 marked entries and changes no reservation or mapping of any page |
| Paging.Page.PfIrqHandler | mm/x86_64/Page.cpp:85-124 | for every 64-bit address the handler is fatal exactly when the page was present or the test of the walked entries fails, so always outside the slots of the stacks and the heap; otherwise the system takes one Touch step; every page that stays mapped keeps its frame and all of the frame's words |
| Paging.Page.Admits | mm/x86_64/Page.cpp:104-107 | the test as written: below a lazily reserved block it reads word 0 of memory through NULL |
| Paging.Page.AllocKernStackMem | mm/x86_64/Page.cpp:233-247 | one reservation step of 512 pages at the stack position; returns the top of the stack, or NULL with nothing changed when the slot is full |
| Paging.Page.FreeKernStackMem | mm/x86_64/Page.cpp:249-256 | releases exactly the live range below the given top |
| Paging.Page.AllocKernHeap | mm/x86_64/Page.cpp:262-275 | one reservation step at the heap position for whole pages, nothing for an unaligned size; returns the start or NULL |
| Paging.Page.FreeKernHeap | mm/x86_64/Page.cpp:281-287 | releases exactly the live heap range given |
| VmLaws.AllocEffect | mm/x86_64/Page.cpp:146-187 | reserving a range reserves its pages, unreserves the rest of each lazy block it cuts, leaves every mapping, and makes lazy exactly the whole blocks without a table |
| VmLaws.AllocExact | mm/x86_64/Page.cpp:140-188 | a reservation adds exactly its own pages if and only if it cuts no lazily reserved block |
| VmLaws.AllocFailure | mm/x86_64/Page.cpp:153-156 | a range that runs into a slot without a table fails there and keeps everything before it reserved |
| VmLaws.FreeEffect | mm/x86_64/Page.cpp:196-226 | releasing a range unreserves its pages and every lazy block it touches, unmaps exactly its pages and removes no table |
| VmLaws.FreeExact | mm/x86_64/Page.cpp:190-229 | a release removes exactly its own pages if and only if every lazy block it touches lies inside it, although the block is cleared at its first page |
| VmLaws.FreeReturns | mm/x86_64/Page.cpp:208-211 | a release appends exactly the frames behind its pages to the free list, in page order |
| VmLaws.AcceptsExact | mm/x86_64/Page.cpp:104-107 | the handler accepts exactly the reserved pages if and only if word 0 of memory looks marked or no block is lazily reserved |
| VmLaws.FaultEffect | mm/x86_64/Page.cpp:109-123 | an accepted fault changes no reservation, builds at most the one missing table and adds one mapping, for the faulting page |
| VmSteps.ExpandKeeps | mm/x86_64/Page.cpp:109-119 | memory after linking a fully marked table represents the expanded address space, with its frame accounted for |
| VmSteps.BackKeeps | mm/x86_64/Page.cpp:121-123 | memory after backing a page represents the new mapping, with its frame accounted for |
| VmSteps.ReleaseKeeps | mm/x86_64/Page.cpp:208-215 | memory after a page's frame became part of the free list and its entry was cleared still represents the address space |
| VmSteps.MarkBlockKeeps | mm/x86_64/Page.cpp:168-171 | memory after a level-2 mark is set or cleared represents the new set of marked blocks |
| VmRuns.OneRole | mm/x86_64/Page.cpp:109-123 | every managed frame is in exactly one of four roles: never issued, on the free list, a page table, or behind exactly one page |
| VmRuns.AllocFollows | mm/x86_64/Page.cpp:158-179 | a reservation keeps every frame in one role and the count of frames left and in use |
| VmRuns.FreeFollows | mm/x86_64/Page.cpp:208-215 | so does a release |
| VmRuns.FaultFollows | mm/x86_64/Page.cpp:109-123 | so does an accepted fault, and the frame it maps is not frame 0 |
| VmRuns.BackNeedsAFrame | mm/x86_64/Page.cpp:121-123 | backing a page leaves frames with a consistent assignment of roles if and only if a frame was left: the unchecked NULL would map frame 0 |
| VmRuns.RoundTrip | mm/x86_64/Page.cpp:140-229 | reserving an unreserved range, touching any of its pages in any order and releasing it restores every reservation and mapping; only tables stay behind |
| VmRuns.RoundTripFrames | mm/x86_64/Page.cpp:140-229 | that cycle returns to the free list exactly the frames faulted in, and costs only the new tables |
| VmSystem.TakeOrRefuse | mm/x86_64/Page.cpp:233-275 | a stack reservation, or a heap reservation that does not cross the slot's end, succeeds exactly when it fits, and a refused one changes nothing (for one that crosses the end see HeapOverrun); a successful one adds the range at the position to the live ones and moves the position to its end |
| VmSystem.HeapOverrun | mm/x86_64/Page.cpp:262-275 | a heap request that crosses the end of the slot keeps reservations and live ranges in step if and only if none of its pages was left in the slot |
| VmSystem.NextRefused | mm/x86_64/Page.cpp:104-107 | in every state of a run the page after the last heap range is absent, and a fault on it is never accepted |
| VmSystem.FirstTouchExact | mm/x86_64/Page.cpp:85-124 | the first page of a heap range just reserved is absent, and the first write to it is refused if and only if word 0 carries no mark and the range starts with a whole block without a table |
| VmSystem.WriteKeeps | mm/x86_64/Page.cpp:85-124 | reserving heap pages and writing to the first of them keeps the invariant and adds exactly that mapping |
| VmSystem.StepKeeps | mm/x86_64/Page.cpp:85-287 | every reservation, release of a live range and accepted fault keeps the system invariant: reserved pages are those of the live ranges, lazy blocks lie inside one live range, ranges are apart, frames have one role |
| VmSystem.RunKeeps | mm/x86_64/Page.cpp:85-287 | the same over whole runs |
| VmSystem.RunRoles | mm/x86_64/Page.cpp:85-287 | over every run the frames left, the tables and the mapped pages keep their sum, and every managed frame has exactly one of the four roles |
| Paging.BootTotal | mm/x86_64/Page.cpp:85-310 | from the start that sum and the root are all the frames there were |
| VmSystem.OneStack | mm/x86_64/Page.cpp:166-172 | a stack is one whole block: at most one new level-2 table, one mark, no level-1 table |
| VmSystem.StacksAreCheap | mm/x86_64/Page.cpp:231-247 | k successive stacks, k up to 2^18, all succeed, occupy k different blocks of one slot, add no level-1 table and take exactly ceil(k/512) frames |
| VmSystem.StackTops | mm/x86_64/Page.cpp:231-247 | in the running system the k-th of the first stacks ends k stacks past the start of the slot |
| HeapSpec.PoolFor | lib/kmalloc.cpp:34-39 | the pool chosen is the smallest whose blocks hold the size and a header |
| HeapSpec.AllocedExact | lib/kmalloc.cpp:60-61 | the rounded 32-bit length holds the request if and only if it does not wrap; the 4096 sizes that wrap to nothing, and less than a page more than asked for |
| HeapSpec.BlockInHome | lib/kmalloc.cpp:34-67 | every live block lies inside one live page range |
| HeapSpec.BlocksDisjoint | lib/kmalloc.cpp:34-83 | payload blocks of different live pointers never overlap |
| HeapSpec.PayloadFits | lib/kmalloc.cpp:60-66 | a payload with its header fits its block if and only if the request did not overflow |
| HeapSpec.BlockTouch | lib/kmalloc.cpp:34-67 | every byte of a live block is on a reserved page, the header's page is present, and touching a byte is accepted if and only if word 0 carries a mark or the byte's 2 MB block is not lazily reserved; a pool block never faults |
| HeapSpec.DropHomes | mm/x86_64/Page.cpp:190-229 | releasing one live range unmaps no other block's header |
| HeapSpec.PageBlocks | lib/kmalloc.cpp:43-48 | the blocks cut from a page are exactly its multiples of the block size |
| HeapSpec.CarveKeeps | lib/kmalloc.cpp:41-49 | carving a page into an empty pool keeps the heap invariant: live plus free blocks are pages times blocks per page, each block once |
| HeapSpec.TakeBlockKeeps | lib/kmalloc.cpp:51-54 | taking a pool's next free block keeps the invariant |
| HeapSpec.GiveBlockKeeps | lib/kmalloc.cpp:72-77 | returning a block to its pool keeps the invariant |
| HeapSpec.TakeRangeKeeps | lib/kmalloc.cpp:60-66 | a large block with its own page range keeps the invariant |
| HeapSpec.GiveRangeKeeps | lib/kmalloc.cpp:80-82 | dropping a large block keeps the invariant |
| Kmalloc.KmallocPools.CarvePage | lib/kmalloc.cpp:42-48 | the carving loop threads exactly the page's blocks, each once, into the pool's list; outside the page every word is as before and none is added |
| Kmalloc.KmallocPools.Kmalloc | lib/kmalloc.cpp:34-67 | the pointer and heap are those of the smallest fitting pool or of a fresh page range, whose first page the header write backs; it halts if and only if the length wraps to 0, or word 0 carries no mark and the header is the first write to a lazily reserved block: then the page-fault handler, which the method calls, refuses the header's page; a pointer it returns lies one header past a block that was not live and is now the one more live block |
| Kmalloc.MallocGives | lib/kmalloc.cpp:34-67 | the block in front of the returned pointer was not live, and becomes live in the smallest pool that fits, with nothing else changed |
| Kmalloc.FirstLargeHalts | lib/kmalloc.cpp:60-65 | an input on which the second case happens: a request of 2 MB less a header right after start-up, with word 0 unmarked |
| Kmalloc.KmallocPools.Kfree | lib/kmalloc.cpp:69-83 | a pool block goes back to its pool's list; a large block recomputes exactly the length that was reserved and releases that range; exactly the block in front of the pointer stops being live |
| HeapRuns.MallocKeeps | lib/kmalloc.cpp:34-67 | a request keeps the heap and system invariants together |
| HeapRuns.FreeKeeps | lib/kmalloc.cpp:69-83 | so does the release of a live pointer |
| HeapRuns.RunKeeps | lib/kmalloc.cpp:34-83 | over every run of kmalloc and kfree of live pointers, among stacks and page faults, both invariants hold |
| HeapRuns.BlocksSafe | lib/kmalloc.cpp:34-83 | in every reachable state every live block comes from the smallest fitting pool and has all its bytes on reserved pages; its payload fits if and only if the request did not overflow; a pool block never faults, and touching a byte of a large one is accepted if and only if word 0 carries a mark or the byte's 2 MB block is not lazily reserved |
| HeapRuns.BlocksApart | lib/kmalloc.cpp:34-83 | in every reachable state two live blocks never overlap |
| HeapRuns.MallocFree | lib/kmalloc.cpp:34-83 | in every reachable state a request gives a new live block, its pointer can be released, and releasing it at once restores the live blocks |
| HeapRuns.PoolsBalance | lib/kmalloc.cpp:34-83 | in every reachable state a pool's free plus live blocks are its pages times the blocks per page |
| Queues.Queue.Link | proc/Queue.cpp:4-21 | Push as written appends to the chain if and only if the empty queue's stale head is not another entry; a queued entry is refused |
| Queues.Queue.Push | proc/Queue.cpp:4-21 | a push leaves any other queue intact if and only if it was ready or the stale head does not wait there |
| Queues.Queue.PushGuarded | proc/Queue.cpp:13-20 | with the last three lines only for a non-empty queue, every push of a free entry appends, a queued entry is refused with nothing written, the queue never shows a stale head, and any other queue stays as it was |
| Queues.Queue.Pop | proc/Queue.cpp:23-38 | removes the first entry, clears its owner and link, keeps the chain, and leaves any other queue as it was |
| Queues.Queue.Join | proc/Queue.cpp:4-21 | either form of push onto a queue that is ready leaves a whole set of other queues and every other entry's owner as they were |
| Queues.Queue.Leave | proc/Queue.cpp:23-38 | so does a pop |
| Queues.Queue.Unlink | proc/Queue.cpp:23-38 | what one pop does to the queue's own chain, including the head a lone self-linked entry leaves behind |
| Queues.SoloExact | proc/Queue.cpp:13-20 | the only entry points at itself exactly when pushing it was the queue's last effect |
| Queues.LeftExact | proc/Queue.cpp:23-33 | an emptied queue still shows an entry exactly when that entry has just passed through it alone |
| Queues.ReadyExact | proc/Queue.cpp:4-38 | a push goes wrong if and only if another entry has just passed through the empty queue alone |
| Queues.RunExact | proc/Queue.cpp:4-38 | a whole run behaves as a FIFO queue if and only if none of its pushes does that; the contents are the FIFO contents |
| Queues.SelfLink | proc/Queue.cpp:4-42 | after Push A, Pop, Push B the queue's first entry is A, not B |
| SchedLaws.AddKeeps | proc/Scheduler.cpp:12-22 | a new process joins the end of the run queue and nothing else changes; fatal exactly with junk in the owner field, corrupt exactly behind another's stale head; the new process gets the next pid, which wraps at 2^32, and no other record changes |
| SchedLaws.BlockKeeps | proc/Scheduler.cpp:72-78 | the current process becomes BLOCKED at the end of the queue with its data; fatal exactly if it already is |
| SchedLaws.UnblockOneEffect | proc/Scheduler.cpp:25-38 | one turn of Unblock: the current process only becomes RUNNING, any other one moves to the run queue |
| SchedLaws.UnblockExact | proc/Scheduler.cpp:24-39 | Unblock frees exactly half of the entries left from its loop index on, rounded up, in FIFO order; each freed process is RUNABLE, or RUNNING as the current one, with its block data cleared |
| SchedLaws.UnblockDrains | proc/Scheduler.cpp:24-39 | a call empties the queue if and only if at most one entry waits |
| SchedLaws.RescheduleEffect | proc/Scheduler.cpp:41-68 | frees an exited process, runs the head of the run queue and puts a still runnable current process at its end; fatal exactly when a NULL curProc reads as EXITED; never corrupts the queue |
| SchedLaws.RescheduleNull | proc/Scheduler.cpp:47-53 | Reschedule returns NULL if and only if no process is RUNNING or RUNABLE |
| Drivers.Scheduler.Push | proc/Queue.cpp:4-21 | a push of an entry onto one of the four linked queues has the outcome Enqueue gives for the scheduler's view: fatal, ruined, or all four chains and all owner fields again show exactly that view |
| Drivers.Scheduler.Pop | proc/Queue.cpp:23-38 | a pop from one of the four linked queues leaves all four chains and all owner fields showing the view after Dequeue |
| Drivers.Scheduler.Add | proc/Scheduler.cpp:12-22 | the method refines Add, pid wrap-around included |
| Drivers.Scheduler.Unblock | proc/Scheduler.cpp:24-39 | the loop with its shrinking bound refines Unblock and leaves the second half of the queue |
| Drivers.Scheduler.Reschedule | proc/Scheduler.cpp:41-68 | the method refines Reschedule and returns the chosen process |
| Drivers.Scheduler.BlockCurProc | proc/Scheduler.cpp:72-78 | the method refines BlockCurProc |
| Drivers.Scheduler.SyscallYield | syscall/x86_64/syscall.cpp:14-25 | the process loaded is the new current one, the head of the run queue if there is one, and RUNNING; control goes to the parent exactly when no process can run |
| Drivers.Scheduler.SyscallExit | syscall/x86_64/syscall.cpp:27-38 | the exiting process is gone and nobody else; the process loaded is the new current one, the head of the run queue if there is one; control goes to the parent exactly when no other process can run |
| Drivers.Scheduler.SyscallRun | syscall/x86_64/syscall.cpp:40-50 | the parent's call loads the head of the run queue if there is one, and returns to the parent exactly when no process can run; fatal exactly when a NULL curProc reads as EXITED |
| AtaSpec.ReadBlockKeeps | drivers/block/x86_64/AtaDevice.cpp:117-129 | a call adds one open request at the end, commands the device only if it was idle, and keeps at most one command outstanding |
| AtaSpec.IrqFatal | drivers/block/x86_64/AtaDevice.cpp:87-89 | an interrupt is fatal exactly when no command is outstanding |
| AtaSpec.IrqKeeps | drivers/block/x86_64/AtaDevice.cpp:83-101 | an interrupt answers the oldest open request with its own block and starts the next one |
| AtaSpec.MovedKeeps | drivers/block/x86_64/AtaDevice.cpp:97-100 | moving the first waiting reader to the device keeps every process in one place and changes no data |
| Drivers.AtaDevice.ReadBlock | drivers/block/x86_64/AtaDevice.cpp:117-129 | the method refines ReadBlock |
| Drivers.AtaDevice.Irq | drivers/block/x86_64/AtaDevice.cpp:83-101 | the method refines the interrupt: stores the sector at the head's destination, wakes it, issues the next command |
| Rings.PutKeepsLast | drivers/char/x86_64/PS2.cpp:72-77 | for any ring size of at least 2, a byte leaves the last size - 1 unread bytes, the oldest dropped |
| Rings.GetTakesFirst | drivers/char/x86_64/PS2.cpp:134-143 | reading takes the first unread byte; the indices differ if and only if there is one |
| Rings.NothingLost | drivers/char/x86_64/PS2.cpp:72-143 | over every run the reader gets every byte once and in order if and only if no byte finds the ring full |
| Drivers.PS2.Receive | drivers/char/x86_64/PS2.cpp:72-77 | the in-place ring update refines the bounded sequence |
| Drivers.PS2.Irq | drivers/char/x86_64/PS2.cpp:72-82 | the ring update followed by Unblock of the keyboard queue |
| Drivers.PS2.Turn | drivers/char/x86_64/PS2.cpp:132-144 | one turn of GetChar's loop returns the first unread byte or blocks the caller and changes nothing else |
| KernelRuns.BootedInv | proc/Scheduler.cpp:7-10 | the system invariant holds at start-up |
| KernelRuns.StepKeeps | proc/Scheduler.cpp:12-78 | every system call, driver call and interrupt keeps the system invariant and is fatal only for junk in a new entry; afterwards the run queue, the line of disk readers and the keyboard's queue are exactly as before but for the processes the step concerns |
| KernelRuns.RunKeeps | proc/Scheduler.cpp:12-78 | the same over every interleaving |
| KernelRuns.OnePlace | proc/Scheduler.cpp:12-78 | in every reachable state each live process is in exactly one position of one queue, or in none and then RUNNING as the current one; its state and owner field agree with the place |
| KernelRuns.StillWaiting | proc/Scheduler.cpp:41-68 | a process waiting in the run queue moves up one place at every Reschedule and at nothing else |
| KernelRuns.BoundedWaiting | proc/Scheduler.cpp:41-68 | the process at place k gets the CPU at exactly the (k+1)-th following Reschedule |
| KernelRuns.ParentExact | syscall/x86_64/syscall.cpp:14-50 | the parent gets the CPU back exactly when no process is left that can run |
| KernelRuns.PidsKept | proc/Scheduler.cpp:12-22 | over every run in which the counter does not wrap, pids are below the next one, pairwise distinct, and kept by every step |
| KernelRuns.NthPid | proc/Scheduler.cpp:12-22 | from start-up the n-th process gets pid n, counted from 0 |
| KernelRuns.EveryReadAnswered | drivers/block/x86_64/AtaDevice.cpp:83-129 | from start-up, on every interleaving, the i-th disk interrupt answers the i-th call of ReadBlock, once, with that call's block to that call's buffer |
| KernelRuns.NoLostWakeUp | drivers/char/x86_64/PS2.cpp:123-144 | in every reachable state, as long as no process has waited for the keyboard beside another one, a waiting reader means an empty ring |
| KernelRuns.LostWakeUp | drivers/char/x86_64/PS2.cpp:72-82 | after a key interrupt a waiting reader and an unread byte are left together if and only if at least two readers waited |
| KernelRuns.LostWakeUpRun | drivers/char/x86_64/PS2.cpp:72-82 | a run from start-up to such a state: two processes wait for a key, and after one key the second still waits beside the unread byte, also with the queues linked as intended |
| KernelRuns.SelfLinkedRun | proc/Scheduler.cpp:12-68 | as written, a process spawned by a process that ran alone is pushed behind the other's stale head and lost |
| KernelRuns.ReaderStays | drivers/block/x86_64/AtaDevice.cpp:117-129 | as written, a block read from the idle disk leaves its reader as the stale head of the wait queue |
| KernelRuns.SecondReader | drivers/block/x86_64/AtaDevice.cpp:117-129 | from then on a read by any other process corrupts that queue |
| SnakeSearch.RandWidths | init/snakes.cpp:82-86 | the 64-bit arithmetic and the mask do not show in the 32 bits that rand keeps |
| SnakeSearch.RandLow | init/snakes.cpp:82-86 | the low three bits of the generator follow s -> 5s + 7 mod 8 |
| SnakeSearch.OneRound | init/snakes.cpp:82-86 | that map is one cycle of length 8: a round visits every direction once and ends where it began |
| SnakeSearch.DeadExact | init/snakes.cpp:281-293 | all directions are marked exactly after nine turns, or after eight if the snake's own direction ends the round |
| SnakeSearch.SearchExact | init/snakes.cpp:281-297 | the search ends within nine turns from any seed and board; it gives up if and only if all eight neighbours are blocked, else it stops at a free one |
| SnakeSpec.MoveExact | init/snakes.cpp:267-305 | the head stays if and only if it is surrounded, else it goes to a free neighbour; the first choice is taken whenever it is free; the rest of the body follows; nothing else on the board changes |
| SnakeSpec.MoveDraws | init/snakes.cpp:273-297 | a move draws no random number exactly when its first choice is free; each number gives the next direction, all but the last of them obstructed |
| SnakeSpec.MoveKeeps | init/snakes.cpp:267-376 | a move keeps every segment on the board, segments within Chebyshev distance 1, and the snakes apart |
| SnakeSpec.FoodStep | init/snakes.cpp:307-330 | the food direction brings the head one closer and no direction does better; on the food it is north |
| SnakeRuns.CoilAt | init/snakes.cpp:120-127 | segment k of a new snake lies k steps behind its head, or as far as the walls allow |
| SnakeRuns.ClampNearest | init/snakes.cpp:102-104 | limiting a point to the screen gives the nearest cell in both directions |
| SnakeRuns.GrownExact | init/snakes.cpp:95-133 | a new snake is whole wherever it is put, and the board stays in order if and only if none of its cells was taken |
| SnakeRuns.RemovedKeeps | init/snakes.cpp:135-153 | removing a snake keeps the board and the order of the other snakes |
| SnakeRuns.GameKeeps | init/snakes.cpp:174-239 | every interleaving of moves, meals, arrivals and departures keeps the board in order |
| SnakeRuns.LengthsKept | init/snakes.cpp:299-305 | over every interleaving of moves each snake keeps its length |
| SnakeRuns.ReachesFood | init/snakes.cpp:332-376 | an unhindered hungry snake has its head on the food after exactly as many moves as the food was away, whatever the others do meanwhile |
| SnakeRuns.SetupInv | init/snakes.cpp:448-454 | the seven snakes of the demonstration do not touch on the 25 by 80 screen |
| Snakes.Arena.Obstruct | init/snakes.cpp:247-265 | the walk over the list answers yes exactly for a point outside the rows and columns or in the body of a listed snake |
| Snakes.Arena.Search | init/snakes.cpp:273-297 | the loop with its array of dead ends refines the search: direction, seed and new head |
| Snakes.Arena.Shift | init/snakes.cpp:299-304 | the in-place loop slides the body under its new head |
| Snakes.Arena.MoveSnake | init/snakes.cpp:267-305 | one move refines MoveFrom with the snake's own direction |
| Snakes.Arena.MoveHungrySnake | init/snakes.cpp:332-376 | one move refines MoveFrom with the food's direction |
| Snakes.Arena.NewSnake | init/snakes.cpp:95-133 | the new snake is laid out and linked in front of the list |
| Snakes.Arena.FreeSnake | init/snakes.cpp:135-148 | the snake is unlinked wherever it is in the list and the others keep their order |
| Boot.MergedCovers | arch/x86_64/arch_init.cpp:24-76 | coalescing keeps every address of every entry and adds only the gaps it closes |
| Boot.MapCovered | arch/x86_64/arch_init.cpp:24-44 | the chunks of the memory map cover exactly its entries |
| Boot.ChunksApart | arch/x86_64/arch_init.cpp:33-67 | no chunk starts less than gap bytes past the one before it |
| Boot.NoneDropped | arch/x86_64/arch_init.cpp:59-82 | no chunk is dropped when the first entry is aligned and each later one is aligned or starts less than gap bytes past the one before it |
| Boot.BootExact | arch/x86_64/arch_init.cpp:21-82 | the frames handed out from start-up are exactly those of an aligned chunk, from its first usable frame, past every touching excluded chunk |
| Boot.FrameInMap | arch/x86_64/arch_init.cpp:24-49 | the first byte of every frame handed out belongs to an entry of the memory map |
| Boot.RamExact | arch/x86_64/arch_init.cpp:24-49 | no frame handed out starts in an entry that is not RAM if and only if no such entry contains the start of a usable frame of an aligned chunk, since the type is never looked at |
| Boot.FrameInRam | arch/x86_64/arch_init.cpp:24-49 | a frame handed out that starts in no such entry starts in a RAM entry |
| Boot.ReservedIssued | arch/x86_64/arch_init.cpp:24-49 | an input on which a reserved frame is handed out: the firmware's range below 4 GB |
| Boot.BootOnce | arch/x86_64/arch_init.cpp:21-82 | if the chunks do not overlap no frame is issued twice, not even one a chunk's end was rounded up to |
| Boot.KernelSafe | arch/x86_64/arch_init.cpp:51-82 | unless a section chunk was dropped for its alignment, no frame ever issued overlaps a byte of a section, and frame 0 is never issued |
| Boot.SectionsSafe | arch/x86_64/arch_init.cpp:51-92 | for such sections no warning is due and no frame issued overlaps a byte of any section but the null one |
| Boot.AddRegions | arch/x86_64/arch_init.cpp:26-49 | the loop registers exactly the aligned chunks of the memory map |
| Boot.AddExcludes | arch/x86_64/arch_init.cpp:59-82 | the loop registers exactly the aligned chunks of the sections and reports whether one was dropped |
| Boot.InitMemRegions | arch/x86_64/arch_init.cpp:21-92 | the allocator's tables after start-up, and exactly when a warning is printed |
| Multiboot.ParseMultiboot | lib/multiboot.cpp:63-115 | visits exactly the tags the header leads to and keeps what each of them adds; hangs if and only if the last tag visited has size 0; nothing for a wrong magic number |
| Multiboot.HangsExact | lib/multiboot.cpp:78-108 | parsing hangs if and only if some tag was visited and the last one has size 0; every earlier one has a size above 0 |
| Multiboot.VisitStream | lib/multiboot.cpp:78-112 | parsing a serialised tag list with 8-byte alignment, any padding bytes and an end tag visits every tag once, in order, and ends at the end tag |
| Multiboot.LastOfKind | lib/multiboot.cpp:85-104 | of several tags of one kind the fields of the last one are returned |
| Multiboot.ReadMap | lib/multiboot.cpp:51-61 | the loop over next_mb_mmap collects the entries the walk defines |
| Multiboot.WalkExact | lib/multiboot.cpp:51-61 | iterating next_mb_mmap over an encoded memory map, whatever its other bytes, enumerates exactly its entries, in order and with their types, if and only if there is one; an empty map gives the one entry past its end |
| Multiboot.SectionsExact | lib/multiboot.cpp:45-49 | get_mb_elf_section finds every encoded section header, whatever its other fields hold |
| Multiboot.MapSeen | lib/multiboot.cpp:63-115 | from bytes to entries: the kernel sees exactly the entries of the last memory map tag, whatever other tags, padding and fields there are |
| Multiboot.SectionsSeen | lib/multiboot.cpp:63-115 | from bytes to sections: the kernel sees exactly the sections of the last ELF tag, whatever other tags, padding and fields there are |
| Multiboot.MemInfoSeen | lib/multiboot.cpp:85-89 | the two sizes kept are those of the last basic memory information tag |
| Multiboot.ElfCounts | lib/multiboot.cpp:99-104 | of the number of sections and the size of a header 16 bits are kept |
| Multiboot.EntriesCover | arch/x86_64/arch_init.cpp:24-30 | the kernel's entries cover exactly the bytes the loader's do, type for type, if none of those runs past the last address |
| Multiboot.SectionCovers | arch/x86_64/arch_init.cpp:59-64 | a section lies from its header's address on for its size, as a 64-bit sum |
| Multiboot.Described | lib/multiboot.cpp:63-115 | from a header and the bytes behind it: parsing ends at the end tag, and what it keeps gives exactly the entries of the last memory map and the sections of the last ELF tag |
| Multiboot.ImageExists | lib/multiboot.cpp:63-115 | every list of tags made of bytes lies in some memory, so the two results above are about all such lists |
| Multiboot.InitMemRegions | arch/x86_64/arch_init.cpp:21-82 | init_mem_regions on what parsing kept fills the allocator's tables as Boot says and warns exactly when they say so |
| Startup.BootMemoryReady | arch/x86_64/arch_init.cpp:108-112 | the tables filled from the memory map and the sections leave memory as the page tables need it: distinct frames with memory behind them, none of them one of the kernel's three tables |
| Startup.SmallMachine | arch/x86_64/arch_init.cpp:108-112 | a machine that meets what start-up asks for: a megabyte of RAM with the kernel at its start |
| Startup.StartUp | arch/x86_64/arch_init.cpp:110-112 | init_mem_regions and the page tables one after the other end in a valid address space over exactly the frames of the boot information |
| Startup.BootFrom | arch/x86_64/arch_init.cpp:108-112 | from the header the loader passes to a valid address space over exactly the frames that the memory map and the sections in the loader's bytes leave |
| Startup.KernelNeverTouched | arch/x86_64/arch_init.cpp:51-112 | over every run from start-up no stack page, no heap page and no page table the kernel builds lies over a byte of any section but the null one |
| Stdlib.CopiedAt | lib/stdlib.cpp:18-24 | what a forward copy leaves at every place, when it reads back what it has written |
| Stdlib.CopyExact | lib/stdlib.cpp:18-24 | a forward copy is a move if and only if every element it reads back equals the one that was there |
| Stdlib.CopyMoves | lib/stdlib.cpp:18-24 | it is a move for every content when the destination precedes the source or the areas are apart |
| Stdlib.Memcpy | lib/stdlib.cpp:18-24 | the loop refines the forward copy, and the move where that holds |
| Stdlib.Memset | lib/stdlib.cpp:9-16 | exactly the given area holds the value afterwards |
| Vga.PrintShows | drivers/display/x86_64/VgaConsole.cpp:49-74 | printing a character keeps the screen a window on the log if and only if it is not a newline right after the last cell with something visible below the first row |
| Vga.ScreenIsWindow | drivers/display/x86_64/VgaConsole.cpp:49-85 | over every stream the screen is the last 25 rows of the log all along if and only if that never happens |
| Vga.VgaConsole.Scroll | drivers/display/x86_64/VgaConsole.cpp:22-38 | scrolls exactly when the position is past the screen, by one row, the last one blank |
| Vga.VgaConsole.PrintChar | drivers/display/x86_64/VgaConsole.cpp:49-74 | the in-place update refines Printed, all writes inside the buffer |
| Vga.VgaConsole.Clear | drivers/display/x86_64/VgaConsole.cpp:80-85 | blanks all 25 rows and goes to the first cell |
| Vga.VgaConsole.PrintAll | drivers/display/x86_64/VgaConsole.cpp:49-85 | a stream printed on a cleared screen refines PrintedAll |

## Left out

- Frames.FrameAllocator.AddMemRegion: the fixed arrays of 8 regions and 4 excluded ranges are sequences with that capacity as a precondition, because the code writes past them unchecked.
- Paging.Page.AllocVirt4kChunk: requires enough frames for the tables it adds; without them the code would build tables in frame 0, which holds the word that the page-fault test reads.
- Paging.Page.PfIrqHandler: a fault that it accepts requires a frame for the page, and a second one for a missing table, for the same reason; and the processor reports the present bit as the tables have it, set for every address of the identity map.
- Paging.Page.FreeKernHeap: requires a live range; releasing anything else is covered only by VmLaws.FreeEffect.
- Kmalloc.KmallocPools.Kmalloc: requires that the heap slot and the frames suffice, those for the header's page included, because the code uses a NULL page unchecked; after a halt there is no heap to speak of.
- Drivers.PS2.Turn: one turn of the waiting loop, since the loop yields to other processes between turns.
- Multiboot.ReadMap: requires an entry size above 0; with 0 the kernel's loop never ends.
- Boot.InitMemRegions: entries and sections end below the architecture's physical limit, so their ends do not wrap around.
- Snakes.Arena.FreeSnake: requires that the snake is in the list, without which the code follows a NULL pointer.
- Vga.VgaConsole.PrintChar: '\t' and '\b' are not modelled; their position can leave the buffer.
- Drivers.Scheduler.Push: a push behind another entry's stale head ends the run as Ruined; what the pointers then look like is only in Queues.Queue.Link and Queues.Queue.Push.
- Drivers.Scheduler.Add: an entry at an address used before is the same object again, with any links but no queue; what else kmalloc leaves in the memory is the flag junk.
- Startup.StartUp: requires memory behind every entry of the map and the three level-3 tables inside kernel sections; the memory of the boot information itself can be handed out, which nothing after start-up reads.
- Scheduler::Add from a process runs with interrupts enabled; it is modelled as one step.
- The level-3 tables of the three slots are given at boot; InitIdentityMap's contents are not modelled.
- Permission, write-through and no-execute bits, the TLB, cr3 and the interrupt flag inside Page.
- Process contexts: saving and loading registers is opaque.
- Kernel stacks are never released by the exit path, and entries of exited processes are not tied to kmalloc's heap.
- The ATA register encoding (a command is its block number), port I/O and the 256-word transfer loop (a sector is one value).
- The keyboard's scancode table and shift state.
- place_food's random loop (any free cell can become the food), drawing, colours and delays of the snakes.
- printk, the serial console, GDT, TSS and PIC set-up, and the assembly parts.
