# Verification of the kernel's memory, process and archive code

This project models three parts of a small x86-64 kernel in Dafny and proves properties of
them. `dafny verify dfyconfig.toml` checks all of it.

**Virtual memory.** The source never holds the physical address of a page table. It
computes a virtual address whose walk goes through entry 510 of the top-level table and
lands on the table. The model has physical memory as bytes, the processor's four-level walk
as a function over them, and the class `Paging.Mmu`, whose methods are the C functions and
whose every access to a table is such a walk. A ghost value, `VirtualMemory.Vm`, says which
tables and pages there are; `Hardware.Coupled` says that memory is a picture of it. Each
method is proved to leave a picture of what an abstract operation (`MapPage`, `MapCow`,
`Split`, `Unmap`, `AddSpace`, `CopyAreas`, `Access`, `ReleaseAreas`) makes of the old value.
`Runs` makes these operations the steps of a state machine of processes that fork, start
programs, load, store, fault, map, unmap, exit and are switched between, and of stores to the
part that all spaces share, where stacks lie; isolation, reference counts and conservation are
theorems about all its runs. So is that the memory of a process is a function of what it does
itself (`Recall.RunDetermined`), starting from the bytes its fork or exec gave it (`Births`).
`Machine.MemoryManager` puts the methods together into one object with physical memory, area
lists and process table; `Execution.Run` proves that it performs every run of the state machine
exactly, and so that the theorems are about the bytes that user loads find in memory.
The only stores that are no steps are those into page tables (`Protection.StoreIsEvent`).

**Processes.** `Kernel.ProcessTable` has the process table, the ring buffer and the system
calls as the source has them. `Processes`, `Scheduling` and `Lifecycle` are the state machine
they refine: the ring is a sequence, the recursion of the scheduler a function with a
measure. `Reaping` says exactly which children are never heard of. Exec does not replace its
caller but leaves it behind as a stub that waits for its image to end; `ExecProtocol` and
`ForkExec` prove what the parent sees of this under any scheduling, and `ExecReturns` that it
does see it, in a bounded number of turns.

**Archive and inodes.** `Tokeniser`, `Archive` and `Inodes` take a ustar image (POSIX.1-2017,
pax utility, "ustar Interchange Format") to a tree of inodes that is searched by path.

## Files

| files | part |
|---|---|
| Wrappers, Integers, Addressing, Memory | option type; integers of C; shift chains and canonical addresses; words in bytes |
| FrameAllocator, AllocatorRuns | sys/phy_mem_manager.c, and its runs |
| VirtualMemory, Spaces | the abstract memory and its operations |
| Hardware, Coupling, Paging, TaskMemory, Refinement | the walk, the picture, and the code of sys/paging.c, sys/task_manager.c, sys/yomama.c |
| VmaLists | the linked lists of sys/virt_mem.c |
| Counting, Isolation, Exactness, Conservation | what each abstract operation keeps |
| Runs, TidyRuns, ForkExit, Booting | whole runs, and the states they start from |
| Bounds | what the addresses and lengths of requests come to, in numbers |
| Recall, Births, Observed | the memory of a process as a function of its own steps, and the bytes it is born with; the theorems about runs read off physical memory |
| Agreement, Loader, Machine, Execution | the code through whole runs: the methods put together, in step with the state machine |
| Protection | which user accesses the page tables grant, and which of them are isolated |
| Departures, FirstRuns | where the code differs from what its callers expect, and exactly when; runs from boot that get there |
| Leftovers | which bytes of a page come from the one that had its frame before, exactly, and a run from boot that reads one |
| Processes, Scheduling, Lifecycle, Reaping, ExecProtocol, ExecReturns, ForkExec, Kernel | sys/syscall.c and the scheduler |
| Waits | exactly when `wait` blocks and which child ends it; exactly when a stub dies |
| Losses, ExecRun | runs from boot that lose children; a run from boot in which fork, exec, exit and wait come to their end |
| Tokeniser, Archive, Inodes | sys/Utils/kstring.c, sys/tarfs.c, sys/vfs.c |

## Where the code differs from its comments or its evident intent

The model follows the code in each case.

- A fork makes the child's entries read-only and leaves the parent's writable, so a store by
  the parent is seen by descendants that have not written the page: `Isolation.StoreVisible`
  says exactly by whom. Against children, siblings and strangers isolation holds, at the
  addresses a process has to itself, for the bytes it had, stored, or got at its fork or exec,
  and for the first 519 bytes of a page it maps later; not for the others of such a page, see
  below, and not for the part that all spaces share.
- Every entry that map_phyaddr, set_Cow and mappageTable write is a user entry, also those of
  page tables and of kernel pages; only the boot code writes supervisor entries, for the pages
  of the kernel image and for entry 510. The walk grants user stores through entries 510 and
  511, and these are not isolated: `Protection.ConfinedIff`, with inputs in
  `Protection.OwnTableGranted`, `Protection.AliasBreaks` and `FirstRuns.AliasHappens`. Those
  through entry 511 that hit no page table, such as a push to a stack, can be seen by every
  process but leave every process's own part alone: `Protection.StoreIsEvent`, `Runs.StepIsolated`.
- The clearing loops step by bytes with eight-byte stores: they clear 519 bytes, not a page,
  and do so for a page that was mapped already. So what a process finds in a page it touches
  first does not depend on what others stored in its frame exactly at the offsets below 519:
  `Leftovers.FreshByteIff`; `Leftovers.LeftoverHappens` is a run from boot in which a process
  reads a byte that its child stored in a page of the child's own.
- A name of 100 characters is read on into the fields after it: `Archive.Walk`.
- The loop variable of unmap_phyaddr_range is an int: `Paging.Mmu.UnmapPhyaddrRange`.
- The end of an area is inclusive where faults are checked and exclusive, when aligned, where
  pages are unmapped: `Departures.LeakIff`, `FirstRuns.LeakHappens`.
- k_munmap looks for one byte more than a mapping has, so unmapping a mapping by its own
  length stops the machine: `Departures.MunmapOwnIff`.
- A split drops a count without freeing at zero: `Departures.OrphanIff`,
  `FirstRuns.OrphanHappens`.
- Block 0 is never put on the free list and the counter is one less than its length:
  `FrameAllocator.PhysicalMemoryManager.FreeList`.
- Fork tests the ring for room, which it always has, and not the table for a free slot, which
  it may not have: `Lifecycle.QueueHasRoom`, `Lifecycle.StepIff`.
- A process has one field for the news of its children, and takes a status other than 0 for
  no news: not every exited child is heard of. `Reaping.ExitLosesIff` and `Reaping.HeardIff`
  say exactly which are lost, `Reaping.FailureNotReturned` that no wait ever returns a child
  that failed; runs from boot that lose children are in `Losses`.
- Process ids and exit statuses pass through a C int: `Processes.IntPidIff`, and a status
  counts as 0 when its low 32 bits are.
- A directory entry is found by the first name that begins with the token:
  `Inodes.ExactFoundIff`, `Inodes.PrefixNotAdded`, `Inodes.PrefixHappens`. Which members can
  be found in the end is `Inodes.MembersServed`.
- When a directory is full, insertion goes on from it with the rest of the path:
  `Inodes.InsertResolvesIff`, and so makes inodes in directories they do not belong to:
  `Inodes.StrayChild`.

## Reading the contracts

`None` or `false` from an operation that takes a frame means that the allocator has run out;
the source loops for ever then. The number of frames, of process slots and of address spaces
is a parameter everywhere. An address space is named by the process id of its owner, and the
part that all spaces share by 0. `Tidy` states have areas that share no page and do not end on
a page boundary; `Inv` states need neither.

## Model

| member | source | states |
|---|---|---|
| Runs.RunIsolated | sys/task_manager.c:310-346 | over every run of fork, exec, load, store, map, unmap, exit and switch, and of kernel pages touched first and stored to through entry 511, what a process sees at its own addresses is unchanged as long as it does nothing itself and no ancestor of it stores; of the stores the hardware grants only those into page tables are no steps (Protection.StoreIsEvent), and for them it is false (Protection.AliasBreaks) |
| Runs.RunReadsSame | sys/task_manager.c:335-338 | the same for a single byte: a read repeated after such a run gives the same answer; for the bytes of pages mapped meanwhile, Recall.RunDetermined |
| Runs.StepIsolated | sys/task_manager.c:310-409 | one step of a process changes no entry, frame or byte seen at its own addresses by a live process that is not one of its descendants; no first touch of a kernel page and no store to one that is no table changes any of anybody's |
| Runs.StepInv | sys/syscall.c:50-115 | well-formed tables, counts that cover all entries, frames that flow only from an owner to its descendants, and kernel aliases that show the right top-level tables, and no others, are kept by every step; all stores the hardware grants are steps but those into page tables (Protection.StoreIsEvent) |
| Runs.RunInv | sys/syscall.c:50-115 | the invariant holds in every state reached by such steps |
| Runs.ReachableCounts | sys/phy_mem_manager.c:88-148 | in every state reached by such steps a mapped frame is in the pool, not on the free list, and counted at least as often as it is mapped |
| Protection.ConfinedIff | sys/task_manager.c:151-153 | of every address at which the walk grants a user store: the frame written is no table and only the storing process and its descendants show it, if and only if the address goes neither through entry 510 nor through entry 511 |
| Protection.StoreIsEvent | sys/yomama.c:70-148 | of every store the walk grants the running process, at every address: it is a step of the runs exactly when the frame it hits is no page table |
| Protection.KernelStoreSeen | sys/task_manager.c:86-89 | a store through entry 511 that is a step is granted by the walk, and the one byte it changes in physical memory makes it show what the step says |
| Protection.OwnTableGranted | sys/task_manager.c:153 | a user store to the computed address of the top-level table is granted, and lands in that table |
| Protection.AliasGranted | sys/paging.c:324-330 | under the invariant, a user store by any process to the kernel page of a slot is granted, and lands in the top-level table of the last owner of the slot |
| Protection.AliasBreaks | sys/paging.c:324-330 | one zero byte stored there makes the owner's walk find nothing below the entry written |
| FirstRuns.AliasHappens | sys/task_manager.c:127-161 | from boot: after its first fork the first process is exposed in this way to its child, in the memory that shows that state |
| Execution.Run | sys/syscall.c:50-115 | starting from any state the kernel shows, every run of the state machine, of any length and with any interleaving of processes, is performed by the methods of Machine.MemoryManager one after the other, which end in the state the run ends in |
| Execution.Perform | sys/yomama.c:70-148 | one event of any kind: the methods go on exactly when the state machine does, and are then in its next state |
| Execution.RunSpares | sys/task_manager.c:310-346 | on physical memory: after any run of the code in which a process does nothing and no ancestor of it stores, what a load of that process finds through the walk is what it found before |
| Execution.RunKeeps | sys/task_manager.c:310-409 | and after any run in which it does not unmap the page, it finds the last byte it stored |
| Execution.Start | sys/task_manager.c:626-686 | the object that shows the first state exists, over any memory that shows that state |
| Machine.MemoryManager.Load | sys/yomama.c:110-136 | the load goes through exactly when the state machine's does, gives the byte the process reads there, and leaves memory, lists and table in step |
| Machine.MemoryManager.Store | sys/yomama.c:110-136 | the same for a store |
| Machine.MemoryManager.Mmap | sys/syscall.c:50-90 | in step; in numbers: the start is the old heap top, the new area is the last one and goes from there to start + length - 1, and the heap top is then start + (length + 4095) / 4096 * 4096 |
| Machine.MemoryManager.Munmap | sys/syscall.c:93-115 | goes through exactly when an area covers both ends, and all is in step |
| Machine.MemoryManager.Exit | sys/syscall.c:322-350 | all areas released, the entry without a table: in step |
| Machine.MemoryManager.Switch | sys/syscall.c:233-238 | the table of the process in the slot is in use: in step |
| Machine.MemoryManager.Touch | sys/yomama.c:95-108 | a page of the kernel's own is there for all spaces: in step |
| Machine.MemoryManager.StoreShared | sys/task_manager.c:86-89 | one byte written through entry 511: in step |
| Machine.MemoryManager.AddressSpace | sys/task_manager.c:127-161 | a top-level table for a slot, its last owner's forgotten: goes through exactly when the state machine's new space does, and shows it but for the bytes of tables |
| Machine.MemoryManager.Fork | sys/syscall.c:838-873 | new table, areas copied page by page, table switched: goes through exactly when the fork of the state machine does, and is in step |
| Machine.MemoryManager.Exec | sys/syscall.c:604-624 | new table, switched to, pages loaded through their own addresses, areas appended: the same |
| Loader.LoadPages | sys/tarfs.c:119-136 | a fault maps each page of an image and its bytes are written one by one; stops exactly when the abstract loading does, else memory shows it |
| Agreement.AccessAgree | sys/yomama.c:110-136 | two memories that differ only in frames that are neither free nor shown by anything but the aliases of tables go through the same faults, and still differ only there |
| Agreement.CopyAgree | sys/task_manager.c:310-346 | and through the same copies of areas at a fork |
| Agreement.ReleaseAgree | sys/syscall.c:340-350 | and releases |
| Agreement.AddSpaceAgree | sys/task_manager.c:127-161 | and new spaces, whatever their tables are filled with |
| Agreement.ForgottenAgree | sys/task_manager.c:127-131 | and still do when the tables of a dead process become plain memory |
| Recall.RunDetermined | sys/yomama.c:110-136 | over every run: whether a page of a process is mapped, and its bytes, are a function of how it was at the start and of the process's own loads, stores, mappings and unmappings, whatever all others do but stores of its ancestors; the one thing not determined is a byte from offset 519 on of a page it touched first |
| Recall.SameReads | sys/task_manager.c:310-409 | noninterference: in two runs in which a process does the same it reads the same at every address whose byte is its own, whatever the others did and stored |
| Births.ForkBirth | sys/task_manager.c:310-346 | the child of a fork starts with the byte of its parent at every address an area of the parent reaches, and with no page elsewhere |
| Births.ExecBirth | sys/syscall.c:604-778 | the process of an exec starts with the bytes of its image, and with no page elsewhere |
| Recall.RunRecalls | sys/task_manager.c:310-409 | a process reads at an address the last byte it stored there, through all its own loads, stores, faults, forks, execs, mappings and unmappings of other pages, and through everything others do, as long as no ancestor of it stores |
| Recall.AccessReads | sys/yomama.c:110-136 | a fault of its own leaves every byte a process could read |
| Observed.RunLoadsSame | sys/task_manager.c:310-346 | read off physical memory through the walk: what a user load at an own address finds is the same before and after every run of others, for any memories that show the two states; for those the code leads to, Execution.RunSpares |
| Observed.RunLoadsStored | sys/task_manager.c:310-409 | and through its own steps it finds the last byte stored; for the memories the code leads to, Execution.RunKeeps |
| ForkExit.ForkExitConserves | sys/syscall.c:340-350 | fork, then anything the child does in its own memory, then its exit: every entry and every count of the parent's data is as before, and as a set the free list has lost only page tables |
| TidyRuns.TidyRunExact | sys/task_manager.c:290-346 | while areas share no page and end inside one, every count in every reachable state equals the number of entries |
| TidyRuns.StepTidy | sys/task_manager.c:290-409 | each single step keeps that exactness |
| Isolation.StoreVisible | sys/task_manager.c:335-338 | exactly who sees a store: those whose entry for the page shows the same frame, and they are the storing process and its descendants |
| Isolation.CopyAreasIsolated | sys/task_manager.c:310-346 | copying areas at a fork touches nobody's entries but the child's, and leaves at most one writable entry per frame, held by an ancestor of the others |
| Isolation.AccessIsolated | sys/yomama.c:110-136 | a fault handled for one process touches nobody else's entries, frames or bytes |
| Isolation.ReleaseIsolated | sys/syscall.c:340-350 | releasing the areas of a process disturbs no other process |
| Exactness.CopyAreasFidelity | sys/task_manager.c:310-346 | after a fork, each page that a parent area reaches is in the child the parent's frame, read-only, or nothing, and the parent's entries are unchanged |
| Exactness.CopyAreasExact | sys/task_manager.c:290-346 | a fork keeps counts exact when no page belongs to two areas |
| Exactness.ReleaseExact | sys/paging.c:450-470 | release removes exactly the pages from the start of an area to its rounded end, and keeps counts exact |
| Exactness.SplitExact | sys/task_manager.c:380-394 | a split moves exactly one count from the shared frame to the new one |
| Exactness.UnmapExact | sys/paging.c:434-447 | unmapping keeps counts exact |
| Refinement.MapSeen | sys/paging.c:210-339 | seen through the hardware walk: the page asked for is present in the frame it had, or writable in one that was free; no other translation changes, in any space, so new tables show nothing stale |
| Refinement.CowSeen | sys/paging.c:20-131 | the page asked for shows the given frame read-only; no other translation changes, in any space |
| Refinement.UnmapSeen | sys/paging.c:342-448 | the page asked for is gone; no other translation changes, in any space |
| Refinement.ForkSeen | sys/task_manager.c:310-346 | at every user address the child's walk finds the parent's frame read-only where an area of the parent reaches a mapped page, and nothing elsewhere; the parent's walk finds what it found before |
| Counting.CopyAreasCounted | sys/task_manager.c:290-346 | even with areas that share pages, no count falls below the number of entries at a fork |
| Counting.AccessCounted | sys/yomama.c:110-136 | the same for a fault |
| Conservation.CopyAreasLost | sys/task_manager.c:310-346 | a fork makes no frame unreachable and revives none |
| Conservation.ReleaseLost | sys/syscall.c:340-350 | with exact counts, a release makes no frame unreachable |
| Conservation.SplitLost | sys/task_manager.c:380-394 | nor does a split of a frame that somebody else shows as well |
| Spaces.AccessPermits | sys/yomama.c:110-136 | if the handler returns, the access that faulted is permitted: one fault is enough |
| Spaces.AccessFailsIff | sys/yomama.c:110-140 | exactly when the handler stops the machine: the access is not permitted, and every area starts behind the address or ends before it, or fewer than six frames are free when the page, or a missing table above it, takes its frame |
| Bounds.LoadStopsIff | sys/virt_mem.c:195-207 | in every state of the runs: a load of the running process stops the machine exactly when its page is not mapped, and every area starts behind the address or ends before it, or the frames do not suffice |
| Bounds.StoreStopsIff | sys/virt_mem.c:195-207 | the same for a store, whose page may also be mapped but read-only |
| Bounds.PastEndStops | sys/yomama.c:110-140 | over runs: mmap(n), then any events but another mapping of the process; a first load or store in a page, at or behind byte n of the mapping and outside the older areas, stops the machine |
| Bounds.MappedServes | sys/yomama.c:110-140 | and at the n bytes of the mapping it goes through exactly when the page is there or the frames suffice |
| Bounds.MmapIs | sys/syscall.c:66-75 | the whole next state of an mmap(n): the area from the heap top, a multiple of 4096, to its n-th byte, and a heap top that is a multiple of 4096 with start + n <= top < start + n + 4096 |
| Bounds.NextMapping | sys/syscall.c:66-75 | over runs: of two mappings by one process with none of its own between, whatever else happens, the second starts at start1 + (n + 4095) / 4096 * 4096 |
| Bounds.MunmapIs | sys/virt_mem.c:147-193 | munmap(a, n) stops the machine exactly when no area has start <= a and a + n <= end; otherwise the first that has goes, and just the pages from start / 4096 up to (end + 4095) / 4096 |
| Bounds.ForkIs | sys/task_manager.c:310-346 | the child of a fork has areas and heap top of its parent, and its parent's byte exactly at the addresses whose page an area reaches into |
| Bounds.ExecIs | sys/syscall.c:604-624 | the process of an exec has the areas and the heap top of its program and runs |
| Bounds.ExitIs | sys/syscall.c:340-350 | an exit leaves no area, and of the process's pages just those that no area has between start / 4096 and (end + 4095) / 4096 |
| VirtualMemory.PathIff | sys/paging.c:226-306 | the tables above a page can be made exactly when each missing one finds six frames free in its turn; each takes one |
| VirtualMemory.MapPageIff | sys/paging.c:210-339 | a page can be mapped exactly when one more frame than the missing tables take leaves five free, or it is there already |
| Departures.LeakIff | sys/paging.c:453-456 | the release of disjoint areas skips a page of an area exactly when the area ends at the first byte of that page |
| Departures.LeftBehindIff | sys/paging.c:450-470 | what is still mapped after a process has released its areas: exactly those pages |
| Departures.MunmapOwnIff | sys/syscall.c:66-75 | a mapping of some length is found again by k_munmap exactly for smaller lengths, never for its own |
| Departures.MmapKeepsHeap | sys/syscall.c:66-75 | heap areas stay pairwise page-disjoint and below the heap top for mappings of every length |
| Departures.MunmapKeepsHeap | sys/syscall.c:103-107 | and after every removal |
| Departures.OrphanIff | sys/task_manager.c:380-386 | a split leaves the old frame neither free nor mapped exactly when no other page showed it |
| FirstRuns.FirstGoes | sys/task_manager.c:626-686 | with 24 free frames every boot reaches the state with a first process that has one page: the runs below start |
| FirstRuns.OrphanHappens | sys/task_manager.c:380-386 | from there: fork, exit of the parent, a store by the child, and the old frame is neither free nor of use to anybody |
| Leftovers.FreshByteIff | sys/paging.c:333-336 | in every state of every run, of a load that maps its page: it gives 0 for every content of the free frames, that is whatever anybody stored in them before, if and only if its offset in the page is below 519 |
| Leftovers.Reused | sys/paging.c:436-443 | when the last holder of a frame unmaps it, the next page that is mapped anywhere, its tables being there, shows that frame with all its bytes but the first 519 |
| Leftovers.LeftoverHappens | sys/paging.c:333-336 | from boot: fork; in the child a mapping of 2000 bytes, a store 1000 bytes into its page, an exit; in the parent the same mapping and a load there, which gives the child's byte |
| FirstRuns.LeakHappens | sys/paging.c:453-456 | from boot: a mapping of one byte, a store to it, an exit, and the page is still mapped |
| Booting.BareInv | sys/phy_mem_manager.c:41-86 | memory as boot leaves it satisfies the invariant |
| Booting.FirstInv | sys/task_manager.c:626-686 | and so does the state with the first process |
| Booting.FirstTidy | sys/task_manager.c:626-686 | it is tidy as well when the image is: the theorems about tidy runs hold from boot |
| Booting.BootRuns | sys/task_manager.c:626-686 | with ten free frames the first process does start |
| Booting.BootCoupled | sys/task_manager.c:127-161 | a memory built of zero frames and two words shows a kernel table and the top-level table of a process |
| Coupling.PictureCoupled | sys/paging.c:210-339 | every well-formed abstract memory is shown by a physical memory, so the theorems about walks are about every reachable state |
| Addressing.IndexChains | sys/paging.c:22-25 | the four shift chains extract the four index fields of the hardware, for all 64-bit addresses |
| Addressing.ChainValue | sys/paging.c:246-249 | the rebuilt base depends only on the indices put in, whatever it was before |
| Addressing.ChainIndices | sys/paging.c:275-278 | a computed base is canonical and has exactly the indices put in, at every word offset |
| Addressing.PrivateIff | sys/task_manager.c:150-153 | the addresses a process has to itself, as two ranges, are exactly the canonical ones that go neither through entry 510 nor through entry 511 |
| Hardware.ReachTable | sys/paging.c:246-339 | recursive-slot theorem: with entry 510 pointing at the top-level table, the computed address of each of the four levels is translated to exactly that table of the page |
| Hardware.SelfWalk | sys/task_manager.c:153 | a walk that starts at entry 510 never gets to a page: whatever the other indices are, if it succeeds it ends on a table, which user mode may write |
| Hardware.WalkIsLookup | sys/paging.c:210-339 | for every address outside entry 510 the four-level hardware walk is a lookup in the abstract page map |
| Coupling.LinkCoupled | sys/paging.c:236-244 | one written word adds one empty table to the picture |
| Coupling.FilledCoupled | sys/paging.c:253-259 | 512 zero words make the new table one without entries: nothing stale shows |
| Coupling.SetPageCoupled | sys/paging.c:324-331 | one written word changes one page entry and nothing else |
| Coupling.ClearPageCoupled | sys/paging.c:447 | a zero word removes one page entry and nothing else |
| Memory.ZeroStoreStep | sys/paging.c:333-336 | eight-byte stores at every byte offset extend the cleared prefix one byte at a time |
| Memory.LoadStore | sys/paging.c:333-336 | a little-endian store of a word is read back |
| FrameAllocator.PhysicalMemoryManager.FreeList | sys/phy_mem_manager.c:41-86 | the list holds blocks 1 to n-1 of n usable pages, the counter is one less than its length, and the allocator is valid exactly with two usable pages |
| FrameAllocator.PhysicalMemoryManager.GetPage | sys/phy_mem_manager.c:88-111 | the first block of the list is counted and returned, its address is that of the block; stopped exactly when fewer than six are free |
| FrameAllocator.PhysicalMemoryManager.FreePage | sys/phy_mem_manager.c:136-148 | a block in use becomes the first of the list; list and counter stay threaded |
| FrameAllocator.PhysicalMemoryManager.GetReferenceCount | sys/phy_mem_manager.c:113-117 | the count of the block of an address |
| FrameAllocator.PhysicalMemoryManager.IncrementReferenceCount | sys/phy_mem_manager.c:119-123 | one count goes up, nothing else changes |
| FrameAllocator.PhysicalMemoryManager.DecrementReferenceCount | sys/phy_mem_manager.c:125-134 | one count goes down unless it is below 1 already |
| FrameAllocator.TakeGive | sys/phy_mem_manager.c:88-148 | a block handed out is not free, and giving it back restores list and count |
| FrameAllocator.BlockOfAddress | sys/phy_mem_manager.c:113-115 | address to block inverts block to address for all low 12 flag bits |
| AllocatorRuns.StepAccounts | sys/phy_mem_manager.c:88-148 | what is handed out was not out; free and handed-out blocks stay a partition |
| AllocatorRuns.RunAccounts | sys/phy_mem_manager.c:88-148 | over all interleavings no block is lost, doubled or both free and in use |
| VirtualMemory.MapPageEffect | sys/paging.c:210-339 | mapping an absent page adds exactly that entry, with a frame that was free, and moves no other entry, count or byte |
| VirtualMemory.MapPagePresent | sys/paging.c:318-336 | mapping a present page keeps entry and frame and clears its first 519 bytes |
| VirtualMemory.MapCowEffect | sys/paging.c:20-131 | set_Cow changes exactly one entry, to the given frame, read-only |
| VirtualMemory.SplitEffect | sys/task_manager.c:349-409 | a split gives the page a free frame with the same bytes, writable, one count less on the old frame |
| VirtualMemory.UnmapEffect | sys/paging.c:434-447 | unmapping removes exactly one entry; the frame is freed exactly with its last count, to the front of the list, and keeps all its bytes but the first 519 |
| VirtualMemory.UnmapCounted | sys/paging.c:434-447 | and never leaves a count below the number of entries |
| VirtualMemory.UnmapWellFormed | sys/paging.c:434-447 | and never frees a frame that is still mapped |
| VirtualMemory.SplitCounted | sys/task_manager.c:380-394 | a split never leaves a count below the number of entries |
| Paging.Mmu.EnsureEntry | sys/paging.c:231-259 | one level of the descent: present, or a new empty table, or out of memory, each as the abstract operation says |
| Paging.Mmu.Descend | sys/paging.c:226-306 | the three levels above a page table, through entry 510 only |
| Paging.Mmu.MapPhyaddr | sys/paging.c:210-339 | physical memory afterwards shows exactly the abstract mapping of one page |
| Paging.Mmu.ClearPage | sys/paging.c:333-336 | the loop clears the first 519 bytes of the page and nothing else |
| Paging.Mmu.SetCow | sys/paging.c:20-131 | memory afterwards shows the abstract read-only entry |
| Paging.Mmu.Lookup | sys/task_manager.c:223-275 | finds the page table of an address exactly when it exists |
| Paging.Mmu.GetPhysAddr | sys/task_manager.c:216-288 | the entry word of the page, 0 exactly when it is not mapped |
| Paging.Mmu.CheckCow | sys/task_manager.c:177-213 | true exactly when the present page is read-only |
| Paging.Mmu.SavePage | sys/task_manager.c:355-356 | the buffer holds the bytes of the page |
| Paging.Mmu.RestorePage | sys/task_manager.c:399-400 | the page holds the bytes of the buffer |
| Paging.Mmu.Cow | sys/task_manager.c:349-409 | memory afterwards shows exactly the abstract split |
| Paging.Mmu.UnmapPhyaddr | sys/paging.c:342-448 | memory afterwards shows exactly the abstract unmapping |
| Paging.Mmu.UnmapPhyaddrRange | sys/paging.c:450-470 | whole pages from the one holding the start to the one holding the rounded end, with the start cut to an int as the loop variable cuts it; nothing when that int is below zero |
| TaskMemory.GrantsIsPermitted | sys/yomama.c:110-120 | what user mode may do at every address: at its own what the page map permits, through entry 511 what the kernel's entries say, through entry 510 everything, on tables; nothing at addresses that are not canonical |
| TaskMemory.PageFault | sys/yomama.c:110-140 | at every canonical address: the handler does what the abstract fault does, and stops exactly when that fails; where every area starts behind the address or ends before it, in its own part and elsewhere, it changes nothing and stops |
| TaskMemory.KernelFault | sys/yomama.c:95-108 | the branch for kernel mode: any page the kernel touches is mapped, without a look at areas, in the shared part for all spaces; it stops exactly when the frames do not suffice |
| TaskMemory.UserLoad | sys/yomama.c:110-136 | at every canonical address: one fault at most and then the byte of the abstract view, none exactly when the abstract fault fails; outside its own part the byte the walk grants |
| TaskMemory.UserStore | sys/yomama.c:110-136 | at every canonical address: one fault at most and then memory shows the abstract store, not exactly when the abstract fault fails; outside its own part the byte is written exactly when the walk grants it |
| TaskMemory.ChangePtable | sys/task_manager.c:163-175 | another space's table is in use |
| TaskMemory.OwnedInjective | sys/task_manager.c:290-307 | no two pages of a process show one frame, which is what lets the loops skip by the frame they saw last |
| TaskMemory.NewExactly | sys/task_manager.c:296-302 | a byte-stepping loop that skips what it saw last takes each mapped page exactly once |
| TaskMemory.IncrementChildpgRef | sys/task_manager.c:290-307 | one count for each mapped page of the range |
| TaskMemory.ShowArea | sys/task_manager.c:320-343 | each mapped page of the area becomes read-only in the child, and the parent's entries are unchanged |
| TaskMemory.CopyVma | sys/task_manager.c:310-346 | lists and page tables afterwards are those of the abstract copy |
| TaskMemory.KMmap | sys/syscall.c:50-90 | the area of the request at the end of the list, and a heap top that is the first page boundary at or behind its end |
| TaskMemory.KMunmap | sys/syscall.c:93-115 | the first area that covers both ends is unmapped and gone; without one nothing changes |
| TaskMemory.ReleaseAll | sys/syscall.c:340-350 | the areas of the process are released one by one and its list is empty |
| TaskMemory.MapPageTable | sys/task_manager.c:127-161 | the new space has the kernel's entry, the entry for itself and nothing else, and no frame but that of the new table changes |
| TaskMemory.AdoptCoupled | sys/task_manager.c:148-153 | the filled frame is the top-level table of an empty space |
| TaskMemory.ForgottenCoupled | sys/task_manager.c:127-131 | the tables of a dead process in the reused slot count as plain memory |
| VmaLists.PushedSound | sys/virt_mem.c:12-33 | appending a loose node keeps all lists linked, ending, disjoint and complete |
| VmaLists.CutSound | sys/virt_mem.c:153-188 | unlinking any node keeps them so |
| VmaLists.LinkedCut | sys/virt_mem.c:176-178 | relinking the predecessor removes one node and keeps the order of the rest |
| VmaLists.VmaHeap.Recycle | sys/virt_mem.c:12-33 | the node is the last of the recycled ones, no area of a process changes |
| VmaLists.VmaHeap.GetRecycled | sys/virt_mem.c:35-49 | the first recycled node, or null exactly when there is none |
| VmaLists.VmaHeap.AllocVma | sys/virt_mem.c:102-115 | a recycled node if there is one, else a new one, with the given bounds |
| VmaLists.VmaHeap.AppendToVmaList | sys/virt_mem.c:128-143 | the area is the last of its process, other lists are unchanged |
| VmaLists.VmaHeap.AddArea | sys/syscall.c:72-75 | allocation and append; the number of nodes grows exactly when none is recycled |
| VmaLists.VmaHeap.RemoveFromVmaList | sys/virt_mem.c:147-193 | exactly the first covering area goes, the order of the rest stays, the node is recycled and the total is the same |
| VmaLists.VmaHeap.IsPageInVmaList | sys/virt_mem.c:195-207 | true exactly when start <= address <= end for some area of the process |
| Lifecycle.StepInv | sys/syscall.c:209-458 | after every call: queued slots are distinct, live, running and not the active one, no live process is lost, and whoever has news of a child has exactly one zombie to find |
| Lifecycle.RunSettled | sys/syscall.c:209-458 | the same in every reachable state |
| Lifecycle.BootSettled | sys/task_manager.c:626-686 | and at the start |
| Lifecycle.QueueHasRoom | sys/syscall.c:833-837 | the ring never fills, so fork's test never stops the machine and the unchecked enqueueings are safe |
| Lifecycle.StepIff | sys/syscall.c:842-846 | exactly when a call goes on: fork and exec need a free slot, exit needs a queued process that is not waiting to die |
| Lifecycle.InitKeepsGoing | sys/syscall.c:209-292 | while the first process neither exits nor calls exec, every call but a fork or exec with a full table goes on |
| Lifecycle.BoundedWait | sys/task_manager.c:61-84 | a queued process that can go on runs before the processor was handed on more often than its place in the queue |
| Processes.ReportedIs | sys/syscall.c:426-431 | the search of wait finds exactly one unreaped zombie, which is not queued |
| Processes.KilledFinds | sys/syscall.c:182-203 | so does the search of kill_proc, after the parent was told |
| Processes.LeftInv | sys/syscall.c:353-363 | an exit tells the parent, if there is one, and keeps the invariant |
| Processes.KilledInv | sys/syscall.c:150-205 | the death of a stub frees exactly the slot of its image and keeps the invariant |
| Processes.ReapInv | sys/syscall.c:432-434 | freeing a zombie's slot hurts nobody else's news |
| Processes.IntPidIff | sys/syscall.c:773-774 | a process id kept in an int field is recognised exactly when it is small, or sign-extends to itself |
| Scheduling.DispatchOrder | sys/syscall.c:209-292 | the first process that can go on is chosen, those behind it keep their order, and the surviving stubs follow |
| Scheduling.DispatchIff | sys/syscall.c:270-292 | the recursion ends with a process exactly when some queued process is not waiting to die |
| Scheduling.StubTurnKeeps | sys/syscall.c:270-292 | one round: the stub in front dies or goes to the back, and all else keeps its place |
| Waits.StubDiesIff | sys/syscall.c:270-292 | a stub that comes up dies exactly when its last news is of its image, ended with status 0, whose slot alone is freed then; else it goes behind the queue and nothing else changes |
| Waits.WaitBlocksIff | sys/syscall.c:390-415 | wait(target) changes nothing and returns 0 exactly when no slot in use holds a child of the caller with ToInt(target) -1 or its id ToWord(ToInt(target)); else the caller waits, for ToInt(target) |
| Waits.ChildlessReturns | sys/syscall.c:390-409 | a caller without children never blocks |
| Waits.WaitEndsIff | sys/syscall.c:404-424 | over runs, from the call wait(target) to any later turn of the caller: its wait ends then exactly when its last news is of a child that ended with 0 and ToInt(target) is -1 or that child's id; the id is returned and just that slot freed; otherwise it waits on, and neither it nor a child of it loses its slot |
| Waits.RoundIff | sys/syscall.c:413-424 | the same of one turn, for the int the caller waits for |
| Reaping.SecondExitLoses | sys/syscall.c:359-360 | a second child's exit before the wait loses the first; one of the cases of Reaping.HeardIff |
| Reaping.ForkLoses | sys/syscall.c:888 | so does a fork before the wait; another of its cases |
| Reaping.ExitLosesIff | sys/syscall.c:353-363 | an exit is lost at once exactly when its status, as an int, is not 0 or its parent is not alive |
| Reaping.HeardIff | sys/syscall.c:404-457 | of a child its parent has news of, every call makes exactly one of three things: the parent frees it, by a wait or as a stub that dies; it is lost, exactly when the parent forks or exits or another child of the parent dies, by an exit or as a stub; or the parent still has the news |
| Reaping.LostNotReturned | sys/syscall.c:416-457 | no wait of anybody in any later run returns a lost child |
| Reaping.FailureNotReturned | sys/syscall.c:359-416 | over whole runs: a child that exits with a status other than 0 is never returned, and its slot never freed |
| Losses.SecondExitHappens | sys/syscall.c:353-363 | from boot with four slots: fork, yield, fork, exit, exit loses a child |
| Losses.ForkHappens | sys/syscall.c:888 | from boot: fork, yield, fork, exit, yield, fork loses a child |
| Losses.FailureHappens | sys/syscall.c:359 | from boot: fork, exit with status 1 loses a child |
| Reaping.LostForEver | sys/syscall.c:404-457 | a lost zombie keeps its slot in every later state |
| ExecProtocol.StepStage | sys/syscall.c:270-292 | image runs, image ended, stub dead, parent has waited: under any scheduling the stages follow in this order; that the later ones come is ExecReturns.ParentReturns |
| ExecProtocol.ParentHears | sys/syscall.c:411-424 | no wait of the parent returns while the image or the stub is there; the next one after that does, with the id fork gave |
| ExecProtocol.ProtocolHolds | sys/syscall.c:150-205 | over whole runs the parent's waits return that id once and nothing before, and then both ids are gone; never anything else, and in time by ExecReturns.ParentReturns |
| ExecReturns.StubDiesInTime | sys/syscall.c:270-292 | the stub of an ended image is dead before the processor was handed on more often than its place in the queue, and one more |
| ExecReturns.ParentReturns | sys/syscall.c:404-457 | once the image has ended and the parent waits, under any scheduling that wait has returned the id fork gave after twice as many turns as there are slots, and both processes are gone |
| ExecReturns.StagedGoesOn | sys/syscall.c:209-292 | until then no call stops the machine but a fork or an exec with a full table |
| ForkExec.ForkStarts | sys/syscall.c:838-889 | the child of fork, and its parent that knows nothing yet |
| ForkExec.ExecStarts | sys/syscall.c:772-778 | exec leaves a stub waiting for exactly its image |
| ForkExec.ForkedStep | sys/syscall.c:404-424 | until the child calls exec its parent's wait does not return |
| ForkExec.ForkExecExitWait | sys/syscall.c:404-457 | fork, exec, exit with status 0 and wait put together: at most one return, of the right id |
| ExecRun.ReturnHappens | sys/syscall.c:404-457 | from boot with three slots: fork, exec, yield, wait(-1), exit(0), and after six turns the wait has returned the id fork gave; the premises of ForkExec.ForkExecReturns are met |
| ForkExec.ForkExecReturns | sys/syscall.c:404-457 | and exactly one: once the image has ended and the forking process waits, so many turns later its wait has returned the id fork gave it |
| Kernel.RingPush | sys/syscall.c:217-218 | one entry behind the last of the ring's sequence |
| Kernel.RingPop | sys/task_manager.c:77-79 | one entry off its front |
| Kernel.ProcessTable.constructor | sys/task_manager.c:626-664 | the start state |
| Kernel.ProcessTable.Enqueue | sys/syscall.c:217-218 | the slot is at the end of the queue |
| Kernel.ProcessTable.GetNextProc | sys/task_manager.c:61-84 | the first live entry, and those before it dropped |
| Kernel.ProcessTable.KillProc | sys/syscall.c:150-205 | the process effects of the abstract death |
| Kernel.ProcessTable.Switch | sys/syscall.c:209-292 | the recursion ends, in the state of the abstract dispatch |
| Kernel.ProcessTable.Yield | sys/syscall.c:209-292 | the step of the state machine |
| Kernel.ProcessTable.Exit | sys/syscall.c:322-370 | the step of the state machine, with the status cut to an int |
| Kernel.ProcessTable.Fork | sys/syscall.c:827-942 | the step of the state machine; returns the new id |
| Kernel.ProcessTable.Exec | sys/syscall.c:604-778 | the step of the state machine |
| Kernel.ProcessTable.CheckLiveChild | sys/syscall.c:390-402 | true exactly when some slot in use has the caller's id as its parent's, and the argument as an int is -1 or, extended to 64 bits, the id in the slot |
| Kernel.ProcessTable.Wait | sys/syscall.c:404-415 | without such a child it returns 0 and leaves the table as it was; with one the caller waits for its argument as an int, and the processor is handed on |
| Kernel.ProcessTable.Resume | sys/syscall.c:413-457 | exactly when the last news is of a child that ended with 0, and `waitingfor` is -1 or its id, that id is returned and just that child's slot freed; otherwise the caller waits on and keeps its children |
| Kernel.NextIsFirst | sys/task_manager.c:80-81 | in reachable states get_nextproc drops nobody |
| Tokeniser.MyStrTok | sys/Utils/kstring.c:32-69 | the next token and a strictly larger position, or none and the same position |
| Tokeniser.SplitString | sys/Utils/kstring.c:72-109 | all tokens, then null, and their number, within 1024 characters and 19 tokens |
| Tokeniser.Rejoined | sys/Utils/kstring.c:32-69 | joined with one delimiter a string has the same tokens |
| Tokeniser.JoinTokens | sys/Utils/kstring.c:32-69 | tokens joined with one delimiter are found again |
| Tokeniser.TokenFirst | sys/Utils/kstring.c:32-69 | a run up to a delimiter or the end is the first token |
| Tokeniser.StrNCmp | sys/Utils/kstring.c:4-18 | 0 exactly when both have n characters and they agree |
| Tokeniser.StrLen | sys/Utils/kstring.c:21-30 | the number of characters before the zero |
| Archive.Power | sys/tarfs.c:36-51 | repeated squaring is exponentiation |
| Archive.OctToDec | sys/tarfs.c:53-83 | the octal value, for all digits whose decimal reading fits an int |
| Archive.TakeOff | sys/tarfs.c:74-80 | the digits of the decimal number, read as octal |
| Archive.NineDigits | sys/tarfs.c:53-83 | up to nine significant digits fit |
| Archive.Walk | sys/vfs.c:155-190 | the header stepping over a well-formed image ends, and what it takes is, in order, one entry for each member whose name is not empty, whose size field does not begin with a zero character and whose type flag is '0' or '5', and nothing else: with its name, its data address, its octal size and its kind; a name is read to the first zero, beyond its field if need be |
| Archive.ListingLists | sys/vfs.c:155-190 | the list of entries the other results start from holds exactly those members, said with the header's bytes 0, 124 and 156, in order, each at 512 * (blocks before it + 1) |
| Inodes.AppendedOk | sys/vfs.c:82-106 | a tree stays a rooted tree with at most nine children |
| Inodes.InsertKeeps | sys/vfs.c:108-141 | an insertion keeps the tree and only adds to it, even when a directory is full |
| Inodes.InsertResolvesIff | sys/vfs.c:108-141 | an inserted path resolves to where its insertion ended exactly when no directory on the way was full; else to nothing |
| Inodes.ResolveStable | sys/vfs.c:194-225 | a path that resolves keeps resolving to the same inode while the tree grows |
| Inodes.PathSurvives | sys/vfs.c:143-192 | a path inserted with room resolves after the rest of the archive |
| Inodes.MemberFoundIff | sys/vfs.c:108-225 | after the whole archive the path of a member leads to an inode with its data and kind exactly when, in its turn, no directory on its way was full and the path led nowhere yet, or to these very data |
| Inodes.MembersServed | sys/vfs.c:143-192 | of every such member of an image, also of a directory or a file of size 0: it has an entry, and after the whole archive its path leads to an inode with its data and of its kind exactly when it was welcome in its turn |
| Inodes.SlashSplits | sys/vfs.c:108-116 | paths are cut at '/', also one in front or behind |
| Inodes.TenthChild | sys/vfs.c:82-106 | a name that matches no child is added as the last child of a directory with fewer than nine, with the data given; as the tenth it gets no inode and nothing changes |
| Inodes.StrayChild | sys/vfs.c:108-141 | a name that a full directory can not take is skipped: the path goes on from that directory, its last name becomes a child of another directory, and the path leads nowhere |
| Inodes.BlockedStays | sys/vfs.c:82-141 | a path that comes to a full directory in which nothing matches leads nowhere ever after |
| Inodes.PrefixHappens | sys/vfs.c:71-80 | a file a after a file ab: no inode is added and the path of a leads to ab |
| Inodes.ExactFoundIff | sys/vfs.c:71-80 | a child is found by its own name exactly when no earlier sibling's name begins with it |
| Inodes.PrefixNotAdded | sys/vfs.c:71-80 | a name that begins a sibling's name is never added |
| Inodes.FileSystem.FindFamilyMember | sys/vfs.c:71-80 | the first child whose name begins with the token |
| Inodes.FileSystem.AppendToFamily | sys/vfs.c:82-106 | a new last child, or -1 exactly when the family is full |
| Inodes.FileSystem.InsertIntoRoot | sys/vfs.c:108-141 | the abstract insertion of the path's tokens |
| Inodes.FileSystem.GetInode | sys/vfs.c:194-225 | the abstract resolution of the path's tokens |
| Inodes.FileSystem.InitTarfs | sys/vfs.c:143-192 | the tree of all members of the image, in order; each file and directory with a name and a size, be it 0, is served as Inodes.MembersServed says |

## Left out

- TaskMemory.KernelFault: pages that are not there; that RING_0_MODE is set for exactly the stretches that need it is not modelled.
- TaskMemory.UserLoad: single bytes; wider accesses are sequences of bytes to it. Outside its own part no area of a process holds the address.
- Runs.StepInv: stores into page tables, through entry 510 or an alias, are no steps, in this and all other theorems about runs: such a store can take away the pages of another process (Protection.AliasBreaks). Loads through these entries change nothing and are no steps.
- Runs.RunIsolated: says nothing of the part that all spaces share, where every process may read and write the stacks of every other.
- Booting.BareInv: the pages of the kernel image, which boot maps with supervisor entries in the shared part (sys/paging.c:170-177), and the page of the screen are in no state of the model, whose kernel pages are those the kernel maps later; so also for Booting.FirstInv.
- Machine.MemoryManager: which slot a fork or exec takes and which process runs next are given to its methods; Kernel.ProcessTable chooses them. The image of an exec is a list of pages and areas, and what its ELF headers say is not decoded.
- Paging.Mmu.UnmapPhyaddrRange: ranges before whose end the int of the source does not overflow, and that leave the last 2 GiB of the address space alone, where it would take away kernel pages; the runs bound areas to the first 2 GiB.
- Paging.Mmu.EnsureEntry: stands for the three copies of the same lines in map_phyaddr and in set_Cow; the clearing loops after them are its loop.
- TaskMemory.MapPageTable: the tables of the process that had the slot before are dropped from the abstract memory first; the source never frees them.
- Kernel.ProcessTable.Fork: the table has a free slot; without one the source writes behind the table. Failure of the page table in create_new_process stops the model.
- Kernel.ProcessTable.Exec: a failed exec (sys/syscall.c:704-715), its search for the file, arguments and stacks are not modelled; the image is a list of pages and areas in Runs.
- Kernel.ProcessTable.Wait: the loop of syscall_wait is cut where it hands the processor on; Resume is one round of it.
- ForkExec.ForkExecExitWait: the parent does nothing but wait or yield, no other child of the parent or of the stub ends, and the image's id is below 2^31; otherwise the one field for news can be overwritten, as Reaping shows.
- Archive.OctToDec: strings of octal digits whose decimal reading is below 2^31; beyond that the int of the source overflows.
- Archive.Walk: well-formed images: the size fields are octal digits and a zero character inside the field. A size that ends with a space is read on into the next fields, and the int overflows.
- Tokeniser.SplitString: strings below 1024 characters with at most 19 tokens; beyond that the source writes behind its buffers.
- Inodes.FileSystem.constructor: the source leaves the kind of the root unset; here it is a directory.
- Inodes.FileSystem.InsertIntoRoot: names are strings of any length; the 255 places of the source's buffer are not modelled.
- VmaLists.VmaHeap: nodes are known by the number of their allocation, not by address; kmalloc's pointer is not modelled.
- Accessed and dirty bits, large pages, the translation look-aside buffer: every change of a table is visible at once.
- The state machine of memory and the one of processes are separate; a slot is reused in the first only after its process is gone, which the second guarantees.
- syscall_kill (sys/syscall.c:1272-1332): it compares a queue position with an entry, and the ring invariant does not survive it.
- scan_tarfs, read_elf and file_map: the same stepping as init_tarfs, and the decoding of headers with fixed radices.
- Global process ids are unbounded numbers; their wrap-around after 2^64 is not modelled.
- What lies on stacks, register frames, descriptor tables, interrupt controllers, keyboard, terminal, file descriptors and the user programs.
