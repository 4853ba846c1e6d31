# A page-table kernel, proved

This project models a small teaching kernel for x86-64: four-level page tables that live in the memory
they translate, a physical page allocator, processes with fork, page allocation, faults and a
round-robin scheduler, the ELF loader and the boot sequence, the format printer, and the log dumps with
the script that reads them back.

## How it is built

- `Words`, `Pages`, `Paging`, `MapRanges`, `Budget`: words split into frame and flags, the allocator,
  the page-table trie. A ghost map from pages to tags (a table of some space, level and prefix, or a data
  page of some space and virtual page) turns "all address spaces are disjoint trees" into a local
  condition on each page, so that freshness and disjointness need no reachability argument.
- `AddressSpaces`, `Forking`, `KernelState`, `Kernel`, `Invariant`: the kernel as transitions of a state.
  `Kernel.Step` is one event, a user store or a trap; `Kernel.After` is the state after any sequence of
  them. A failed assertion or a panic is the status Panicked.
- `Assertions`: what the kernel's own assertions amount to, on any memory and in any state.
- `Steps`, `Traps`, `Runs`, `ForkTheorem`, `Progress`: what every step keeps, what each interrupt does, and
  what holds over whole runs.
- `Loader`, `Bytes`, `Boot`: placing images byte by byte through the process's own table, and the way
  from arbitrary memory to the first process.
- `Views`, `UserMemory`, `Allocator`, `ForkProtocol`: what a process finds of itself when it
  runs again and of what it stores, and two user programs as clients of the kernel under every schedule.
  How a compiled program keeps its variables is left open: they are any function of its registers (but rax, where answers appear) and of the pages
  outside its heap, and are read from there each time it runs again.
- `Exhaustion`: runs from power-on into the states where fork panics or leaves a process without a table.
- `MemoryFunctions`, `Numbers`, `Printer`, `Conversions`: the library. `Dumps`, `Timelines`, `LogChecks`,
  `RunLogs`: the log, its reader, the reader's checks, and the log of a whole run.
- `Machines`: the kernel's code on arrays written in place, loop by loop, each method proved to be the
  transition function the theorems above are about.

Unless a row says "any memory", a result on page tables is about disjoint well-formed trees, with an
allocator that works for the space in question, and a result on steps and runs starts from a state that
satisfies the invariant.

## Where code and comments disagree

The model follows the code.

- `virtual_memory_map` promises to map any range. When the first page's cur_index123, truncated to int,
  equals the sentinel -1, as it does at addresses whose bits 21 to 52 are all ones, a PTE_P map fails
  although memory is free, and a map without PTE_P answers 0 but passes over the pages of the first leaf
  table (`MapRanges.MapsExactly`, `MapRanges.UnmapsExactly`; failing inputs `Budget.SentinelFails`,
  `MapRanges.SentinelStaysMapped`). No such address is below 2^48.
- `program_load_segment` says it copies to p_va; it copies to the page boundary below. A segment is where
  ELF wants it exactly when its data repeats with distance p_va mod 4096, so always if p_va is
  page-aligned or p_filesz is 0 (`Loader.PlacedExactly`, `Loader.UnalignedMisplaced`).
- `fork` says it returns -1 on failure; with one to three free pages fork panics instead, and after a fork
  that found no page every further trap panics because a runnable process has a NULL table
  (`Steps.ForkKeeps`, `Invariant.CheckPassesExactly`). Both are reached from power-on
  (`Exhaustion.BootedExhaustion`).
- `sys_page_alloc` guards no address: while a page is free, page-aligned requests that decode below
  PROC_START_ADDR break the kernel range (`Runs.LowRequestBreaks`, `Runs.RequestKeepsExactly`). The
  invariant holds throughout a run exactly when it makes no such request (`Runs.RunKeepsExactly`); this
  is the predicate `RunOk` of the results on runs.

## Model

| member | source | states |
|---|---|---|
| `Words.WordRoundTrip` | x86-64.h:41-46 | An entry's address part (all but the low 12 bits) and its flags part (the low 12) determine the 64-bit word and are determined by it. |
| `Words.PageIndexIsIndex` | x86-64.h:17-33 | On every 64-bit address the index of a level is the nine bits that belong to it: levels partition bits 12 to 47, and bits 48 and up are ignored. |
| `Words.SameGroup` | k-hardware.c:326-333 | Consecutive pages have the same cur_index123, truncated to int, exactly when one leaf table decodes both; on this rests the cached walk, at any 64-bit address. |
| `Pages.GetFreeTakesLowest` | kernel.c:232-246 | get_free_addr takes the lowest free page, counts it off, changes no other entry, and answers 0 exactly when no page is free (or when page 0 itself was free). |
| `Pages.FreeCountExactly` | kernel.c:232-246 | The count of free pages is the number of pages with owner 0 and no reference; get_free_addr takes the lowest of them whenever there is one and gives it the owner and one reference. |
| `Paging.LookupIsLeaf` | k-hardware.c:388-405 | Where every interior entry is empty or carries P, W and U, anding the rights over four levels gives the leaf entry's own P, W and U. |
| `Paging.LookupFrame` | k-hardware.c:388-405 | Memories that agree on the tables of one address space translate it alike, whatever else differs. |
| `Paging.WalkKeeps` | k-hardware.c:349-381 | lookup_l4pagetable on disjoint well-formed trees: its assertions hold, the trees stay disjoint and well formed, grow by free pages owned by the space alone, no node of any tree translates differently, and the leaf table returned is the one the address decodes through. |
| `Paging.WalkOnlyLooks` | k-hardware.c:349-381 | Without an allocator, or without PTE_P, the walk changes nothing and finds exactly the leaf table that exists. |
| `MapRanges.MapOneAgrees` | k-hardware.c:312-343 | One page mapped: it translates to the page asked for with perm & 7; no other page of the space and no other space changes; a failure changes no translation although empty tables may have been linked in. |
| `MapRanges.MapPagesAgrees` | k-hardware.c:312-343 | A range below 2^48: success means every page translates to its target and nothing outside changed; a failure happens only with PTE_P and has mapped a proper prefix and nothing else. |
| `MapRanges.MapLoopIsMapPages` | k-hardware.c:326-341 | The loop that reuses l4pagetable while cur_index123 stays the same gives the same memory, allocations and result as walking from the root for every page, the cached NULL included. |
| `MapRanges.MapIsMapPages` | k-hardware.c:326-341 | From the sentinel -1 the call equals the page-by-page form, except when the first page's own index truncates to -1; then a PTE_P map fails at once and changes nothing, and one without PTE_P is the page-by-page form of the pages behind the first leaf table's. |
| `MapRanges.MapsExactly` | k-hardware.c:312-343 | A range that can be mapped page by page with PTE_P is mapped exactly when it is empty or bits 21 to 52 of its first address are not all ones. |
| `MapRanges.MapUnmaps` | k-hardware.c:312-343 | Without PTE_P, at any 64-bit address and of any length: the call returns 0, takes no page and unmaps exactly the pages, modulo 2^48, behind those of a first leaf table whose index truncates to -1; every other page of the space and every other space keeps its translation. |
| `MapRanges.UnmapsExactly` | k-hardware.c:312-343 | Without PTE_P the range ends unmapped exactly when it is empty, bits 21 to 52 of its first address are not all ones, or each page of its first leaf table was unmapped already or comes again further on modulo 2^48. |
| `MapRanges.SentinelStaysMapped` | k-hardware.c:326-341 | The failing input: at such an address a map of one page without PTE_P returns 0 and changes nothing, where walking from the root unmaps the page. |
| `MapRanges.UnmapRange` | k-hardware.c:325-343 | Below 2^48, without PTE_P, the call returns 0, takes no page even with an allocator, leaves the whole range unmapped and everything else as it was. |
| `MapRanges.MapIgnoresOwners` | k-hardware.c:312-343 | Without an allocator a map takes no page and does not depend on who owns what. |
| `KernelState.MappedAddress` | k-hardware.c:388-405 | Byte for byte, below 2^48: where the pages of a range map to their targets, va+X translates to pa+X with perm & 7 for every X below sz. |
| `KernelState.MapLookupAgrees` | k-hardware.c:312-405 | virtual_memory_map against virtual_memory_lookup: for page-aligned addresses below 2^48, success means va+X translates to pa+X with perm & 7 for every X below sz; outside the range and in every other space nothing translates differently, and no page changes but tables of the space and pages that were free. |
| `Budget.WalkBudget` | k-hardware.c:349-381 | With PTE_P and an allocator, page 0 being in use: the walk finds or builds the leaf table exactly when as many pages are free as tables are missing, and then takes exactly those; otherwise it has used up every free page. |
| `Budget.MapOneBudget` | k-hardware.c:326-341 | With PTE_P and an allocator, page 0 being in use: mapping a page succeeds exactly when its missing tables can be allocated, and takes exactly those. |
| `Budget.MapOnePresent` | k-hardware.c:326-341 | Where the leaf table exists a map always succeeds, allocates nothing, and creates no other table. |
| `Budget.SentinelFails` | k-hardware.c:326-333 | The failing input: at a 64-bit address with those bits all ones a one-page map fails with the pages for its tables free, where walking from the root maps it. |
| `AddressSpaces.MapEffects` | k-hardware.c:312-343 | A one-page map of a page the space may map keeps all spaces disjoint trees whose user leaves are pages of their own, besides what it does to translations. |
| `AddressSpaces.CopyTableCopies` | kernel.c:190-214 | copy_pagetable of a table with the kernel range: below PROC_START_ADDR the new table looks up as the source did, everything above is unmapped, no other space changes, and exactly four pages of the owner are taken; NULL exactly when no page is free, panic exactly when one to three are. |
| `Forking.UserLookup` | kernel.c:391-396 | What a process's table maps above the kernel range is a page that belongs to this process and to this one virtual page, writable and for user mode. |
| `Forking.NewFrame` | kernel.c:269-276 | Giving a free page to an owner as a data page changes no translation and keeps every tree well formed. |
| `Forking.ForkLoopCopies` | kernel.c:266-288 | fork's loop from any page on, into a space with nothing mapped from there: it succeeds exactly when the pages it needs are free, takes exactly those, and then every writable page has a fresh copy of the child's own with the same rights; a failure still leaves well-formed spaces. |
| `Forking.ForkCopies` | kernel.c:259-288 | copy_pagetable and the loop together, with four pages free at least: outcome, cost and contents of the child's space, measured against the memory before the call. |
| `KernelState.CheckSeparatesTables` | kernel.c:546-614 | check_virtual_memory is sound on any memory whatever: when it passes, no page reached as a table of one process, at any level, is a table page of another or of the kernel, or has the same page number as one, as PAGENUMBER converts it to int. |
| `KernelState.MappingsExactly` | kernel.c:517-539 | On any memory check_page_table_mappings passes exactly when every kernel page and the stack page map to themselves, data and stack writably. |
| `KernelState.CheckedOwners` | kernel.c:608-613 | On any memory: where the check passes, slot 0 is free and every referenced page with an owner of 0 or above belongs to a slot in use. |
| `KernelState.CheckedMappings` | kernel.c:586-607 | On any memory: where the check passes, the pages from 0x40000 to the kernel's end and the page at 0x7F000 map to themselves in the kernel's table and in every process's own; data and stack writably. |
| `KernelState.CheckedPages` | kernel.c:565-579 | A table that passes the recursive check consists, at every level, of pages whose page number, converted to int, is one of memory and belongs to its owner. |
| `KernelState.AliasPasses` | kernel.c:565-579 | What the conversion lets through: a leaf table 2^44 bytes above a page of memory passes exactly when that page has the owner and count. |
| `Assertions.EntryBits` | x86-64.h:41-46 | An entry's number, below 2^64: bit 0 is its right P, bit 1 W, bit 2 U, and what is left above bit 11 its frame. |
| `Assertions.EntryStored` | k-hardware.c:334-341 | Where the walk finds or builds a leaf table, mapping a page stores pa with perm there at the page's own index, and without PTE_P perm alone. |
| `Assertions.WalkFailsExactly` | k-hardware.c:349-381 | On any memory lookup_l4pagetable fails an assertion exactly when a present entry on the address's path, as it was before the call, points outside memory or lacks a right that is asked for. |
| `Assertions.SetPagetableExactly` | k-hardware.c:413-424 | On any memory set_pagetable passes exactly when the new table maps the handler, the kernel's table and virtual_memory_map to themselves and the kernel's table maps the new one so. |
| `Assertions.OwnershipLevelExactly` | kernel.c:565-579 | On any memory the recursive check passes exactly when the table's own page has the owner and count asked for and every table reached below it, through nonzero entries, has the owner and count 1. |
| `Assertions.UsersCounted` | kernel.c:549-563 | The count added for kernel_pagetable is the number of existing processes that run on it. |
| `Assertions.CheckExactly` | kernel.c:586-614 | On any state: the whole check written out over processes and pages. |
| `Assertions.RunExactly` | kernel.c:476-488 | run goes to user code exactly when the process is runnable and set_pagetable passes for its table, and panics otherwise. |
| `Assertions.TrapHasChecked` | kernel.c:336-350 | On any state: a trap that does not panic has found the kernel's table to pass set_pagetable and the state with the saved registers to pass check_virtual_memory. |
| `Assertions.StoreNeedsRights` | k-hardware.c:388-405 | A user store that changes anything went through an entry that is present, writable and for users at every level. |
| `Assertions.LoadHasChecked` | k-loader.c:97-105 | program_load_segment returns 0 only if set_pagetable passed for the process's table before the copy and for the kernel's after it. |
| `Invariant.CheckPassesExactly` | kernel.c:586-614 | In every state that satisfies the invariant check_virtual_memory passes exactly when no process was left with a NULL table. |
| `Invariant.SetPagetablePasses` | k-hardware.c:413-424 | set_pagetable's four assertions hold for every table that has the kernel range. |
| `Invariant.MappingsCheck` | kernel.c:517-539 | A table with the kernel range passes check_page_table_mappings. |
| `Invariant.TreeChecks` | kernel.c:565-579 | A well-formed tree of one space passes the ownership check with its owner and reference count 1. |
| `Steps.StoreKeeps` | k-hardware.c:388-405 | A user store through the process's own rights keeps the invariant and disturbs no other process. |
| `Steps.ScheduleKeeps` | kernel.c:457-467 | In a state that satisfies the invariant and has a table for every process, schedule changes nothing but which process is current, fails no assertion, and leaves a runnable process running, or with none runnable turns for ever. |
| `Steps.PageAllocKeeps` | kernel.c:385-402 | A page request that RunOk allows panics exactly when it is unaligned while a page is free; otherwise it keeps the invariant and disturbs nobody. |
| `Steps.RequestMaps` | kernel.c:391-396 | What a page request above the kernel range maps when a page is free: the page taken, at the address asked for and nowhere else; on failure no translation changes. |
| `Steps.ForkKeeps` | kernel.c:251-302 | fork panics exactly when a slot and one to three pages are free; otherwise, failed or not, it keeps the invariant and disturbs nobody. |
| `Steps.ExceptionKeeps` | kernel.c:336-450 | Any trap but a page request that RunOk does not allow: the machine stops exactly for the listed reasons (kernel page fault, a process without a table, an unknown or panic interrupt, an unaligned request with a page free, a fork with one to three pages free); otherwise the invariant holds again and every other process keeps registers, translation and contents. |
| `Steps.SavedKeeps` | kernel.c:336-350 | Saving the registers keeps the invariant, and both checks that follow answer as the invariant says. |
| `Traps.FaultBits` | x86-64.h:58-62 | For an error code with any bits P, W and U, a page fault counts as user code's exactly when U is set, whether it is a read or a write. |
| `Traps.PageFaultBreaks` | kernel.c:418-450 | From the invariant with a table for every process, for an error code with any bits P, W and U: with U set a page fault never panics, marks the current process P_BROKEN with its registers saved, changes no other process and no page, and if any process runs next it is another; with U clear it panics. |
| `Traps.SchedulePicks` | kernel.c:457-467 | From the invariant with a table for every process, schedule runs the process at the least distance from 1 to 16 behind the current one, in cyclic order, whose slot is runnable, and turns for ever exactly when no slot is. |
| `Traps.TurnEnds` | kernel.c:381-416 | From the invariant with a table for every process, a yield (50) or a timer interrupt (32) saves the registers and gives the turn to the next runnable process in cyclic order; the timer adds a tick modulo 2^32; nothing else changes. |
| `Traps.GetpidAnswers` | kernel.c:377-379 | From the invariant with a table for every process, interrupt 49 saves the registers with the process's own number in rax and changes nothing else. |
| `Traps.CallReturns` | kernel.c:385-411 | From the invariant with a table for every process: interrupt 51, if RunOk allows the request, and interrupt 52, where they do not panic, are the page request's and fork's own work on the saved registers, and the caller goes on. |
| `Traps.RequestBudget` | kernel.c:385-402 | A page-aligned request that RunOk allows answers 0 exactly when bits 21 to 52 of the address are not all ones and, besides one page, the tables missing on its path are free, and then takes exactly those; otherwise -1: with no page free nothing has changed, and otherwise one page is gone, or with too few for the tables all are. No other process and no other register changes. |
| `Traps.OtherInterruptsPanic` | kernel.c:370-441 | In a state that satisfies the invariant every other interrupt number panics. |
| `Runs.RunKeepsInv` | kernel.c:586-614 | In every state a run of stores and traps reaches without a panic, the global invariant: for runs in which every page request made while a page is free is unaligned or decodes at or above PROC_START_ADDR (RunOk). |
| `Runs.RunKeepsExactly` | kernel.c:385-402 | Exactly those runs: of the runs that do not panic, the ones that pass only through states with the invariant are the ones RunOk allows. |
| `Runs.RunPassesChecks` | kernel.c:348-350 | Over every run that RunOk allows check_virtual_memory fails exactly when some process has a NULL table, and set_pagetable never fails for the others. |
| `Runs.RunPanicsExactly` | kernel.c:336-450 | Over every run that RunOk allows the next event it allows panics exactly for the reasons listed for exception. |
| `Runs.RunIsolates` | kernel.c:99-110 | Isolation in every state reached by a run that RunOk allows: a page user code sees, other than the console, belongs to that process and to one virtual page, is no table page of anybody, and is none of page 0, the pages 0xA0 to 0xFF, the kernel's stack page 0x7F and the pages from 0x40 up to the kernel's end. |
| `Runs.LowRequestBreaks` | kernel.c:385-396 | The missing guard: while a page is free, a page-aligned request that decodes below PROC_START_ADDR always leaves the invariant (or panics). |
| `Runs.UnguardedLeaves` | kernel.c:385-396 | An event that RunOk does not allow loses the invariant in the very next state, or panics. |
| `Runs.RequestKeepsExactly` | kernel.c:385-402 | Exactly which requests are safe: with a page free the page-aligned ones that decode at or above PROC_START_ADDR, with none free all. |
| `Runs.MappedRequestMaps` | kernel.c:385-402 | With a page free, a page-aligned request for a page that is mapped already, at an address whose index does not truncate to -1, takes one page, puts it in the place of the old one and answers 0. |
| `Runs.RunUndisturbed` | kernel.c:336-450 | Noninterference: however long others run, in a run that RunOk allows, a process finds its registers, its translation and the contents of its pages as it left them. |
| `ForkTheorem.ForkBudget` | kernel.c:251-302 | fork succeeds exactly when a slot in 1..NPROC-1 and 4 + w + e pages are free (w writable user pages of the parent, e one more if any lies at or above 0x200000); it fills the lowest slot, takes exactly those pages, and otherwise answers -1 or panics. |
| `ForkTheorem.ForkCopiesProcess` | kernel.c:251-302 | A successful fork: same domain and rights on the user range, fresh pages of the child with the parent's contents, the parent's kernel range, nothing above; registers equal but for rax; the parent's table, pages and all pages in use unchanged. |
| `ForkTheorem.FailedFork` | kernel.c:251-281 | A fork that finds a slot, does not panic and yet fails, from the invariant: the parent gets -1 in rax and keeps everything else; the child's slot is runnable with its number and the parent's saved registers, rax included; no other process changes. |
| `Progress.RunOwners` | kernel.c:312-322 | Conservation over every run, guarded or not: a page once assigned keeps owner and count for good, and while a page is free no page above it is ever taken. |
| `Progress.StepStates` | kernel.c:252-257 | A slot stays as it is, goes from free to runnable, or breaks; slot 0 is never filled; no slot is freed. |
| `Progress.NextIsNearer` | kernel.c:457-467 | schedule picks q or somebody cyclically nearer to q, for every runnable q. |
| `Progress.StepTurns` | kernel.c:457-467 | Each event that RunOk allows and that ends a turn brings every other runnable process nearer to its turn; the others leave the current process running. |
| `Progress.WaitIsBounded` | kernel.c:457-467 | In a run that RunOk allows a process that stays runnable runs before the current process and its successors have ended NPROC turns, whatever is forked meanwhile. |
| `Loader.LoadSegmentPlaces` | k-loader.c:80-124 | A segment loads exactly when its pages are free; it then takes exactly those, maps them to themselves, and through the process's own table reads as the image's bytes followed by zeros to p_memsz; no assertion fails and no table is allocated. |
| `Loader.LoadSegmentsPlaces` | k-loader.c:48-70 | After program_load returns 0 every loadable segment is in place, earlier ones undisturbed by later ones, and all other spaces unchanged. |
| `Loader.LoadsExactly` | k-loader.c:58-65 | program_load returns 0 exactly when the pages of the loadable segments are free and no two segments share one. |
| `Loader.LoadTakesSegments` | k-loader.c:87-98 | The pages of the segments change hands, and no others. |
| `Loader.LoadsOnlySegments` | k-loader.c:89-98 | Nothing but the segments' pages is mapped. |
| `Loader.PlacementAt` | k-loader.c:80-106 | Which byte is at p_va + k: the image's byte p_va mod 4096 places further on; zero from p_filesz to p_memsz. |
| `Loader.PlacedExactly` | k-loader.c:80-106 | A segment is as ELF wants it, its p_filesz bytes of the file at p_va and zeros up to p_memsz, exactly when its data repeats with distance p_va mod 4096; so always when p_va is page-aligned or p_filesz is 0. |
| `Loader.LoadsAsInFileExactly` | k-loader.c:48-70 | After program_load returns 0, for any images: exactly those loadable segments are as in the file whose data repeats so. |
| `Loader.UnalignedMisplaced` | k-loader.c:84-106 | The failing input: one byte wanted at the second byte of a page loads successfully, and the next byte of the file is there instead. |
| `Bytes.StoreBytesStores` | k-loader.c:104-106 | memcpy and memset through a page table: those bytes land there, every other byte of the loaded pages and every translation stays. |
| `Boot.KernelStoreWellFormed` | kernel.c:85-110 | From arbitrary memory, after virtual_memory_init, pageinfo_init and the two maps the kernel's space is a well-formed tree that maps memory to itself, kernel range closed to users but for the console. |
| `Boot.ProcessSetupPrepares` | kernel.c:147-180 | process_setup with six free pages below PROC_START_ADDR panics exactly when a page of a loadable segment is in use or wanted twice; otherwise the process has its own space with segments, stack and nothing else above the kernel range, exactly the segments' pages and six low ones are gone, and processes set up before are as they were. |
| `Boot.InitialOwners` | kernel.c:494-510 | pageinfo_init by page number: 0 and 0xA0 to 0xFF are reserved and counted once, 0x7F and the pages from 0x40 up to the kernel's end are the kernel's and counted once, and every other page is free with count 0. |
| `Boot.KernelStarts` | kernel.c:85-132 | kernel(), from arbitrary memory and for one to fifteen programs: it panics exactly when the images do not fit in memory or two segments share a page, so no allocation process_setup leaves unchecked can fail; otherwise process 1 starts in a state that satisfies the invariant, every program is loaded in a space of its own, and exactly the pages needed are taken. |
| `Boot.BootedRunKeepsInv` | kernel.c:85-132 | Every run from power-on that RunOk allows, from arbitrary memory: the invariant until the machine panics. |
| `Boot.BootedOwners` | kernel.c:494-510 | If kernel() reaches the first process: in every later state, whatever happens, those reserved pages and those kernel pages are as pageinfo_init left them. |
| `Boot.BootedKeepsExactly` | kernel.c:85-132 | From power-on too, the runs that do not panic and pass only through states with the invariant are exactly those RunOk allows. |
| `Views.ViewUndisturbed` | kernel.c:336-450 | A process that a step of another has left undisturbed finds its registers and every page of its user range as it left them. |
| `Views.ViewForked` | kernel.c:251-302 | After a successful fork parent and child both find the registers and user pages the parent had, but for rax. |
| `Views.ViewAllocated` | kernel.c:385-402 | A request for a page of its heap leaves a process's registers but rax, and its pages outside the heap, as they were. |
| `UserMemory.ValueIsBytes` | lib.c:12-18 | The bytes memcpy moves: a word is its eight bytes, least significant first. |
| `UserMemory.StoreReadsBack` | k-hardware.c:388-405 | From the invariant: where the running process may store, the word reads back byte by byte at its address, least significant byte first; no other address that its user code can read reads differently; and where it may not, nothing does. |
| `Exhaustion.Drains` | kernel.c:385-402 | From a state with the invariant, a slot free and a table for every process: a running process that has a user page mapped can bring the number of free pages to any smaller number by asking for that page again, within RunOk. |
| `Exhaustion.ForkPanicReached` | kernel.c:259-264 | From such a state with a page free: a run that keeps the invariant and ends in a panic, a fork with one page free. |
| `Exhaustion.NullTableReached` | kernel.c:259-264 | From such a state: a run that keeps the invariant up to a fork with no page free, which answers -1 and leaves a runnable process with a NULL table; check_virtual_memory then fails and any trap panics. |
| `Exhaustion.BootedExhaustion` | kernel.c:251-264 | Both happen from power-on, whatever the programs, as long as their images fit and they leave a slot. |
| `Allocator.AllocatorRuns` | p-allocator.c:12-46 | From its sys_getpid on, under every schedule and whatever other processes do in runs that RunOk allows: no store of the program, to its variables, its stack or its heap, is stopped by a fault, it finds its variables as it left them, its heap pages hold its number, and the pages from heap_top to the stack are unmapped. |
| `Allocator.AllocatorSafe` | p-allocator.c:28-39 | At its own steps of such runs: no store arrives as a page fault, a request is never for a page it already has, p is its process number, and every heap page reads back p. |
| `Allocator.PreparedHome` | kernel.c:147-180 | What process_setup has prepared lets the program store to every page of its image and its stack. |
| `Allocator.BootedAllocatorSafe` | p-allocator.c:12-46 | The same from power-on and from the program's first instruction, beside any other programs, for a heap between image and stack. |
| `Allocator.GoesOn` | p-allocator.c:12-46 | Such runs go on: kept in a register, say, the variables always let the program make its next call or store. |
| `ForkProtocol.LocalsSpread` | p-fork.c:10-14 | However the program keeps p1 and p2 in its registers and memory: after any of its events, forks succeeding, the running process, the child it forks, and every other process find the values they should. |
| `ForkProtocol.ForkProtocolHolds` | p-fork.c:10-22 | From process 1 alone at its beginning, in every interleaving in which all forks succeed: the running process, having looked at its last answer, has in p1 and p2 two different numbers from 2 to 15 if it is process 1, and a 0 in one of them if it is not; getpid has given its own number; no process fails an assertion; and once all are past their second fork there are exactly four processes. p1, p2 and the answer are read from registers and memory. |
| `ForkProtocol.BootedForkProtocolHolds` | p-fork.c:10-22 | The same from power-on with p-fork alone. |
| `ForkProtocol.GoesOn` | p-fork.c:10-22 | Such runs go on: kept in a register, say, the variables always let the running process make its next call, and a fork in it succeeds exactly when a slot and the pages of ForkBudget are free. |
| `MemoryFunctions.Memmove` | lib.c:20-34 | In place, for every overlap: the destination holds what the source held, all else is unchanged. |
| `MemoryFunctions.Memcpy` | lib.c:12-18 | In place: the bytes one by one, lowest first. |
| `MemoryFunctions.CopiedUpMovesExactly` | lib.c:12-18 | memcpy does what memmove does exactly when the destination does not begin inside the source, or the source repeats with that distance. |
| `MemoryFunctions.CopiedUpRepeats` | lib.c:12-18 | memcpy onto a higher address: every byte of the destination equals the byte dst - src before it, all else is unchanged. |
| `MemoryFunctions.Memset` | lib.c:36-41 | n bytes become the low byte of c, all else is unchanged. |
| `Numbers.DigitsRoundTrip` | lib.c:112-128 | The digits read back as the value in every base from 7 to 16, and only zero starts with a zero. |
| `Conversions.DigitsWritten` | lib.c:112-128 | Base 10 writes 0 to 9 alone, base 16 upper-case digits and base -16 lower-case ones. |
| `Numbers.FitsBuffer` | lib.c:143-144 | A 64-bit value has at most 23 digits in any base from 7 on, so digits and NUL fit the 24 characters. |
| `Numbers.FillNumbuf` | lib.c:112-128 | In place: the digits end before the NUL in the last place, nothing before them is touched, and no access leaves the buffer. |
| `Printer.FormattedLength` | lib.c:267-298 | A conversion emits exactly max(width, prefix + zeros + digits) characters. |
| `Printer.NumberReadsBack` | lib.c:248-298 | Whatever flags, width and precision: apart from blanks and the prefix a number's characters read back as the number. |
| `Printer.ConversionReadsBack` | lib.c:203-226 | Under every numeric conversion, with any flags, width and precision, the digits read in base 10 or 16 as the magnitude of the 32-bit or 64-bit value the argument means, with a minus sign exactly when it is negative. |
| `Printer.FlagsAreThoseSeen` | lib.c:153-161 | Scanning flags stops at the first character that is none, and has set exactly those seen. |
| `Conversions.NumberText` | lib.c:203-298 | d, i, u, x, X and p under any flags, width and precision, with a number as argument: the sign or base prefix of that conversion, then zeros up to the precision, or without one and with the 0 flag but not the - flag up to the width, then the value's digits in that conversion's own letters, none superfluous; blanks up to the width in front, or with the - flag behind. |
| `Conversions.ZeroPadded` | lib.c:272-298 | With the 0 flag, neither - flag nor precision, and a value that fits the width: the text is as long as the width, starts with the prefix, and all the rest are digits, with no blank, that read as the value's magnitude. |
| `Conversions.AddressHeader` | kernel.c:632 | An address below 2^24 under 0x%06X and a blank prints as 0x, six upper-case digits that read as the address, and a blank. |
| `Conversions.OtherText` | lib.c:227-298 | s, c and every character that is no conversion, given the argument they take: the string cut to the precision, the character unless it is NUL, or the character itself, a percent sign at the end of the format; blanks fill the width on the side the - flag says, and no other flag plays a part. |
| `Conversions.ColourText` | lib.c:230-232 | C takes its number and prints nothing, whatever the flags, width and precision. |
| `Conversions.WidthIs` | lib.c:163-172 | A width is a number that starts with 1 to 9, read to its last digit, or * and the next int argument, or absent. |
| `Conversions.PrecisionIs` | lib.c:174-189 | A precision is a dot and a number read to its last digit, or * and the next int argument but at least 0, or nothing, which is 0; without a dot it is absent. |
| `Conversions.DirectiveReads` | lib.c:145-246 | A conversion written as flags in any order, a width other than 0 or none, a precision or none, any l and z, and a character that is none of these, whatever stands before and behind it: it is read to its end, with exactly those flags, that width and that precision, as long exactly when an l or z is there. |
| `Printer.WrittenNumber` | lib.c:165-182 | A width or precision written out is read as the decimal number it is, to its last digit. |
| `Printer.ZerosParse` | lib.c:274-292 | Leading zeros do not change the number read back. |
| `Printer.StringPrinter.Putc` | lib.c:350-356 | The buffer holds the longest prefix of what was printed that fits; nothing from its end on is touched. |
| `Printer.StringPrinter.PutItem` | lib.c:248-298 | Padding, prefix, zeros and body are printed as the layout function says. |
| `Printer.StringPrinter.VPrintf` | lib.c:142-301 | The scanning loops print exactly the rendering of the format, and stop where C leaves the call undefined. |
| `Printer.Vsnprintf` | lib.c:358-368 | The buffer gets the longest prefix of the whole rendering that fits in size - 1 and a NUL; nothing from size on is touched; without a size nothing is written. |
| `Dumps.PhysicalLineIs` | kernel.c:720-727 | The printed line as words: the label, the tick, owner and count of each page in decimal. |
| `Dumps.VirtualLineIs` | kernel.c:732-747 | The printed line as words: the label, the name with its own blank, the tick, and three numbers for each page. |
| `Dumps.NameIs` | kernel.c:752-760 | snprintf into four characters keeps every process number and its blank whole. |
| `Timelines.PhysicalLineParses` | parse_log.py:167-180 | A memory dump read back: owners modulo 256 and reference counts under its tick. |
| `Timelines.VirtualLineParses` | parse_log.py:181-196 | A process's dump read back: owner, count, user bit and permissions of each of the 768 pages. |
| `Timelines.DumpParses` | parse_log.py:157-198 | A whole dump at a new tick, of a state whose pages are in range and ticks below 2^32, reads back as the snapshot of the state, whatever was read before and follows. |
| `Timelines.DumpStarts` | kernel.c:359-362 | The first line of a dump is that of memory. |
| `Timelines.LogParses` | parse_log.py:157-198 | Dumping and parsing undo each other: the log of dumps at distinct ticks reads back without an exception as exactly their snapshots. |
| `Timelines.LogParsesExactly` | parse_log.py:58-65 | A log of dumps, read into a timeline whose ticks all have a memory dump, raises no exception exactly when no tick is dumped twice or was there before. |
| `Timelines.LineReadExactly` | parse_log.py:157-197 | A line raises no exception exactly when: if it starts with PM_DUMP, it has 1027 tokens, numbers behind the first and before the last, and its tick has no memory dump yet; if it starts with VM_DUMP, it has 2308 such tokens and its tick does not have the process yet. |
| `Timelines.RecordedAt` | parse_log.py:161-162 | Each snapshot is found under its tick and no other tick has changed. |
| `Timelines.PanicExactly` | parse_log.py:196-197 | Reading lines without an exception leaves panic set exactly when it was set before or some line starts with PANIC: Unexpected exception 52! |
| `Timelines.SnapshotPasses` | parse_log.py:69-143 | In every state that satisfies the invariant, with a table for every process and ticks below 2^32, the dump has an entry for every process and no other, with the owners modulo 256, counts and permissions of the state, and IsKernelIsolated, AreProcessesIsolated, CheckOwnershipInvariant and CheckCGAAccessInvariant hold. |
| `Timelines.RunDumpsPass` | parse_log.py:69-143 | So it does in every state, reached by a run that RunOk allows, in which check_virtual_memory has passed and ticks are below 2^32. |
| `LogChecks.KernelIsolatedExactly` | parse_log.py:69-80 | On the dump of any state whose mapped pages are pages of memory and whose ticks are below 2^32: IsKernelIsolated exactly when no existing process maps a page below 256, other than 184, with U. |
| `LogChecks.ProcessesIsolatedExactly` | parse_log.py:82-91 | On such a dump: AreProcessesIsolated exactly when no existing process maps a page from 256 to 767 with U to a page whose owner modulo 256 is neither 0 nor its own number. |
| `LogChecks.OwnershipExactly` | parse_log.py:124-136 | On such a dump: CheckOwnershipInvariant exactly when every existing process has U on every page from 256 to 767 that it maps to a page whose owner modulo 256 is its own number, a number other than 0. |
| `LogChecks.CGAAccessExactly` | parse_log.py:138-143 | On such a dump: CheckCGAAccessInvariant exactly when every existing process maps page 184 with U. |
| `LogChecks.ChecksFail` | parse_log.py:69-143 | For each check a snapshot on which it alone fails, for AreProcessesIsolated one with a lower and one with a higher owner. |
| `RunLogs.DumpedIsSound` | kernel.c:359-362 | Whenever a run that RunOk allows goes on after a dump at a tick below 2^32, the state dumped passes all four checks. |
| `RunLogs.LoggedExactly` | kernel.c:359-399 | In a running state that satisfies the invariant an event logs a dump exactly if it is interrupt 32 at a tick divisible by 100, a line Out of memory exactly if it is interrupt 51 and no page has owner 0 and no reference, and nothing else. |
| `RunLogs.RunLogParses` | parse_log.py:157-198 | The log of a run that RunOk allows and that has not panicked, before ticks wrap, out-of-memory lines included and whatever follows, is read without an exception as exactly the snapshots of the states dumped, each under a tick of its own, and all four checks hold on each. |
| `RunLogs.LogReadsBack` | parse_log.py:157-198 | So parse_log.py on the whole log of such a run gives exactly that timeline, and no panic. |
| `RunLogs.RecordedTicks` | kernel.c:359-362 | A tick is in the timeline of a run whose dumped states can be dumped exactly when it is divisible by 100 and a timer interrupt found the machine running at it. |
| `RunLogs.TicksPassed` | kernel.c:413-414 | Over a run that RunOk allows and that has not panicked, before ticks wrap: the count is the first one plus the timer interrupts that found the machine running, and one of them found it at each count passed, and only there. |
| `RunLogs.BootedTicks` | kernel.c:359-362 | From power-on, if kernel() reaches the first process, for a run that RunOk allows, without a panic and with fewer than 2^32 timer interrupts: after T of them that found the machine running, the timeline has exactly the ticks 0, 100, 200 and so on below T. |
| `RunLogs.RunTicks` | kernel.c:413-414 | Over a run that RunOk allows, until the count wraps, each timer interrupt that does not panic adds one tick and nothing else changes it. |
| `Timelines.MemMapTimeline.constructor` | parse_log.py:158-162 | An empty timeline without a panic. |
| `Timelines.MemMapTimeline.Load` | parse_log.py:164-198 | The constructor's loop: the timeline after all lines, or an exception exactly where the line-by-line reading has one. |
| `Timelines.MemMapTimeline.ParseLine` | parse_log.py:167-198 | One line: which dump it is, its tokens, and the entry added; an exception for a wrong count, a token that is no number, or a dump already there. |
| `Machines.Machine.AssignPhysicalPage` | kernel.c:312-322 | In place: 0 and the owner set exactly when the address is aligned, in range and unreferenced; otherwise -1 and no change. |
| `Machines.Machine.GetFreeAddr` | kernel.c:235-246 | The scan loop refines the allocator whose properties Pages proves. |
| `Machines.Machine.PagetableAlloc` | kernel.c:223-230 | A free page, cleared, for the owner in the global; or NULL. |
| `Machines.Machine.LookupL4Pagetable` | k-hardware.c:349-381 | The descending loop, with tables allocated and linked in place, refines the walk. |
| `Machines.Machine.VirtualMemoryMap` | k-hardware.c:312-343 | The cached loop in place, with its argument assertions, refines the map of MapRanges. |
| `Machines.Machine.VirtualMemoryLookup` | k-hardware.c:388-405 | The loop with its running rights computes the lookup. |
| `Machines.Machine.CopyPagetable` | kernel.c:190-214 | In place, the global owner included, it refines the copy that CopyTableCopies describes. |
| `Machines.Machine.CopyUserPage` | kernel.c:267-276 | One turn of fork's loop in place. |
| `Machines.Machine.CopyUserPages` | kernel.c:266-288 | fork's loop in place refines the loop of Forking. |
| `Machines.Machine.MemcpyPage` | kernel.c:275-275 | One page of memory becomes the content copied, all others stay. |
| `Machines.Machine.Fork` | kernel.c:251-302 | The search for a slot and the work on it, in place, is the transition whose properties ForkTheorem proves. |
| `Machines.Machine.SetPagetable` | k-hardware.c:413-424 | Do the four assertions hold? |
| `Machines.Machine.CheckPageTableMappings` | kernel.c:517-539 | The loop decides the check on kernel memory and stack. |
| `Machines.Machine.CheckPageTableOwnershipLevel` | kernel.c:565-579 | The recursion over levels, which terminates, decides the ownership check. |
| `Machines.Machine.CheckVirtualMemory` | kernel.c:586-614 | The loops decide the whole check. |
| `Machines.Machine.Run` | kernel.c:476-488 | run, as the transition of the state. |
| `Machines.Machine.Schedule` | kernel.c:457-467 | The search in place picks the process the round-robin results are about. |
| `Machines.Machine.PageAlloc` | kernel.c:385-402 | INT_SYS_PAGE_ALLOC in place, as the transition that PageAllocKeeps and RequestKeepsExactly are about. |
| `Machines.Machine.Dispatch` | kernel.c:370-450 | The switch and the return to user code in place. |
| `Machines.Machine.Exception` | kernel.c:336-450 | exception in place is the transition that the results on runs are about. |
| `Machines.Machine.PageinfoInit` | kernel.c:494-510 | Every page gets its initial owner and count, as page numbers: 0 and 0xA0 to 0xFF reserved, 0x7F and 0x40 up to the kernel's end the kernel's, all others free. |
| `Machines.Machine.ProgramLoadSegment` | k-loader.c:80-124 | Assigning, mapping, copying and clearing in place refines the loader whose placement Loader proves. |
| `Machines.Machine.ProgramLoad` | k-loader.c:48-70 | The loop over the headers in place, and the entry point. |
| `Machines.Machine.VirtualMemoryInit` | k-hardware.c:271-287 | The five kernel tables cleared and linked, and all of memory mapped. |
| `Machines.Machine.ProcessSetup` | kernel.c:147-180 | process_setup in place is the transition ProcessSetupPrepares is about, unless it panics. |
| `Machines.Machine.Start` | kernel.c:85-132 | kernel() in place, from arbitrary contents of memory, reaches the state KernelStarts is about, unless it panics. |
| `Machines.Machine.MemdumpPhysical` | kernel.c:720-727 | The loop prints exactly the line that PhysicalLineParses reads back. |
| `Machines.Machine.MemdumpVirtual` | kernel.c:732-747 | The loop prints exactly the line that VirtualLineParses reads back. |
| `Machines.Machine.MemdumpVirtualAll` | kernel.c:752-760 | One such line for every process that exists, named by snprintf. |
| `Machines.Machine.Memdump` | kernel.c:359-362 | Both dumps together are the dump that DumpParses reads back. |

## Left out

- WaitIsBounded: counts turns, not time; how often the timer fires is not modelled.
- RunKeepsInv: like RunPassesChecks, RunPanicsExactly, RunIsolates, RunUndisturbed, StepTurns, WaitIsBounded, BootedRunKeepsInv, AllocatorRuns and RunDumpsPass, it says nothing about runs with a page-aligned request below PROC_START_ADDR while a page is free; RunKeepsExactly shows that those are exactly the runs that lose the invariant.
- ForkProtocolHolds: is about runs in which all forks succeed, as the program's own assertions ask; the pages it asks for after its check are taken to be of its heap.
- LogReadsBack: for fewer than 2^32 timer interrupts, after which ticks wrap; a build that dumps powers off at TICK_LIMIT, long before.
- VPrintf: colours are consumed but not modelled; int overflow of widths written out in a format is not modelled.
- Schedule: where the kernel would search for ever because nothing is runnable, the model stops with the status Spinning.
- Exception: console drawing, the keyboard check and the dumps that a build with TICK_LIMIT makes here are not part of the transition; Memdump is the dump by itself, and RunLogs places the dumps in a run.
- Reads of physical memory at or above 2 MB find empty words; the real machine may have memory there. No reachable state reads there.
- Words are modelled as 52 bits of frame and 12 of flags; WordRoundTrip shows nothing is lost. The int pn of a lookup is modelled as the whole page number; only the dumps use it, which are modelled for pages of memory.
- Linker addresses (the kernel's end and data, its tables, two functions) are parameters constrained as the kernel's link script places them.
- The TLB, large pages, accessed and dirty bits, segments, interrupts while the kernel runs, and port I/O: hardware effects without an internal property.
- memshow and console printing, console_printf and its cursor: user interface.
- Images are taken to have p_filesz at most p_memsz, addresses from PROC_START_ADDR on, and the data their headers point to.
- Freed pages and exit: there is no exit handler, so INT_SYS_EXIT is one of the interrupts that panic, and pages are never freed.
- parse_log.py: the grading flow and its checks IsVPAUsed, AreProcessAddressesOverlapping and IsForkOK, which are goals of exercises rather than invariants; what Python's int() accepts besides decimal digits.
- rand and srand: the client programs allocate or yield as they please.
