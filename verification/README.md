# Orthox-64 kernel: a verified model

This project models the shared layer of the Orthox-64 kernel in Dafny and proves what
that layer is for. It has five parts.

- **Memory.** The page allocator with its bitmap, reference counts and next-fit origin
  (`PmmSpec`, `Pmm`, `PmmProps`, `PmmEffects`). Copy-on-write sharing, first one operation at a time
  (`CowSpec`, `Cow`, `CowProps`, `CowRun`), against a specification in which fork copies
  every page at once (`Eager`); then as an interleaving of fault handlers, forks that
  succeed or fail and unmappings of several address spaces with stale cached translations on every CPU
  (`CowSmp`, `CowSmpProps`, `CowSmpRun`, `CowSmpProgress`). The mapping system calls on top of it
  (`MmapSpec`, `Mmap`, `MmapProps`, `MmapMemory`, `MmapRange`, `Mremap`, `MmapLimits`), the growth of
  the stack on a fault (`StackGrow`), and runs from boot in which they fall short
  (`MmapFails`).
- **Scheduling.** The run queues as linked lists (`RunQueue`). The scheduler of all CPUs
  as a step system: everything done in one hold of the task lock is one step, a context
  switch is another (`SchedSpec`, `SchedProps`, `SchedSteps`, `SchedLife`, `SchedRun`,
  `SchedDispatch`, `SchedEffects`, `SchedStories`).
- **Pipes, polling and descriptors.** The byte ring and the four-slot wait queues
  (`Pipe`). Readers, writers, closers and pollers as a step system (`PipeSmp`,
  `PipeSmpProps`, `PollProps`, `PollRun`, `PollFails`, `PollProgress`, `PipeStream`,
  `PipeProgress`). Shared open-file
  objects and their counts (`FdSpec`, `FileTable`, `FdProps`, `FdRun`, `FdEffects`).
- **xHCI rings.** The transfer ring with its Link entry (`XhciRing`), the event ring and
  the completion stash (`XhciEvents`, `XhciRun`).
- **Program images and byte stores.** The first stack of a program (`ExecSpec`, `Exec`,
  `ExecProps`, `ExecImage`), ELF loading (`ElfSpec`, `Elf`), the paged memory file system
  (`RamfsSpec`, `Ramfs`), path canonicalisation (`PathSpec`, `Path`).

`Prelude`, `Words`, `Pages` and `Rings` hold shared definitions. Where the kernel updates
state in place, a class does the same and every method is proved against a function on
values; the promises are then lemmas about those functions, over whole histories where
the kernel promises something of histories.

Assumptions taken from the code base: at most 65534 sharers of a frame in the run
theorems (`ShareExactIff` says exactly what happens at the bound); the page at address 0
is not handed out; a TLB flush reaches every CPU and fork flushes before either side
resumes; one thread per address space; affinity changes only for tasks that have not run;
only a parent reaps; at most four tasks wait on one end of a pipe.

Things the proofs show about the code that its documentation does not say:

- Taking a reference on a free page breaks the allocator's books (`IncrefExactIff`).
- Runs of 2 to 15 pages are not first-fit (`SmallRunSkipsHole`).
- A second wake-up of a queued task sends it to the back (`WakeQueues`).
- A task that is killed while it runs and then marks itself asleep is no longer dead, since
  marking does not look at the status; nothing else revives the dead (`DeadRevivesIff`,
  `KilledSleeperRevives`).
- The branches for a descriptor that cannot be cloned are latent: no opener makes a
  descriptor without a file object that owns a copy, so a fork never fails for one and
  dup2 always leaves both descriptors naming one object (`ClonesNeverFail`). Were there
  one, a dup2 without memory would have closed its target already (`ReplaceNames`).
- A poll for neither input nor output misses the hang-up (`HangupWakesIff`,
  `SilentPollOversleeps`), and a read of zero bytes from a full pipe takes a running
  poller's registration away (`HeldIff`, `HoldIsExact`, `EmptyReadLosesWakeup`).
- Mapping a page over another loses the reference the other held (`MapExactIff`). Stack
  growth does not look whether something is there: its counts stay exact if and only if
  nothing of the allocator's was (`GrowExact`, `GrowthLosesFrame`). The mmap window ends
  below the stack's limit, so only a program image can put a page there.
- The bound of 254 outstanding transfer entries is exact (`OneMoreStopsController`,
  `OneMoreIsReached`). A drain loses completions uncounted.
- ELF loading needs as many free pages as the segments touch; with fewer it stops part way
  and returns as if it had succeeded (`Load`).
- mmap misses a gap that lies across its hint (`GapCompleteIff`, `StraddlingGapMissed`,
  and from boot `StraddledRequestRefused`).
- mmap with MAP_FIXED that runs out of memory has already dropped what was there
  (`FailedMmapAtHarmlessIff`, and from boot `FailedFixedLosesPage`), and mremap that moves
  a range from outside the mmap window leaves the old pages mapped (`MremapKeeps`, and from
  boot `MovedRangeStays`).
- A relative path of 255 bytes can lose its last byte (`CanonicalizeInPlace`,
  `LongNameIsCut`).
- Cutting and regrowing a memory file shows the old bytes (`RegrowShowsOldBytes`,
  `RegrownByteIsOld`): it reads as one buffer throughout if and only if no call brings back
  a byte that is not zero (`RunIsFlatIff`).
- The initial stack pointer is a multiple of 8, and of 16 only for some arguments
  (`AlignedIff`, `ShIsMisaligned`), where section 3.4.1 of the AMD64 psABI asks for 16 always.

## Model

| member | source | states |
|---|---|---|
| `PmmSpec.LowestRun` | kernel/pmm_core.c:141-154 | the result is a free run inside the range and no lower one exists; it is None only when there is none |
| `PmmSpec.LowestRunUnique` | kernel/pmm_core.c:141-154 | a free run with no free run below it is the one returned |
| `Pmm.PageAllocator.constructor` | kernel/pmm_core.c:60-81 | a new allocator has every page used, every count 0 and its origin at page 0 |
| `Pmm.PageAllocator.Scan` | kernel/pmm_core.c:141-154 | the run-counting scan finds exactly the lowest free run of the range |
| `Pmm.PageAllocator.FindRun` | kernel/pmm_core.c:158-185 | the two-part search (origin to end, then start to just past the origin) finds what the specification says, straddling runs included |
| `Pmm.PageAllocator.Claim` | kernel/pmm_core.c:158-191 | bits, used count and origin after a claim, and its failure |
| `Pmm.PageAllocator.Release` | kernel/pmm_core.c:194-204 | bits and used count after a release, with the origin moved back to it |
| `Pmm.PageAllocator.Alloc` | kernel/pmm_core.c:244-257 | a claimed run gets one reference per page; the address returned, or 0 for failure |
| `Pmm.PageAllocator.FreeOne` | kernel/pmm_core.c:261-275 | one page: the count falls, and at 0 the page returns to the bitmap |
| `Pmm.PageAllocator.Free` | kernel/pmm_core.c:261-275 | a run of pages is let go one by one |
| `Pmm.PageAllocator.Incref` | kernel/pmm_core.c:277-283 | one more reference, saturating at 65535, for managed pages only |
| `Pmm.PageAllocator.GetRef` | kernel/pmm_core.c:285-293 | the count of a managed page, 0 for any other |
| `Pmm.PageAllocator.MarkFree` | kernel/pmm_core.c:83-94 | the whole pages inside a byte range become free, outside ones are ignored |
| `Pmm.PageAllocator.MarkUsed` | kernel/pmm_core.c:96-107 | every page touched by a byte range becomes used |
| `Pmm.PageAllocator.ReservePage` | kernel/pmm_core.c:109-122 | a free managed page becomes used with one reference |
| `PmmProps.ClaimComplete` | kernel/pmm_core.c:158-191 | a claim succeeds exactly when a free run of that length exists anywhere, also across the origin |
| `PmmProps.ClaimIsLowestIff` | kernel/pmm_core.c:158-191 | the claimed run is the lowest one exactly when no run lies wholly below the origin's search |
| `PmmProps.SetupExact` | kernel/pmm_core.c:60-81 | after setup the books are exact, no page is free and none referenced |
| `PmmProps.ClaimExact` | kernel/pmm_core.c:158-257 | a claim or allocation keeps the books exact |
| `PmmProps.FreeOneReturnsLast` | kernel/pmm_core.c:261-275 | a page returns to the bitmap exactly when its last reference goes |
| `PmmProps.FreeExact` | kernel/pmm_core.c:261-275 | freeing keeps the books exact |
| `PmmProps.MarkFreeExact` | kernel/pmm_core.c:83-94 | painting free keeps the books exact for unreferenced pages |
| `PmmProps.MarkUsedExact` | kernel/pmm_core.c:96-107 | painting used keeps the books exact |
| `PmmProps.ReserveExact` | kernel/pmm_core.c:109-122 | reserving keeps the books exact |
| `PmmProps.IncrefExactIff` | kernel/pmm_core.c:277-283 | taking a reference keeps "free means count 0" if and only if the page is in use or unmanaged |
| `PmmProps.RunExact` | kernel/pmm_core.c:60-293 | over every history the used count is the number of set bits and a free page has count 0 |
| `PmmProps.RunIsFirstFit` | kernel/pmm_core.c:141-204 | after boot painting, in every history of 1-page and 16-or-more-page claims with any releases, a claim returns the lowest free run |
| `PmmProps.SmallRunSkipsHole` | kernel/pmm_core.c:158-191 | a history from boot in which a 2-page claim moves the origin over a hole, and the next 1-page claim is not the lowest |
| `PmmProps.FreeRunEffect` | kernel/pmm_core.c:194-204 | freeing a run clears exactly its pages |
| `PmmProps.AllocThenFree` | kernel/pmm_core.c:244-275 | allocating and freeing a run restores bitmap, counts and used count |
| `PmmEffects.ClaimEffect` | kernel/pmm_core.c:158-191 | a claim makes exactly the pages of the run it found used and adds their number to the count; a failed one changes neither |
| `PmmEffects.AllocEffect` | kernel/pmm_core.c:244-257 | every page of an allocated run was free, is used and has one reference; no other page changes |
| `PmmEffects.FreeEffect` | kernel/pmm_core.c:261-275 | each page of the range with a reference loses one, and those that lose their last become free |
| `PmmEffects.ReleaseEffect` | kernel/pmm_core.c:194-204 | the raw release makes exactly its range free when it starts at a managed page |
| `PmmEffects.IncrefEffect` | kernel/pmm_core.c:277-283 | one page gains one reference, up to 65535 |
| `PmmEffects.ReserveEffect` | kernel/pmm_core.c:109-122 | the page is in use, with a reference if it was free; no other changes |
| `PmmEffects.RunKeepsPage` | kernel/pmm_core.c:60-293 | over any history a page stays in use unless a call gives it back |
| `PmmEffects.LiveRunsAreDisjoint` | kernel/pmm_core.c:244-257 | two allocations with any history between them that gives no page of the first back share no page |
| `Cow.AddressSpaces.ShareLeaf` | kernel/vm_cow.c:20-36 | fork's treatment of one leaf: marked on both sides and counted, or handed over if not owned |
| `Cow.AddressSpaces.WriteFault` | kernel/vm_cow.c:47-87 | the write fault: not marked, copied when shared, taken over when not, out of memory; `WriteFaultRefines` says when each |
| `Cow.AddressSpaces.ProtectPage` | kernel/vm_cow.c:94-108 | mprotect of one page: writable becomes marked while shared |
| `Cow.AddressSpaces.GetPageProt` | kernel/vm_cow.c:110-120 | a marked page reads as writable |
| `Cow.AddressSpaces.DropPage` | kernel/sys_mmap.c:96-102 | unmap, then let the frame go |
| `Cow.AddressSpaces.MapPage` | kernel/sys_mmap.c:204-220 | a new frame mapped, or no memory |
| `CowProps.ShareLeafRefines` | kernel/vm_cow.c:20-36 | sharing a leaf looks like copying the page at once, and counts stay exact |
| `CowProps.ShareExactIff` | kernel/vm_cow.c:20-36 | the count stays the number of mappers if and only if it was below 65535 |
| `CowProps.WriteFaultRefines` | kernel/vm_cow.c:47-87 | a write fault changes nothing any space sees and keeps counts exact; it runs out of memory if and only if the page is marked, its frame shared and every page used, refuses if and only if the page is not logically writable, and otherwise makes it writable |
| `CowProps.LastMapperRefines` | kernel/vm_cow.c:81-86 | the last mapper takes the frame over: handled, with no page taken or copied and only its own leaf changed |
| `CowProps.NoFrameIff` | kernel/vm_cow.c:70-71 | a frame cannot be had if and only if every page is used |
| `CowProps.UserStoreRefines` | kernel/vm_cow.c:38-87 | a store takes effect if and only if the page is logically writable and it is not the case that its frame is shared under a mark and every page used; it then changes that page's view alone, and otherwise nothing |
| `CowProps.ProtectRefines` | kernel/vm_cow.c:94-108 | mprotect sets the logical protection of one page and nothing else |
| `CowProps.PageProtIsView` | kernel/vm_cow.c:110-120 | the protection read is the logical one |
| `CowProps.MapRefines` | kernel/sys_mmap.c:204-220 | mapping a page adds it for one space and nothing else |
| `CowProps.MapExactIff` | kernel/sys_mmap.c:204-220 | mapping keeps the counts exact if and only if the address held no page, or a device page |
| `CowProps.MapDeviceRefines` | include/vm_cow.h:7-62 | device frames stay shared and uncounted |
| `CowProps.DropRefines` | kernel/sys_mmap.c:96-102 | unmapping removes one page of one space and nothing else |
| `CowProps.DropState` | kernel/pmm_core.c:261-275 | the frame returns to the bitmap exactly when this was its last leaf |
| `CowRun.CopyWalkIsFork` | kernel/riscv64/vm.c:171-201 | the walk over all leaves is the copy of all pages |
| `CowRun.ForkRefines` | kernel/riscv64/vm.c:171-201 | fork refines copying every page of the parent |
| `CowRun.FailedForkIsUnseen` | kernel/riscv64/vm.c:490-504 | a fork that runs out of tables part way changes nothing any space sees, and counts stay exact |
| `CowRun.StepRefines` | kernel/vm_cow.c:20-120 | each operation refines its eager counterpart |
| `CowRun.RunRefines` | kernel/vm_cow.c:20-120 | over every run of fork, failed fork, store, mprotect, mmap, munmap and exit, each space reads the bytes and has the protection eager copying would give it, and every count is the number of leaves: none lost, none left over |
| `CowRun.BootRunRefines` | kernel/vm_cow.c:20-120 | the same from any booted machine: nothing mapped, and no count but that of each page the kernel keeps |
| `CowSmpProps.CachedFramesAreHeld` | kernel/vm_cow.c:38-87 | no cached translation names a frame without a reference |
| `CowSmpProps.StoreIsPrivate` | kernel/vm_cow.c:38-87 | a store through any cached translation hits a frame only its own space holds |
| `CowSmpProps.FaultKeeps` | kernel/vm_cow.c:47-66 | entering the fault handler keeps the invariant |
| `CowSmpProps.ReadCountKeeps` | kernel/vm_cow.c:68-69 | reading the count without a lock keeps the invariant: a count of 1 can only be the handler's own |
| `CowSmpProps.TakeFrameKeeps` | kernel/vm_cow.c:70-71 | taking a frame for the copy keeps the invariant |
| `CowSmpProps.CopyPageKeeps` | kernel/vm_cow.c:72-77 | copying the contents keeps the invariant |
| `CowSmpProps.InstallKeeps` | kernel/vm_cow.c:78 | writing the new leaf keeps the invariant, the old frame still held |
| `CowSmpProps.InstallLastKeeps` | kernel/vm_cow.c:81-83 | taking the frame over keeps the invariant |
| `CowSmpProps.FlushKeeps` | kernel/vm_cow.c:79-84 | the flush keeps the invariant |
| `CowSmpProps.LetGoKeeps` | kernel/vm_cow.c:79-80 | letting the old frame go after the flush keeps the invariant |
| `CowSmpProps.ProtectKeeps` | kernel/vm_cow.c:94-108 | mprotect of one page after another before one flush, between other spaces' steps, keeps the invariant |
| `CowSmpProps.MapNewKeeps` | kernel/sys_mmap.c:204-220 | mapping a new page keeps the invariant |
| `CowSmpProps.UnmapKeeps` | kernel/sys_mmap.c:96-102 | removing a leaf keeps the invariant, its frame held until after the flush |
| `CowSmpProps.ForkMarkKeeps` | kernel/vm_cow.c:20-36 | marking the parent's leaf before the count is raised keeps the invariant |
| `CowSmpProps.ForkShareKeeps` | kernel/vm_cow.c:20-36 | raising the count and giving the child its leaf keeps the invariant |
| `CowSmpProps.ForkEndKeeps` | kernel/riscv64/vm.c:171-201 | the final flush of a fork keeps the invariant |
| `CowSmpProps.ForkFailKeeps` | kernel/riscv64/vm.c:494-501 | the flush of a fork that ran out of tables keeps the invariant |
| `CowSmpProps.ForkDropKeeps` | kernel/riscv64/vm.c:238-243 | giving back one page of the half-made child, between other spaces' steps, keeps the invariant |
| `CowSmpProps.ForkUndoneKeeps` | kernel/riscv64/vm.c:499-502 | the parent's return from a failed fork keeps the invariant |
| `CowSmpRun.StepKeeps` | kernel/vm_cow.c:20-120 | every step of every space and CPU keeps the invariant |
| `CowSmpRun.StoreView` | kernel/vm_cow.c:38-87 | a store is to a logically writable page and changes that page's view alone |
| `CowSmpRun.StepRefines` | kernel/vm_cow.c:20-120 | each step changes what the spaces see as eager copying would; handler, flush and cache steps are invisible |
| `CowSmpRun.ForkEndCopies` | kernel/riscv64/vm.c:171-201 | when parent and child resume, the child sees exactly the parent's pages and no CPU caches a translation of the parent |
| `CowSmpRun.ForkUndoneLeavesNothing` | kernel/riscv64/vm.c:490-504 | when a parent resumes after a failed fork, the child has no page, no thread and no cached translation |
| `CowSmpRun.RunRefines` | kernel/vm_cow.c:20-120 | every interleaving shows each space the bytes and protections of eager copying |
| `CowSmpRun.ReadShowsView` | kernel/vm_cow.c:38-87 | a read through any cached translation by a running thread shows its space's page |
| `CowSmpRun.ReachableIsSafe` | kernel/vm_cow.c:38-87 | in every reachable state a count is the number of leaves and in-flight references, cached frames are referenced, and cached reads of running threads show their own pages |
| `CowSmpProgress.FaultMakesWritable` | kernel/vm_cow.c:47-87 | the handler's own steps end with the page writable, given a free frame if one is needed, and change nobody's view |
| `CowSmpProgress.StoreGoesThrough` | kernel/vm_cow.c:38-87 | and the store then goes through on any CPU and changes that page's view alone |
| `CowSmpProgress.UnmapReturns` | kernel/sys_mmap.c:96-102 | an unmapping returns with the page gone and one reference less on its frame |
| `CowSmpProgress.ForkCompletes` | kernel/riscv64/vm.c:171-201 | a fork runs to its end: the child sees every page as the parent saw it, and no other view has changed |
| `CowSmpProgress.FailedForkUnwinds` | kernel/riscv64/vm.c:490-504 | a fork that fails at any point runs back: the child is gone and every other space sees what it saw |
| `MmapSpec.FirstGap` | kernel/sys_mmap.c:106-114 | the lowest unmapped run of the range, None only if there is none |
| `Mmap.Mappings.RangeUnmapped` | kernel/sys_mmap.c:72-77 | true exactly when no page of the range is mapped |
| `Mmap.Mappings.FindGapFrom` | kernel/sys_mmap.c:106-114 | the search loop returns the lowest gap |
| `Mmap.Mappings.FindGap` | kernel/sys_mmap.c:116-125 | from the hint up, then from the bottom to the hint |
| `Mmap.Mappings.MapPages` | kernel/sys_mmap.c:203-221 | all pages are mapped, or those mapped are dropped again |
| `Mmap.Mappings.Map` | kernel/sys_mmap.c:148-226 | mmap without MAP_FIXED, with its failure paths |
| `Mmap.Mappings.MapAt` | kernel/sys_mmap.c:182-226 | mmap with MAP_FIXED: refused outside the window, else the range is cleared and mapped; the next search starts no lower |
| `Mmap.Mappings.Protect` | kernel/sys_mmap.c:281-327 | every page is looked at before any is changed |
| `Mmap.Mappings.Unmap` | kernel/sys_mmap.c:228-253 | the range is dropped, or refused outside the window |
| `Mmap.Mappings.Remap` | kernel/sys_mmap.c:345-455 | a range with a hole is refused; the first page's protection is carried over; shrink, grow in place, move or refuse |
| `MmapProps.GapIsFree` | kernel/sys_mmap.c:116-125 | the gap returned is inside the window and unmapped |
| `MmapProps.GapCompleteIff` | kernel/sys_mmap.c:116-125 | the search fails if and only if every gap lies across the hint |
| `MmapProps.StraddlingGapMissed` | kernel/sys_mmap.c:116-125 | a gap across the hint is missed although it would serve |
| `MmapProps.FailedMapRestores` | kernel/sys_mmap.c:203-215 | running out of memory part way restores page map, bitmap, counts and used count, and every space reads what it read |
| `MmapProps.MmapFrames` | kernel/sys_mmap.c:148-226 | a successful mmap adds its pages in an unmapped range of the window and changes nothing else; a failed one restores everything |
| `MmapMemory.AllocIffFree` | kernel/pmm_core.c:158-191 | a page can be had if and only if one is free |
| `MmapMemory.MapTopIs` | kernel/sys_mmap.c:203-221 | mapping stops exactly where the free pages end |
| `MmapMemory.MmapSucceedsIff` | kernel/sys_mmap.c:148-226 | mmap succeeds if and only if its search finds a gap and enough pages are free |
| `MmapRange.MprotectExact` | kernel/sys_mmap.c:281-327 | every page of a range without holes gets the protection, shared or not, and nothing else changes; with a hole nothing changes |
| `MmapRange.MprotectReadsBack` | kernel/vm_cow.c:94-120 | the protection set is the one read back, also of shared pages |
| `MmapRange.MmapAtReplaces` | kernel/sys_mmap.c:182-226 | MAP_FIXED replaces exactly its range; without memory the range is left empty |
| `MmapRange.FailedMmapAtHarmlessIff` | kernel/sys_mmap.c:182-215 | a failed MAP_FIXED changes nothing anyone sees if and only if the range held no page |
| `MmapProps.DropToLoses` | kernel/sys_mmap.c:228-253 | munmap removes exactly the range from one space |
| `Mremap.CopyRangeSeen` | kernel/sys_mmap.c:440-448 | copying frame to frame changes the new pages only |
| `Mremap.MremapKeeps` | kernel/sys_mmap.c:345-455 | without MREMAP_FIXED, of any range: the first min(old, new) pages keep their bytes, growth reads as zero with the protection of the first page, every other mapping is left alone, the old pages go unless they lie outside the window; a refusal changes nothing, and a range with a hole is refused |
| `MmapLimits.InWindowIff` | kernel/sys_mmap.c:62-70 | a range is valid if and only if it has pages and all lie in the window |
| `MmapLimits.DropFrees` | kernel/sys_mmap.c:96-102 | dropping a range gives back exactly the frames mapped nowhere else |
| `MmapLimits.MmapAtSucceedsIff` | kernel/sys_mmap.c:182-226 | MAP_FIXED succeeds if and only if the range is in the window and the free pages, with those only the range holds, suffice |
| `MmapLimits.MremapSucceedsIff` | kernel/sys_mmap.c:345-455 | when mremap stays, moves and is refused, from the page map and the free pages alone |
| `StackGrow.GrowExact` | kernel/task_exec.c:243-274 | a fault is dealt with if and only if it is below the stack and within the limit of its top; then, over whatever is mapped there, the pages down to the fault, or as many as are free, appear zeroed and nothing else changes; growth reaches the fault if and only if enough pages are free; counts stay exact if and only if no page of the allocator was in the way |
| `StackGrow.GrowExactIff` | kernel/task_exec.c:263-272 | the same condition for the loop alone, from any bottom |
| `StackGrow.GrowKeepsWhole` | kernel/task_exec.c:243-274 | a stack without gaps and with nothing below it stays so |
| `StackGrow.FaultsKeepStack` | kernel/task_exec.c:243-274 | over any faults the stack stays whole and inside its limit and never shrinks |
| `MmapFails.FailedFixedLosesPage` | kernel/sys_mmap.c:182-215 | from boot: one page, shared by fork; MAP_FIXED over it fails and the page is gone |
| `MmapFails.FixedOverShared` | kernel/sys_mmap.c:182-215 | the same for any shared page of any machine with no page free |
| `MmapFails.StraddledRequestRefused` | kernel/sys_mmap.c:116-125 | from boot: two pages asked for with the hint inside the only gap are refused, and given with the hint at its start |
| `MmapFails.MovedRangeStays` | kernel/sys_mmap.c:345-455 | from boot: a page below the window grows, moves into the window, and is still at its old place too |
| `MmapFails.GrowthLosesFrame` | kernel/task_exec.c:263-272 | from boot: stack growth over a mapped page leaves a frame with a reference nobody holds |
| `StackGrow.UserStack.Fault` | kernel/task_exec.c:243-274 | the loop does what is specified, and says whether the fault was in bounds and reached |
| `RunQueue.Queue.Unlink` | kernel/task.c:389-403 | links, head, tail and count match the queue without the task |
| `RunQueue.Queue.Append` | kernel/task.c:412-422 | links, head, tail and count match the queue with the task last; the two assertions on head and tail hold |
| `RunQueue.RunQueues.Remove` | kernel/task.c:389-403 | a marked task leaves the queue of its own CPU; other queues are untouched; the assertion on its state holds |
| `RunQueue.RunQueues.Push` | kernel/task.c:405-423 | the task moves from its old queue to the back of the chosen CPU's and no queue holds it twice |
| `RunQueue.RunQueues.Pop` | kernel/task.c:425-432 | the first task of the CPU, or none when the queue is empty |
| `SchedSpec.FindZombieIsFirst` | kernel/task.c:1037-1052 | the child found is dead, the caller's own and the first such in list order |
| `SchedSteps.WakeKeeps` | kernel/task.c:502-507 | a wake-up is safe at any moment, also for a task that marked itself and has not switched away |
| `SchedSteps.PollSleepKeeps` | kernel/sched.c:116-150 | waking all expired sleepers keeps the invariant |
| `SchedSteps.MarkKeeps` | kernel/task.c:470-500 | marking asleep or dead keeps the invariant |
| `SchedSteps.CancelSleepKeeps` | kernel/task.c:773-783 | taking back one's own sleep keeps the invariant; `CancelEffect` says what it does |
| `SchedSteps.ScheduleKeeps` | kernel/sched.c:44-106 | the locked part of a reschedule keeps the invariant |
| `SchedSteps.SwitchKeeps` | kernel/sched.c:102-105 | the context switch keeps the invariant |
| `SchedSteps.FinishKeeps` | kernel/task.c:575-583 | clearing on_cpu of the task left keeps the invariant |
| `SchedLife.SpawnIs` | kernel/task_fork.c:98-107 | publishing and rebalancing leave the child on exactly the chosen queue |
| `SchedLife.SpawnKeeps` | kernel/task_fork.c:98-107 | a new task keeps the invariant |
| `SchedLife.ReparentKeeps` | kernel/task.c:838-844 | giving living children to process 1 keeps the invariant |
| `SchedLife.FreedIsUnused` | kernel/task.c:517-560 | a task freed is nobody's current task, is not being left, is on no stack in use, no queue, and held by no other parent |
| `SchedLife.ReapKeeps` | kernel/task.c:517-560 | reaping keeps the invariant, whether it frees or refuses |
| `SchedRun.StepKeeps` | kernel/sched.c:44-106 | every critical section and switch of every CPU keeps the invariant |
| `SchedRun.ReachableIsSafe` | kernel/sched.c:44-106 | in every reachable state, for any number of CPUs: no assertion fails; no task or stack is on two CPUs; READY is membership of one queue, once; RUNNING is being current; on_cpu is being current or just left; whatever a CPU uses is alive |
| `SchedRun.ReapIsSafe` | kernel/task.c:1071-1083 | the pointer a parent keeps while it waits is to its own live child, and what is freed is in no CPU's use |
| `SchedDispatch.DispatchedInTurn` | kernel/sched.c:44-106 | with k tasks ahead, k + 1 reschedules of its CPU run a queued task, whatever else happens to others |
| `SchedEffects.WakeTasks` | kernel/task.c:502-507 | a wake-up makes one task ready, clears its deadline and changes no other task |
| `SchedEffects.WakeQueues` | kernel/task.c:405-423 | a wake-up puts the task last on its CPU's queue wherever it was, and changes no other queue |
| `SchedEffects.WakeUndoesMark` | kernel/task.c:470-507 | a wake-up leaves what it would have left had the task not marked itself asleep |
| `SchedEffects.PollWakesTheExpired` | kernel/sched.c:116-150 | exactly the expired sleepers become ready, and each CPU's queue grows by its own in list order |
| `SchedEffects.NobodyOversleeps` | kernel/sched.c:116-150 | after the sweep nobody is asleep past its time, and nobody else was made ready |
| `SchedEffects.ScheduleRunsTheChoice` | kernel/sched.c:44-106 | the head of the queue runs, else the current task if still running, else idle; a task that had not blocked goes to the back; other CPUs are untouched |
| `SchedStories.CancelEffect` | kernel/task.c:773-783 | a task marked asleep runs again without a deadline and unqueued; any other, and everything else, is unchanged |
| `SchedStories.CancelUndoesSleep` | kernel/task.c:470-492 | marking oneself asleep and taking it back leaves the whole state as it was, with no deadline |
| `SchedStories.CancelledGoesOn` | kernel/linux_syscall.c:665-673 | the next reschedule then lets the task go on, or queues it last; without the cancel it does neither |
| `SchedStories.ScheduleTasks` | kernel/sched.c:44-106 | the chosen task runs, the one that leaves is ready if it had not blocked, every other task is unchanged |
| `SchedStories.FinishEffect` | kernel/task.c:575-583 | the task that was left is off its CPU, and nothing else changes |
| `SchedStories.TickWakesIff` | kernel/sched.c:116-150 | a sleeper becomes ready if and only if it has a deadline and that is not after now |
| `SchedStories.SpawnEffect` | kernel/task_fork.c:98-107 | a new task has the next process number and its parent's, is ready last on the chosen queue and first in the list |
| `SchedStories.ReparentEffect` | kernel/task.c:838-844 | exactly the living children get process 1 as parent |
| `SchedStories.ReapEffect` | kernel/task.c:517-560 | the task is freed if and only if it is dead and off every CPU, and nothing else changes |
| `SchedStories.DeadIsLeft` | kernel/sched.c:44-106 | the CPU turns away from a task that has died on it |
| `SchedStories.DeadLeavesCpu` | kernel/task.c:575-583 | when the switch is finished the dead task is off every CPU |
| `SchedStories.ParentFreesDead` | kernel/task.c:1037-1083 | its parent then finds and frees it, and only it |
| `SchedStories.DeadRevivesIff` | kernel/task.c:470-500 | a step makes a dead task anything but dead or gone if and only if that task runs and marks itself asleep |
| `SchedStories.KilledSleeperRevives` | kernel/task.c:470-507 | a run from the start in which a killed task sleeps, is woken and is ready |
| `Pipe.Ring.Put` | kernel/fs.c:2280-2285 | as many bytes as fit are appended in order |
| `Pipe.Ring.Get` | kernel/fs.c:2531-2537 | the oldest bytes come out in order |
| `Pipe.Waitq.Add` | include/fs.h:108-119 | the task is queued exactly when it was already or a slot is free |
| `Pipe.Waitq.Remove` | include/fs.h:121-126 | the task, and only it, is gone |
| `Pipe.Waitq.TakeAll` | include/fs.h:130-139 | the queue is empty and the list holds exactly its members |
| `PipeSmpProps.StepRel` | kernel/fs.c:2256-2543 | whatever could matter to a queued task takes it off the queue to be woken |
| `PipeSmpProps.StepKeeps` | kernel/fs.c:2256-2543 | every step keeps the reader, writer and byte invariants |
| `PollRun.BlockingIsExact` | kernel/fs.c:2256-2543 | in every reachable state the bytes read and buffered are the bytes accepted in order, and a task asleep in a read or write is queued and cannot go on, or is about to be woken |
| `PollRun.EofAfterEverything` | kernel/fs.c:2510-2520 | end of file is reported only when every accepted byte has been read |
| `PollRun.EofIsFinal` | kernel/fs.c:2510-2520 | with nobody inside a write, after end of file nothing more ever comes |
| `PollRun.EofAfterLastClose` | kernel/fs.c:2510-2520 | after the last write end is closed with nobody inside a write, the first end of file has seen everything, and nothing comes after it, whatever happens before and after |
| `PollRun.ReaderSafeIffQueued` | include/fs.h:98-119 | a reader going to sleep is safe if and only if the wait queue has a slot for it |
| `PipeStream.WriteMovesIffHeard` | kernel/fs.c:2260-2290 | a write step moves bytes from what is left to the end of the pipe if and only if it finds a reader or has nothing to write |
| `PipeStream.PipeCarriesEverything` | kernel/fs.c:2256-2543 | over every interleaving, what the only writer offered in all its calls is the bytes read, then those buffered, then what its current call has left |
| `PipeProgress.ReadReturns` | kernel/fs.c:2510-2543 | a read of a pipe with bytes returns the oldest, as many as there are up to those asked for, and wakes every waiting writer |
| `PipeProgress.ReadOfEmpty` | kernel/fs.c:2510-2530 | a read of an empty pipe reports the end if nobody can write, and else sleeps in the queue |
| `PipeProgress.WokenReaderGets` | kernel/fs.c:2510-2543 | a blocked reader that is woken and finds bytes returns with them |
| `PipeProgress.WriteReturns` | kernel/fs.c:2256-2300 | a write that fits returns with all of it accepted and wakes every waiting reader |
| `PipeProgress.WriteOfFull` | kernel/fs.c:2256-2280 | a write nobody will read is given up, one to a full pipe sleeps in the queue |
| `PipeProgress.WokenWriterPuts` | kernel/fs.c:2256-2300 | a blocked writer that is woken and finds room puts in what fits |
| `PipeProgress.WriteThenRead` | kernel/fs.c:2256-2543 | what is written to an empty pipe is what the next read of that many bytes delivers |
| `PipeProgress.BlockedReaderIsServed` | kernel/fs.c:2256-2543 | a reader blocked on the empty pipe is woken by the write and returns with the bytes |
| `PipeProgress.CloseWakesAll` | kernel/fs.c:196-228 | a close takes one end away, keeps the bytes and wakes everybody who waits |
| `PollProps.HeldIff` | kernel/fs.c:2256-2543 | a poller's hold on a descriptor survives a step of another task if and only if the step is not a zero-byte read of a full pipe it is registered on, nor one that makes unready a descriptor it was taken off because it was ready |
| `PollRun.PollStepKeeps` | kernel/linux_syscall.c:602-676 | every step of the poll protocol and of the other tasks keeps its invariant |
| `PollRun.PollLosesNoWakeup` | kernel/linux_syscall.c:602-676 | if nobody takes a hold away between registration and second look, a poll asleep without a deadline has nothing ready, or a wake-up is on its way |
| `PollFails.HoldIsExact` | kernel/linux_syscall.c:602-676 | for a poll about to sleep on any descriptors, all held or none ready: no continuation oversleeps if and only if it still holds every one |
| `PollFails.HangupWakesIff` | kernel/fs.c:196-228 | the close of the last write end wakes a sleeping poller if and only if it is in one of the two queues |
| `PollFails.SilentPollOversleeps` | kernel/linux_syscall.c:519-545 | a run from the start: a descriptor polled for neither input nor output, whose hang-up wakes nobody |
| `PollFails.EmptyReadLosesWakeup` | kernel/linux_syscall.c:602-676 | a run from the start in which a read of zero bytes makes a poller miss the room that follows |
| `PollProgress.ScanSteps` | kernel/linux_syscall.c:619-631 | a scan ends the poll if and only if a descriptor was ready when looked at or the caller gives up |
| `PollProgress.PollAgreesWithCalls` | kernel/linux_syscall.c:519-545 | input is ready if and only if a read would not block, and output if and only if a write would not |
| `PollProgress.PollLooks` | kernel/linux_syscall.c:619-631 | a poll returns at its first look if and only if something is ready or it gives up |
| `PollProgress.LooksThenSleeps` | kernel/linux_syscall.c:654-673 | after the second look it stays asleep if and only if nothing is ready and no signal came |
| `PollProgress.PollAlone` | kernel/linux_syscall.c:602-676 | an undisturbed poll returns at once if and only if a descriptor is ready, and otherwise sleeps registered with every one |
| `PollProgress.WokenPollLooksAgain` | kernel/linux_syscall.c:673-675 | a woken poll leaves every queue, looks again, and returns if and only if something is ready or it gives up |
| `FdSpec.LowestFree` | kernel/fs.c:2723-2737 | the lowest free descriptor from a given one |
| `FileTable.Files.Put` | kernel/fs.c:166-174 | one reference less, and at 0 the object and its pipe end are released |
| `FileTable.Files.DropEnd` | kernel/fs.c:196-228 | per-end and total counts fall, and the pipe is freed at 0 |
| `FileTable.Files.Release` | kernel/fs.c:421-458 | the descriptor is free and its object lost one reference |
| `FileTable.Files.Clone` | kernel/fs.c:460-485 | a shared object gains a reference; a private copy may fail for lack of memory |
| `FileTable.Files.Dup2` | kernel/fs.c:2671-2684 | the target is closed and replaced; the answer is the new number, -EBADF or -EMFILE, exactly when `Dup2MakesSame` says |
| `FileTable.Files.Dup` | kernel/fs.c:2686-2706 | the clone goes to the lowest free descriptor |
| `FileTable.Files.MakePipe` | kernel/fs.c:2723-2787 | two new descriptors in order, or nothing changed |
| `FileTable.Files.Open` | kernel/fs.c:1883-1940 | the lowest free descriptor, naming a new file object, or nothing changed |
| `FileTable.Files.CloseRange` | kernel/fs.c:493-500 | exec closes the marked descriptors, exit all |
| `FileTable.Files.Fork` | kernel/task_fork.c:83-95 | the table is cloned, or the clones made are undone and nothing has changed |
| `FdProps.ReleaseKeeps` | kernel/fs.c:151-228 | releasing keeps all counts exact |
| `FdProps.MakePipeKeeps` | kernel/fs.c:2723-2787 | a new pipe keeps all counts exact |
| `FdProps.OpenKeeps` | kernel/fs.c:1883-1940 | a new descriptor, with an object of its own as every opener makes it, or without as the clone code allows for, keeps all counts exact |
| `FdProps.ForkRollsBack` | kernel/task_fork.c:83-95 | a fork that fails part way leaves every descriptor, object, pipe and count as it was |
| `FdProps.ForkCopies` | kernel/task_fork.c:83-95 | a fork that succeeds gives the child the parent's descriptors and frees nothing |
| `FdRun.BooksAreExact` | kernel/fs.c:151-228 | over every history of pipe, open, dup, dup2, dup3, fork with its rollback, close, exec and exit: an object's count is the number of descriptors naming it, a pipe's counts are those of its live ends, every pipe made is live or freed once, and no freed object is used |
| `FdRun.RollbackHappens` | kernel/task_fork.c:83-95 | the rollback of fork: were there a descriptor that owns a copy, a fork could fail at it with clones to undo; latent, since no opener makes one |
| `FdRun.ClonesNeverFail` | kernel/fs.c:460-485 | over every history whose openers make file objects, as all in the kernel do: no fork fails for a descriptor, and dup2 and dup3 leave the second descriptor holding the entry of the first, unmarked or marked as asked |
| `FdRun.FreedIffLastName` | kernel/fs.c:166-174 | an object is freed exactly with its last descriptor |
| `FdRun.PipeFreedIffLastEnd` | kernel/fs.c:196-228 | a pipe is freed exactly with its last end |
| `FdRun.ExitClosesAll` | kernel/sys_task.c:307-315 | exit leaves the task no descriptor and the others theirs |
| `FdEffects.ReplaceNames` | kernel/fs.c:2671-2684 | both descriptors name one object whatever the second named before, others are untouched; were the first to own a copy and memory to run out, the second would be closed, a branch no opener leads to |
| `FdEffects.DupShares` | kernel/fs.c:2671-2684 | the object gains exactly that one name, and its count says so |
| `FdEffects.Dup2MakesSame` | kernel/fs.c:2671-2684 | dup2 of a good descriptor onto another number makes the second name the first's object, unmarked and counted, and changes no other; with a bad number or onto itself nothing changes; where the clone fails the second is closed |
| `FdEffects.Dup3MakesSame` | kernel/sys_fs.c:395-406 | the same with the close-on-exec mark asked for |
| `FdEffects.DupRefused` | kernel/fs.c:2686-2706 | dup changes nothing for a bad descriptor or a full table |
| `FdEffects.DupTakesLowest` | kernel/fs.c:2686-2706 | the duplicate is at the lowest free descriptor from the one asked for |
| `FdEffects.CloseUndoesDup` | kernel/fs.c:460-491 | closing a fresh duplicate restores descriptors, objects, pipes and counts |
| `FdEffects.PipeEnds` | kernel/fs.c:2723-2787 | the two lowest free descriptors, read end first, name the two ends of one pipe and nobody else does |
| `FdEffects.PipeRefused` | kernel/fs.c:2723-2787 | without two free descriptors or without memory nothing changes |
| `FdEffects.OpenNames` | kernel/fs.c:1883-1940 | the lowest free descriptor names a new object that nobody else names; without memory or a free one nothing changes |
| `FdEffects.CloseEffect` | kernel/fs.c:2661-2669 | close gives up exactly the descriptor it is given |
| `FdEffects.ExecClosesMarked` | kernel/fs.c:493-500 | exec closes exactly the caller's descriptors marked close-on-exec |
| `XhciRing.TransferRing.constructor` | kernel/usb.c:422-429 | empty slots and a Link entry that toggles the cycle |
| `XhciRing.TransferRing.Push` | kernel/usb.c:1529-1574 | the entry is written with the ring's cycle; the last slot publishes the Link entry before the cycle flips |
| `XhciRing.TransferRing.Advance` | kernel/usb.c:446-462 | index, cycle and Link entry move as specified |
| `XhciRing.AdvanceIsPush` | kernel/usb.c:446-462 | advancing moves the ring as that many pushes would |
| `XhciRing.FillThenAdvance` | kernel/usb.c:446-462 | slots filled as pushes would fill them and then stepped over are pushes |
| `XhciRing.OwnsIffOutstanding` | kernel/usb.c:1529-1574 | the controller owns a slot if and only if an entry is outstanding, and it is the next one |
| `XhciRing.RingIsExactFifo` | kernel/usb.c:1529-1574 | over any interleaving and number of laps, with at most 254 outstanding, the controller takes exactly the entries pushed, in order, and stops only when it has all |
| `XhciRing.PushIsSteps` | kernel/usb.c:1529-1574 | the driver's push is one producer step, or at the last slot two: the entry with the lap's cycle bit, then the Link entry |
| `XhciRing.DriverIsExactFifo` | kernel/usb.c:1529-1574 | over any history of driver pushes and controller steps the controller takes the bodies pushed, in order, stops only when it has all, and a push is possible exactly while fewer than 254 are outstanding |
| `XhciRing.LinkLeadsOn` | kernel/usb.c:1529-1574 | past the Link entry the controller finds the next entry exactly when one is outstanding |
| `XhciRing.OneMoreStopsController` | kernel/usb.c:1529-1574 | one entry beyond 254 with the controller before the Link entry: the entry is rewritten under it and no step is possible any more |
| `XhciRing.OneMoreIsReached` | kernel/usb.c:1529-1574 | a run from the reset ring, within the bound, to that state |
| `XhciEvents.FirstMatch` | kernel/usb.c:649-656 | the oldest match, None only when there is none |
| `XhciEvents.MatchFields` | kernel/usb.c:576-590 | what a match says of the event's type, slot, endpoint and entry, and which events must match |
| `XhciEvents.StashKeepsNewest` | kernel/usb.c:596-629 | the stash is the newest sixteen of what it was with the completion behind it, and the victim the rest |
| `XhciEvents.Stash.Push` | kernel/usb.c:596-629 | completions are appended; a full stash drops its oldest and counts it; other events are ignored |
| `XhciEvents.Stash.Take` | kernel/usb.c:649-672 | the oldest match is taken and the rest keep their order |
| `XhciRun.EventIffOutstanding` | kernel/usb.c:489-522 | the cycle bit says exactly whether an event is waiting, and it is the next one |
| `XhciRun.TakeEffect` | kernel/usb.c:649-672 | a take hands over the oldest match and keeps the others in order |
| `XhciRun.DrainEffect` | kernel/usb.c:489-548 | a pump moves the next event to the stash, a discard drops it, a clear empties the stash |
| `XhciRun.EventsAreConserved` | kernel/usb.c:489-710 | at any time the events dequeued are the first posted, those dequeued are those pumped, in order, and those discarded, and the completions pumped are those taken, stashed, dropped and cleared; the stash keeps their order |
| `ExecProps.PutStrsAt` | kernel/task_exec.c:306-394 | the strings lie at their positions, each with its terminator, and nothing above changes |
| `Exec.UserStack.WriteBytes` | kernel/task_exec.c:276-298 | bytes are written across pages, and nothing when they would leave the stack |
| `Exec.UserStack.PutStrings` | kernel/task_exec.c:383-394 | the strings from last to first, or failure when one does not fit |
| `Exec.UserStack.PushVectors` | kernel/task_exec.c:401-451 | the words from the terminator of the auxiliary vector down to argc |
| `Exec.UserStack.Prepare` | kernel/task_exec.c:348-460 | the image with the program's own auxiliary vector and the sixteen fixed bytes; 0 if and only if it is ready, -E2BIG for too many strings, -1 when they do not fit, from the lengths alone |
| `ExecProps.ExecRoundTrip` | kernel/task_exec.c:276-460 | for any auxiliary vector, memory read upward from the stack pointer gives back argc, every argument and environment string, both terminators and the auxiliary pairs; strings lie above the vectors |
| `ExecImage.ImageReadsBack` | kernel/task_exec.c:348-460 | for the program's own vector, a look-up of any tag gives what was promised: AT_BASE exactly with an interpreter, AT_RANDOM the address of the sixteen bytes, unknown tags nothing |
| `ExecProps.SucceedsIff` | kernel/task_exec.c:357-399 | success, E2BIG and -1, each if and only if, from the arguments alone |
| `ExecProps.AlignedIff` | kernel/task_exec.c:396-460 | the stack pointer is a multiple of 16 if and only if the strings and the words below them are odd in number together |
| `ExecImage.ShIsMisaligned` | kernel/task_exec.c:396-460 | the argument list "sh" with no environment ends 8 bytes off |
| `ElfSpec.DisjointContent` | kernel/elf.c:120-194 | with disjoint segments the order of the headers does not matter |
| `ElfSpec.UnionIff` | kernel/elf.c:54-67 | a page is writable, or executable, if and only if some segment that touches it is |
| `ElfSpec.CoversIff` | kernel/elf.c:131-135 | a page is touched if and only if an address of the segment lies in it |
| `Elf.AddressSpace.MergedRights` | kernel/elf.c:54-67 | the union of the rights of all segments on a page |
| `Elf.AddressSpace.LoadPage` | kernel/elf.c:133-170 | map a zero page or widen its rights, then copy its share of the file |
| `Elf.AddressSpace.Load` | kernel/elf.c:104-194 | the segments are loaded if and only if there are as many free pages as they touch, and then memory agrees with them page by page |
| `Elf.LoadIsExact` | kernel/elf.c:54-194 | exactly the touched pages are mapped; each is writable, or executable, if and only if a segment on it is; a byte in a segment is its file byte or zero, any other is zero |
| `RamfsSpec.WriteIsFlat` | kernel/fs.c:2349-2376 | a write on pages is a write on one contiguous buffer, gaps zero |
| `RamfsSpec.RunIsFlatIff` | kernel/fs.c:2349-2401 | over any history of writes, appends, truncations and failed growth, the file reads at every moment as one buffer with zero gaps if and only if no call brings back a byte that is not zero |
| `RamfsSpec.StepIsFlatIff` | kernel/fs.c:2349-2401 | the same of one call |
| `RamfsSpec.RunIsFlat` | kernel/fs.c:2349-2401 | a file that loses only zeros to cuts always reads as one buffer |
| `RamfsSpec.RegrownByteIsOld` | kernel/fs.c:2379-2401 | a byte written, cut away and regrown reads as it was, where one buffer reads zero |
| `RamfsSpec.RegrowShowsOldBytes` | kernel/fs.c:2379-2401 | cutting clears nothing: growing again shows the old bytes, and the tail is zero if and only if they were |
| `Ramfs.RamFile.GrowTable` | kernel/fs.c:1325-1346 | a table at least as large as needed, with the same pages |
| `Ramfs.RamFile.Grow` | kernel/fs.c:1348-1368 | succeeds if and only if there is memory for the pages and the table; zero pages are added and no page too many; a failure keeps those got so far and changes no byte |
| `Ramfs.RamFile.Write` | kernel/fs.c:2349-2376 | if and only if there is memory, the bytes are overlaid across pages and size and offset follow; otherwise ENOSPC |
| `Ramfs.RamFile.Read` | kernel/fs.c:2628-2648 | the bytes up to the end of the file |
| `Ramfs.RamFile.ExecCopy` | kernel/fs.c:3599-3625 | the contiguous copy is the file |
| `Ramfs.RamFile.Truncate` | kernel/fs.c:2379-2401 | the size moves, if and only if growth finds memory, and the offset is pulled back to it |
| `Ramfs.RamFile.Free` | kernel/fs.c:3199-3222 | exactly the file's pages are returned, in order, and those of its table |
| `PathSpec.RenderRoundTrip` | kernel/fs.c:530-571 | reading a rendered directory gives it back, trailing slash or not |
| `PathSpec.NameEnters` | kernel/fs.c:557-560 | a name leads into the directory of that name |
| `PathSpec.DotsMean` | kernel/fs.c:544-555 | "." stays and ".." leads to the parent, the root being its own |
| `PathSpec.UpUndoesName` | kernel/fs.c:544-560 | going into a directory and up again is going nowhere |
| `PathSpec.CanonicalIsFixed` | kernel/fs.c:530-571 | what a path means has no dots left, and its canonical text means the same |
| `Path.Up` | kernel/fs.c:552-558 | going up drops the last component and leaves its slash, with the root as floor |
| `Path.Canonical` | kernel/fs.c:530-571 | the result is the canonical text of the path's meaning, perhaps with a slash behind it, when that fits in 255 bytes; otherwise that text cut |
| `Path.CanonicalizeInPlace` | kernel/fs.c:530-571 | in place, the meaning is kept if and only if the canonical text fits |
| `Path.LongNameIsCut` | kernel/fs.c:530-571 | every relative name of 255 bytes is cut and means something else |
| `Path.LettersAreCut` | kernel/fs.c:530-571 | 255 times the letter a is such a name |
| `Path.CutChangesMeaning` | kernel/fs.c:530-571 | a cut text never means the same |
| `Path.ShortEnough` | kernel/fs.c:530-571 | an absolute path, or a relative one of at most 254 bytes, always fits |

## Left out

- Bit packing of the allocator's bitmap: the model has one boolean per page.
- Allocator statistics counters and their printing.
- Page-table walks, TLB instructions, context-switch assembly and instruction-cache maintenance: abstract steps or absent.
- Two-megabyte leaves, and the brk path that keeps pages after running out of memory.
- Address-space destruction at exit in the concurrent copy-on-write model; it has munmap only.
- Tearing of the page copy in the fault handler: the copy is one step, as is the read of the count and the leaf write of one page in mprotect.
- mremap with MREMAP_FIXED; argument checks on flags, alignment and file descriptors.
- StackGrow.FaultsKeepStack: for a stack with nothing mapped below it down to its limit; `GrowExact` says what a fault does otherwise.
- MmapProps.FailedMapRestores: the allocator's origin and the bytes of free frames are not restored, and nothing depends on them.
- Mremap.MremapKeeps: the moved range has the protection of its first page, as in the code; per-page protections of the old range are not kept.
- Affinity changes of tasks that have run, wait queues of wait4, signals other than as wake-ups and kills.
- SchedRun.StepKeeps: clearing switched_from and on_cpu is one step, and a wake-up is of a task that exists; a waker that kept the pointer of a task reaped meanwhile is not modelled.
- SchedDispatch.DispatchedInTurn: for a task that is not itself woken again, killed or marked, which `WakeQueues` shows is needed.
- Named pipes with several objects per end, sockets, the console and other files in polls.
- PollRun.PollLosesNoWakeup: for descriptors polled for input or output, when no other task closes the polled end or takes a hold away; `HeldIff` says exactly which steps do, and `HoldIsExact` that the condition is needed.
- The contents of private descriptor copies; only that cloning one may fail.
- Command ring submission, USB enumeration, hubs, storage, networking, tracing.
- Alignment of the initial stack pointer to 16 bytes, which the code does not provide.
- ELF header checks, interpreter and TLS records, and the cached program header address.
- Time stamps, modes and the name table of the memory file system.
- Data races on single words: every hold of a lock and every unlocked read or write named above is atomic.
