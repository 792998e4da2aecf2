# NyanOS64 in Dafny

This project models the core of NyanOS64, a small x86-64 operating system, and proves what its parts promise.

- **Memory.** The frame allocator, the four-level page tables and copy-on-write (`Frames`, `PageTypes`, `CopyOnWrite`,
  `ByteLaws`, `FrameAccounts`, `PageTree`, `PageTeardown`, `PageFork`, `Worlds`, `Teardown`, `Forking`, `Mapping`, `FrameCounts`,
  `KernelHalf`, `Pager`, `KernelRuns`).  `Pager` is the code on tables and frames; a driver from boot on performs any sequence of its
  operations, and that is proved to be a run of the flat lazy machine of `CopyOnWrite`, which is proved to show what eager
  copying would, byte by byte.  Paging structures are those of the Intel SDM, volume 3A, section 4.5.  `Regions` and `TaskMemory` are
  mmap, munmap, sbrk and stack growth above it.
- **FAT32.** The sector cache, the allocation table, directory entries and the search for names, reading and writing of
  files, and the image builder, whose images the driver can mount (`SectorCache`, `FatBytes`, `FatVolume`, `FatDisk`, `FatFiles`,
  `FatDirs`, `FatNames`, `Fat32`, `DiskImage`, `DiskBuilder`).  The layout is that of the Microsoft FAT32 File System Specification.
- **Windows.** Where windows can go, and clip lists made of a pool of rectangles (`Rects`, `Windows`,
  `ClipLists`, `WindowRuns`).
- **Processes.** The ring of tasks, descriptor tables and pipes (`Scheduler`, `Wakeups`, `TaskRing`, `Descriptors`,
  `DescriptorRuns`, `RingBuffer`, `Pipes`).
- **Heaps and programs.** kmalloc, the C library's malloc and the ELF loader (`Sizes`, `FreeList`, `KernelHeap`,
  `BlockList`, `UserHeap`, `ElfLoader`).
- **Text.** The terminal, the escape-sequence parser and printer, and path resolution (`Screen`, `Terminal`, `Ansi`,
  `AnsiLaws`, `AnsiParser`, `Console`, `PathResolver`).

Where the code keeps fields and changes them, the model is a class whose methods are proved against functions on values;
what the code promises over runs is proved of those functions.  Locked and interrupt-off regions are single steps.  The
hardware, the clock, the frames and memory still to be had, and what other parts of the system answer are parameters.

`dafny verify dfyconfig.toml` checks everything.

Some promises hold only under a condition, which is proved to be exact:

- munmap gives pages back or not by the region's flag, and counts stay exact if and only if flag and page agree
  (`Mapping.UnmapBalancedIff`).  A task can make them disagree (`TaskMemory.StackInObject`): a private page in a region of
  an object is lost.  The other disagreement, an object's page in a region whose pages are given back, is brought about by
  none of the calls (`ObjectsKept` in the contracts of `TaskMemory`; `Regions.FewerSafe`).
- A pipe loses no wake-up if and only if no task registers over a blocked one (`Pipes.NoLostWakeupIff`), which two readers
  do (`Pipes.TwoReadersLoseAWakeup`).
- The driver allocates behind the end of the disk if and only if the disk is full and the FAT still has a free entry
  (`Fat32.Volume.FindFreeCluster`); on the 64 MB disk that is as soon as it is full (`Fat32.FullHddLeaves`).
- As long as the pool lasts, every clip list not due for repainting is exact at every moment if and only if no window is
  opened over such a list (`WindowRuns.Session`), which three windows do (`WindowRuns.StaleList`).
- sbrk may move the break over a last page that is missing, but only when frames have run out (`TaskMemory.Task.Sbrk`).
- Paths compose if and only if the first one is not empty (`PathResolver.ComposesExactly`).
- Clipping by a rectangle without area, and cutting one that ends left of or above the screen, go wrong
  (`Rects.PiecesExactIff`, `ClipLists.OnScreenExactIff`); the window manager never gets there (`WindowRuns.Session`).

## Model

| member | source | states |
|---|---|---|
| `Frames.Alloc` | src/mem/pmm.c:167-200 | the frame handed out is the lowest free one at or above the reserved low frames; it fails exactly when every frame is taken, and then changes nothing |
| `Frames.AllocReleaseRestores` | src/mem/pmm.c:167-241 | handing out a frame and giving it back leaves the bitmap and all reference counts as they were |
| `Frames.RetainReleaseRestores` | src/mem/pmm.c:206-256 | an extra reference followed by a release is no change: a frame survives exactly as many releases as it has references |
| `Frames.FrameAllocator.constructor` | src/mem/pmm.c:87-161 | after start-up exactly the usable frames above the reserved ones are free, and all counts are zero |
| `Frames.FrameAllocator.Set` | src/mem/pmm.c:40-46 | the bitmap differs from before in one bit only, which is set |
| `Frames.FrameAllocator.Clear` | src/mem/pmm.c:48-54 | the bitmap differs from before in one bit only, which is clear |
| `Frames.FrameAllocator.AllocFrame` | src/mem/pmm.c:167-200 | the scan from the hint, wrapping round, on bytes of bits refines `Frames.Alloc` |
| `Frames.FrameAllocator.FreeFrame` | src/mem/pmm.c:206-241 | refines the release of one reference, which also covers pmm_dec_ref |
| `Frames.FrameAllocator.IncRef` | src/mem/pmm.c:247-256 | one more reference to any frame of memory; the allocator stays sound exactly when the frame is in use, and then it is the taking of one reference |
| `Frames.FrameAllocator.GetRefCount` | src/mem/pmm.c:272-282 | the count of the frame, and 0 outside memory |
| `CopyOnWrite.ForkKeeps` | src/mem/vmm.c:651-719 | sharing every private page read-only shows exactly what an immediate copy of every private page would show, in every address space |
| `CopyOnWrite.StoreKeeps` | src/mem/vmm.c:203-222 | a store to a page that may be written changes that byte for that address space and for nobody else |
| `CopyOnWrite.FaultKeeps` | src/mem/vmm.c:781-822 | the write-fault handler changes nothing that any address space reads; it makes the page writable unless the page is shared and no frame is left |
| `CopyOnWrite.MapSharedKeeps` | src/mem/vmm.c:203-222 | mapping a shared-memory frame shows the common page in that slot and changes no other |
| `CopyOnWrite.DemoteKeeps` | src/mem/vmm.c:702-708 | taking the write bit of any set of private pages, as a fork that is given up leaves it, is invisible |
| `CopyOnWrite.StepSimulates` | src/mem/vmm.c:651-822 | one event of the lazy machine is the same event of a machine that copies eagerly |
| `CopyOnWrite.LazyRefinesEager` | src/mem/vmm.c:651-822 | over every run of map, share, unmap, fork, failed fork, exit and store, the lazy machine shows what the eager one computes, and a writable private page always has one holder |
| `CopyOnWrite.LoadsAgree` | src/mem/vmm.c:192-201 | a load returns what the eager machine holds |
| `FrameAccounts.OwnersDeterminePool` | src/mem/vmm.c:651-719 | the owners of the frames determine the pool: an operation that restores the owners has restored every frame and every count |
| `FrameAccounts.DropPrivateBalances` | src/mem/vmm.c:72-81 | dropping one entry and one reference keeps counts equal to holders |
| `FrameAccounts.CopyPrivateBalances` | src/mem/vmm.c:702-713 | repeating an entry and counting it keeps counts equal to holders |
| `PageTree.WalkInTree` | src/mem/vmm.c:107-190 | the walk over the tables in memory finds the table at the end of the path, or nothing, as the logical tree says |
| `PageTree.WalkIsFlat` | src/mem/vmm.c:107-190 | from any address space the four-level walk is a lookup in one flat index, with the kernel half common to all |
| `PageTree.TranslateIsFlat` | src/mem/vmm.c:192-201 | translating a user address is a lookup in one flat map of entries |
| `PageTree.AddTableShaped` | src/mem/vmm.c:123-182 | adding an empty table keeps the tables a forest with no table shared by two parents |
| `PageTree.LinkShaped` | src/mem/vmm.c:123-182 | linking a new table below a parent keeps the forest |
| `PageTree.RemoveTableShaped` | src/mem/vmm.c:51-88 | taking out a bare, unlinked table keeps the forest |
| `PageTeardown.TrimDone` | src/mem/vmm.c:51-88 | when all entries of a table are done, exactly the subtree below it is gone and nothing else has changed |
| `PageFork.CopyDone` | src/mem/vmm.c:651-719 | when all entries are done, the copy has a twin of every table and page below the source |
| `PageFork.CopyUndone` | src/mem/vmm.c:664-683 | tearing down a partial copy leaves the source as it was, but for write bits |
| `PageFork.ForkedFlat` | src/mem/vmm.c:651-719 | the completed copy of a tree is the fork of the flat map |
| `PageFork.FadedFlat` | src/mem/vmm.c:651-719 | what a given-up copy leaves is the flat map with some private pages read-only |
| `Forking.GaveUpRestores` | src/mem/vmm.c:651-719 | a fork that runs out of frames gives back every frame and every reference, and differs from no fork only in write bits |
| `Forking.Conclude` | src/mem/vmm.c:651-719 | publishing the finished copy gives a sound world in which the child is the fork of the parent |
| `FrameCounts.AllocCount` | src/mem/pmm.c:167-200 | a frame handed out is one free frame less, and there is one exactly as long as any is free |
| `FrameCounts.AllBranches` | src/mem/vmm.c:651-719 | a table and what hangs below its entries are the tables of its subtree |
| `FrameCounts.ShortKid` | src/mem/vmm.c:664-683 | a subtree that cannot be copied makes the whole one too large to copy |
| `Mapping.UnmapBalancedIff` | src/mem/vmm.c:481-522 | releasing a page with the region's flag keeps counts exact if and only if the flag agrees with the entry's |
| `Mapping.SplitPage` | src/mem/vmm.c:781-822 | giving the faulting address space its own copy keeps counts equal to holders and shows the same bytes |
| `Mapping.Reclaim` | src/mem/vmm.c:781-822 | the last holder of a page gets the write bit back with counts unchanged |
| `Mapping.KernelSeenEverywhere` | src/mem/vmm.c:25-41 | an address in the kernel half is translated alike in every address space |
| `KernelHalf.KernelKeptMeans` | src/mem/vmm.c:25-41 | an operation that leaves the kernel's pages alone leaves the translation of every kernel address alone, from every address space there was before and after |
| `KernelHalf.OnlyPageChanged` | src/mem/vmm.c:203-222 | an operation on one user page changes the translation of no other page, user or kernel, in any address space |
| `KernelHalf.LateTableUnseen` | src/mem/vmm.c:554-572 | a kernel page whose tables are linked only after an address space was opened is translated from the kernel's own PML4 and from no other |
| `KernelHalf.ReleaseKernelGood` | src/mem/vmm.c:433-476 | giving back one reference to a frame of the kernel keeps counts exact |
| `Mapping.ForkMoves` | src/mem/vmm.c:651-719 | a completed table copy is the fork event of the copy-on-write machine |
| `Mapping.GiveUpMoves` | src/mem/vmm.c:651-719 | a given-up table copy is the failed-fork event of the copy-on-write machine |
| `Mapping.ExitMoves` | src/mem/vmm.c:51-88 | a torn-down address space is the exit event of the copy-on-write machine |
| `Pager.PageTables.constructor` | src/mem/vmm.c:554-572 | the kernel's PML4 with nothing mapped is a sound world |
| `Pager.PageTables.FromLoader` | src/mem/vmm.c:554-572 | any sound kernel half the boot loader has left is a sound world to start from |
| `Pager.PageTables.FreeTable` | src/mem/vmm.c:51-88 | recursive teardown frees exactly the subtree, drops one reference for every private page in it and touches no other table |
| `Pager.PageTables.CopyTable` | src/mem/vmm.c:651-719 | recursive copy: a complete copy of the subtree with every reference counted and one frame spent for each of its tables, or, when there are fewer frames than tables, everything given back |
| `Pager.PageTables.CopyHierarchy` | src/mem/vmm.c:651-719 | fork of an address space: it fails exactly when fewer frames are free than the parent has tables; then used frames, counts and tables are exactly those before, and otherwise it is the fork event |
| `Pager.PageTables.NewSpace` | src/mem/vmm.c:25-41 | a new PML4 sees the kernel half, and every kernel translation stays; it fails only when no frame is left, and then nothing changes |
| `Pager.PageTables.DestroySpace` | src/mem/vmm.c:51-88 | the exit event: exactly the address space's tables are gone, and all counts are exact |
| `Pager.PageTables.NextTable` | src/mem/vmm.c:123-182 | one level of the walk: the table below, made if wanted; it fails only when absent or when no frame is left |
| `Pager.PageTables.WalkToPte` | src/mem/vmm.c:107-190 | the page table of the path, with no mapping changed on the way; without creation nothing changes at all |
| `Pager.PageTables.MapPage` | src/mem/vmm.c:203-222 | the map event for a private page, its old page released, with the kernel half and the set of address spaces as before; it fails only without a frame for a table |
| `Pager.PageTables.TakeSharedFrame` | src/ipc/shm.c:122-139 | a frame of a shared-memory object is zeroed and becomes common, or there is none left and nothing changes |
| `Pager.PageTables.MapSharedPage` | src/mem/vmm.c:203-222 | the map event for a shared-memory page, with the kernel half as before; it fails only without a frame for a table |
| `Pager.PageTables.UnmapPage` | src/mem/vmm.c:481-522 | the unmap event, with counts exact |
| `Pager.PageTables.HandleCow` | src/mem/vmm.c:781-822 | on the real tables and pool, exactly the fault handler of the copy-on-write machine |
| `Pager.PageTables.SettleFault` | src/mem/vmm.c:795-822 | the last holder is made writable, another one gets a copy, or memory has run out |
| `Pager.PageTables.StoreByte` | src/arch/idt.c:57-62 | after a store that was performed the page reads the byte stored at that place, and every other byte of every page of every address space reads as before, but for pages that show the same shared frame; the step is the write event of the machine |
| `ByteLaws.StoreLaw` | src/mem/vmm.c:781-821 | byte by byte: a performed store reads back at that page and at pages showing the same shared frame, and nothing else changes anywhere |
| `ByteLaws.ForkLaw` | src/mem/vmm.c:651-758 | after a fork every page of the child reads what the parent's page reads, and no other byte changes |
| `ByteLaws.ForkThenStore` | src/mem/vmm.c:651-821 | after a fork, whoever of the two stores first reads the new byte and the other one the old, unless the page is a shared one |
| `ByteLaws.MapPrivateLaw` | src/mem/vmm.c:203-222 | a new private page reads what its frame held, and all other pages as before |
| `ByteLaws.FreshPageZero` | src/arch/idt.c:67-82 | a fresh page reads zero at every place |
| `ByteLaws.MapSharedLaw` | src/mem/vmm.c:203-222 | a page of a shared object reads as every other page that shows it |
| `ByteLaws.UnmapLaw` | src/mem/vmm.c:224-234 | unmapping takes away that page and changes no byte of the others |
| `ByteLaws.ExitLaw` | src/mem/vmm.c:43-88 | the end of an address space takes away exactly its pages |
| `ByteLaws.ByteStays` | src/mem/vmm.c:203-821 | over any run a byte of a private page stays as it is until an event stores to it, unmaps it or ends its address space |
| `ByteLaws.StoredByteStays` | src/mem/vmm.c:203-821 | so a byte stored is read back after any run of other events, forks and copies included |
| `Pager.PageTables.LoadByte` | src/mem/vmm.c:192-201 | a load reads what the eager machine would hold |
| `Pager.PageTables.MapFresh` | src/arch/idt.c:67-82 | a stack page on demand is a private page that reads zero at every place; when no table can be had, the frame stays taken with nothing naming it |
| `Pager.PageTables.Virt2Phys` | src/mem/vmm.c:192-201 | the frame that the tables in memory translate to, 0 if none |
| `Pager.PageTables.MakeKernelTables` | src/mem/vmm.c:554-572 | a table for every entry of the kernel half, unless frames run out |
| `Pager.PageTables.MapKernelPage` | src/mem/vmm.c:203-222 | a kernel mapping is seen from every address space at once; every other kernel page and every user mapping stays, and the page it replaces loses a reference |
| `Pager.PageTables.UnmapKernelPage` | src/mem/vmm.c:224-234 | the page is gone from every address space at once and every other kernel page stays |
| `Pager.PageTables.AllocKernelPage` | src/mem/vmm.c:364-387 | one page of vmm_alloc_global: a frame of the kernel's own at that address in every address space, or memory has run out |
| `Pager.PageTables.FreeKernelPage` | src/mem/vmm.c:461-472 | one page of vmm_free: unmapped everywhere, and its frame given back |
| `KernelRuns.PagerRefinesEager` | src/mem/vmm.c:25-822 | along every chain of states linked by events of the machine, the invariant assumed of the first only, what every address space reads is what eager copying would give |
| `KernelRuns.GoodCounts` | src/mem/vmm.c:25-822 | in a sound state each private page's count is the number of entries naming it, and a writable one has one |
| `KernelRuns.Kernel.Perform` | src/mem/vmm.c:25-822 | each operation, performed on the tables, is its event: opening, forking and ending a space, growing, sharing, mapping, dropping and storing to pages, kernel pages, and all their failures |
| `KernelRuns.HistoryIsRun` | src/mem/vmm.c:25-822 | the states the driver passes through are a run of the machine |
| `KernelRuns.Run` | src/mem/vmm.c:25-822 | for every sequence of operations after the kernel's tables are made, every state is sound with exact counts, and the last one shows what the eager machine computes from nothing |
| `KernelRuns.BootAndRun` | src/mem/vmm.c:25-822 | the same from the bare PML4 and frame allocator on; booting fails only when frames run out |
| `Regions.MapAgreesIff` | src/mem/vmm.c:481-522 | mapping a page keeps region flags and pages in agreement exactly when no region of the other kind covers it |
| `Regions.AddAgreesIff` | src/mem/vmm.c:586-601 | entering a region keeps the agreement exactly when no page of the other kind lies in it |
| `Regions.FewerSafe` | src/mem/vmm.c:481-522 | taking away pages and regions brings no object's page into a region whose pages are given back, whether flags agree or not |
| `Regions.MapElsewhere` | src/mem/vmm.c:203-222 | a page mapped in another address space leaves the agreement alone |
| `Regions.ForkAgrees` | src/sched/sched.c:673-674 | a child that starts with the parent's pages and lists agrees where the parent did |
| `Regions.TakenLists` | src/mem/vmm.c:236-274 | a region found by first fit overlaps no region in use, and the lists stay in order |
| `Regions.GivenLists` | src/mem/vmm.c:276-336 | a region given back is merged into the ordered free list, and no address is both free and in use |
| `TaskMemory.Task.constructor` | src/arch/syscall.c:489-505 | a task after exec: the mmap area is free, the stack is its one region, and flags agree with pages |
| `TaskMemory.Task.FindFreeAddr` | src/mem/vmm.c:236-274 | the first free region with room, cut at its start, or none |
| `TaskMemory.Task.PopNode` | src/mem/vmm.c:603-632 | the first region at the address leaves the list |
| `TaskMemory.Task.AddFree` | src/mem/vmm.c:276-336 | the region put in its place and merged with its neighbours |
| `TaskMemory.Task.Mmap` | src/arch/syscall.c:1254-1323 | the pages of the object in the first region with room; flags agree afterwards exactly when no private page lies behind the object's pages in it; no object's page ever comes into a region whose pages are given back |
| `TaskMemory.Task.Munmap` | src/mem/vmm.c:481-522 | where flags agree with pages: the region's pages are gone with exact counts, all other pages stay, the region is free again, and flags still agree |
| `TaskMemory.Task.GrowStack` | src/arch/idt.c:67-82 | a fault in the stack area gets a private page unless frames have run out; flags agree afterwards exactly when no shared-memory region covers it |
| `TaskMemory.Task.Sbrk` | src/arch/syscall.c:650-702 | when the break moves, all new pages are there and private but perhaps the last, which is missing only when frames have run out; when it does not, the request was too large or frames have run out; flags stay in agreement as long as the heap ends below the mmap area |
| `TaskMemory.StackInObject` | src/mem/vmm.c:481-522 | the calls after which flag and page disagree, unless frames have run out: munmap of the stack, mmap of a one-page object over eight pages, a stack fault |
| `SectorCache.DirectWriteCoherentIff` | src/fs/fat32.c:30-90 | a sector may be written past the cache exactly when no slot holds it or its contents stay the same |
| `SectorCache.Cache.Victim` | src/fs/fat32.c:51-63 | an unused slot if there is one, else a least recently used one |
| `SectorCache.Cache.Lookup` | src/fs/fat32.c:41-49 | the first valid slot holding the sector |
| `SectorCache.Cache.Read` | src/fs/fat32.c:38-70 | a cached read returns the disk's sector, and every valid slot stays equal to the disk with no sector twice; the slot that held it, or else an unused or least recently used one, holds it now with the time of the read, and no other slot changes |
| `SectorCache.Cache.Write` | src/fs/fat32.c:72-90 | a write reaches the disk and the slot that holds the sector, with its time, and the cache stays coherent |
| `SectorCache.Cache.WriteDirect` | src/fs/fat32.c:246-357 | writes to the data region go past the cache and keep it coherent |
| `FatBytes.SetFatEntryAt` | src/fs/fat32.c:811-825 | writing one FAT entry changes that entry, cut to 28 bits, and no other |
| `FatVolume.ClustersConserved` | src/fs/fat32.c:827-850 | free clusters and the lengths of all chains always add up to the data area |
| `FatVolume.ExtendOk` | src/fs/fat32.c:297-314 | linking a free cluster to the end of a chain keeps the volume invariant |
| `FatVolume.AddChainOk` | make_disk.py:170-186 | giving a new file a run of free clusters keeps the volume invariant |
| `FatVolume.ClearOk` | src/fs/fat32.c:218-244 | freeing a file's whole chain keeps the volume invariant, whether the file stays or goes |
| `FatDisk.LbaApart` | src/fs/fat32.c:92-99 | different clusters occupy disjoint sectors |
| `FatDisk.OnDiskIff` | src/fs/fat32.c:92-99 | a cluster with a FAT entry lies on the disk exactly when its number is below the count the geometry gives |
| `FatDisk.HddFits` | make_disk.py:200-206 | on the 64 MB disk the last 2078 FAT entries address clusters behind the end of the disk |
| `Fat32.FullHddLeaves` | src/fs/fat32.c:827-850 | on the 64 MB disk as the script leaves it the next allocation is behind the end of the disk exactly when the disk is full |
| `FatDisk.PutThenGet` | src/fs/fat32.c:333-347 | a cluster written reads back, and all other clusters are as before |
| `FatFiles.BytesSplice` | src/fs/fat32.c:333-347 | rewriting part of one cluster rewrites exactly that part of the file |
| `FatFiles.BytesAppend` | src/fs/fat32.c:297-314 | a longer chain begins with the old file's bytes |
| `FatFiles.BytesSlice` | src/fs/fat32.c:147-202 | a stretch inside a cluster is that stretch of the file |
| `FatNames.ParseName` | src/fs/fat32.c:451-508 | a name is taken exactly when it has at most eight bytes, and a dot and at most three more bytes with no dot; then it stands for both parts in upper case, filled up with blanks |
| `FatNames.ShortBytes` | src/fs/fat32.c:463-506 | the eleven bytes one by one |
| `FatNames.ListedAsTyped` | src/fs/fat32.c:451-675 | a name is listed as it was typed, in upper case, exactly when it has no blank in it and no dot at its end |
| `FatNames.ListedOpens` | src/fs/fat32.c:451-675 | a name as it is listed leads back to the eleven bytes it was listed for |
| `FatNames.CaseBlind` | src/fs/fat32.c:480-483 | the case of letters makes no difference |
| `FatDirs.PlacesApart` | src/fs/fat32.c:556-606 | entries of a directory counted along its chain lie at different places |
| `FatDirs.FindsOnce` | src/fs/fat32.c:510-606 | a name is found at one place or not at all |
| `FatDirs.NewFound` | src/fs/fat32.c:694-781 | a name that was not there, written to the first free entry, is found there |
| `FatDirs.FoundStill` | src/fs/fat32.c:694-903 | rewriting one entry leaves every other name where it was found |
| `Fat32.SearchAfterCreate` | src/fs/fat32.c:694-809 | after the creation of a file every other name is found where it was, in every directory |
| `Fat32.SearchAfterUnlink` | src/fs/fat32.c:886-903 | after the removal of a file its entry is found under no name, and every other name where it was |
| `Fat32.SearchAfterWrite` | src/fs/fat32.c:218-357 | writing and truncating change no search |
| `Fat32.FoundIsFile` | src/fs/fat32.c:510-606 | what the search finds is the entry of a file of the volume, unless it is that of a directory or a label |
| `Fat32.CatalogueAfter` | src/fs/fat32.c:694-903 | where one entry is rewritten, the directories still hold no entry of a file that is not there |
| `Fat32.Volume.constructor` | src/fs/fat32.c:383-417 | mounting a well-formed image, with an entry for every file and none besides, establishes the invariant |
| `Fat32.Volume.OpenEntry` | src/fs/fat32.c:103-145 | a node made from the directory entry of a file agrees with the file |
| `Fat32.Volume.FindFile` | src/fs/fat32.c:525-606 | the first entry with that name before the end mark, deleted ones passed over; none exactly when the search ends without one or the name is none |
| `Fat32.Volume.FindEntry` | src/fs/fat32.c:510-606 | the same on eleven bytes |
| `Fat32.Volume.CreateFile` | src/fs/fat32.c:694-809 | the same for a name as typed: made exactly when the name is one, is not there yet, there is room on the disk and in the directory and a buffer can be had |
| `Fat32.Volume.ReadFat` | src/fs/fat32.c:371-381 | the entry of the cluster, through the cache |
| `Fat32.Volume.WriteFat` | src/fs/fat32.c:811-825 | the table with that one entry changed; the data region is untouched |
| `Fat32.Volume.FindFreeCluster` | src/fs/fat32.c:827-850 | the lowest cluster with a free entry; it lies behind the end of the disk exactly when all clusters of the disk are taken and an entry further on is free |
| `Fat32.Volume.FindRoom` | src/fs/fat32.c:827-850 | the lowest free cluster of the disk; without one, every cluster of the disk is taken |
| `Fat32.Volume.ScanFatSector` | src/fs/fat32.c:827-850 | the first free entry of a FAT sector from cluster 2 on |
| `Fat32.Volume.ReadCluster` | src/fs/fat32.c:175-190 | the cluster's bytes |
| `Fat32.Volume.WriteCluster` | src/fs/fat32.c:333-347 | that cluster holds the buffer, and no other sector changes |
| `Fat32.Volume.Seek` | src/fs/fat32.c:316-320 | following the chain gives its k-th cluster |
| `Fat32.Volume.Read` | src/fs/fat32.c:147-202 | the bytes of the file in the range asked for, cut at the file's length |
| `Fat32.Volume.ReadFrom` | src/fs/fat32.c:175-200 | the copying loop returns that stretch of the file |
| `Fat32.Volume.WriteFrom` | src/fs/fat32.c:330-347 | the copying loop replaces that stretch of the file, and all other files read the same |
| `Fat32.Volume.LastCluster` | src/fs/fat32.c:278-292 | the last cluster and the length of the chain |
| `Fat32.Volume.StartChain` | src/fs/fat32.c:259-276 | an empty file gets one free cluster in its entry, its node and the table; it fails only when every cluster of the disk is taken |
| `Fat32.Volume.Append` | src/fs/fat32.c:294-314 | the chain grows by n free clusters, old contents first; it fails only when every cluster of the disk is taken |
| `Fat32.Volume.UpdateSize` | src/fs/fat32.c:204-216 | node and directory entry get the new length; no file's bytes change, nor any other byte of a directory |
| `Fat32.Volume.Reserve` | src/fs/fat32.c:255-314 | room for the end of the write, or a full volume; contents and other files are as before |
| `Fat32.Volume.Write` | src/fs/fat32.c:246-357 | all bytes or none are written: the range holds the buffer, every other byte and every other file is as before, the length is the larger one, no byte of a directory changes but first cluster and length of that entry, a file that grows gets no cluster it does not need, and it fails only without memory or clusters |
| `Fat32.Volume.WriteThenRead` | src/fs/fat32.c:147-357 | reading back a range just written returns the bytes written |
| `Fat32.Volume.FreeChain` | src/fs/fat32.c:227-236 | exactly the chain's entries are cleared |
| `Fat32.Volume.Truncate` | src/fs/fat32.c:218-244 | the file is empty in node, entry and table; other files, other entries and its name are as before |
| `Fat32.Volume.Remove` | src/fs/fat32.c:886-903 | the first byte of its entry is 0xE5 and no other byte of any directory changes; the file is gone, its clusters are free, no entry of it is left, and other files are as before |
| `Fat32.Volume.FindFreeEntry` | src/fs/fat32.c:852-884 | the first free entry along the chain of the directory; it fails only when every entry is taken |
| `Fat32.Volume.Create` | src/fs/fat32.c:694-809 | made exactly when the name is not there yet, the disk and the directory have room and a buffer can be had: an empty file with the lowest free cluster, at the first free entry, which holds name, attribute 0x20, cluster and length and is found by the search; else nothing changes; the caller is told so unless there is no memory for the node, and then the file is there all the same |
| `Fat32.Volume.WriteNew` | src/fs/fat32.c:736-781 | all 32 bytes of the entry and the table of the new file, with all other files and entries as before |
| `Fat32.TruncateMounted` | src/fs/fat32.c:218-244 | resetting entry and node after the chain is freed keeps disk, table, nodes and files in agreement |
| `Fat32.UnlinkMounted` | src/fs/fat32.c:886-903 | marking the entry deleted and freeing the chain keeps the agreement |
| `Fat32.CreateMounted` | src/fs/fat32.c:694-783 | entry, table and node of a new file agree |
| `Fat32.SizeMounted` | src/fs/fat32.c:204-216 | a new length in the entry keeps the agreement |
| `Fat32.PutMounted` | src/fs/fat32.c:333-347 | rewriting a data cluster keeps the agreement |
| `Fat32.GrowMounted` | src/fs/fat32.c:297-314 | the two entries that link a new last cluster keep the agreement |
| `DiskBuilder.GeoFits` | make_disk.py:67-84 | the layout fits every disk large enough for a root directory, however many sectors a cluster has |
| `DiskBuilder.HddGeo` | make_disk.py:200-206 | the layout of the 64 MB disk |
| `DiskBuilder.Builder.constructor` | make_disk.py:67-84 | a blank image with the root directory in cluster 2 satisfies the builder's invariant |
| `DiskBuilder.Builder.Claim` | make_disk.py:170-180 | a run of new clusters linked in order keeps the volume invariant and every entry below 28 bits |
| `DiskBuilder.Builder.WriteData` | make_disk.py:181-185 | the clusters of the file hold its bytes followed by zeros; entries and other files stay |
| `DiskBuilder.Builder.Search` | make_disk.py:134-147 | the first free entry of the directory with everything before it taken, or its last cluster with everything taken |
| `DiskBuilder.Builder.PutEntry` | make_disk.py:138-141 | the 32 bytes at a place that held no entry; all other entries and all file bytes stay |
| `DiskBuilder.Builder.ExtendDirectory` | make_disk.py:142-147 | a full directory gets the next cluster at the end of its chain |
| `DiskBuilder.Builder.AppendRaw` | make_disk.py:134-147 | the entry is in that directory, at its first free place in the order of its chain, and the directory grows only if it was full; it fails only for a full directory when no cluster is left |
| `DiskBuilder.Builder.AddEntry` | make_disk.py:149-160 | long-name entries and an entry that says where the file begins and how long it is, all in that directory and none elsewhere |
| `DiskBuilder.Builder.AddFile` | make_disk.py:170-186 | the file gets exactly the clusters its length needs, with its bytes in them and an entry in the given directory; it fails only for four gigabytes and more or when clusters run out |
| `DiskBuilder.Builder.MakeDirectory` | make_disk.py:162-168 | a directory of one cluster with an entry in its parent; its first place holds itself and its second its parent |
| `DiskBuilder.Builder.Finalize` | make_disk.py:187-194 | the image can be mounted, its directories hold exactly the entries that were added and no entry of a file that was not, both FATs are alike, and the driver sees the bytes of every file |
| `DiskBuilder.BuildAndRead` | make_disk.py:67-194 | a file put on a new disk by the script is read back by the driver byte for byte |
| `DiskImage.SlotRecs` | make_disk.py:134-141 | a new directory entry leaves all others alone |
| `DiskImage.FreeIffNoRec` | make_disk.py:138-141 | a place of a directory looks free exactly when it holds no entry |
| `DiskImage.BytesFrom` | make_disk.py:181-185 | a chain whose clusters hold the pieces holds the whole |
| `DiskImage.EntryReads` | make_disk.py:149-160 | the driver reads first cluster and size out of the entry the script packs |
| `Rects.IntersectMeans` | src/gui/window.c:1084-1092 | the test holds exactly when the rectangles share a pixel |
| `Rects.PiecesExact` | src/gui/window.c:1094-1177 | the pieces are disjoint and cover exactly the first rectangle without the second |
| `Rects.PiecesExactIff` | src/gui/window.c:1094-1177 | for any clipper, the pieces are the difference exactly when the clipper has an area or the test fails |
| `Rects.FlatClipperLoses` | src/gui/window.c:1094-1177 | a clipper of no width takes all pixels right of it |
| `ClipLists.OnScreenExactIff` | src/gui/window.c:1200-1232 | the rectangle cut to the screen is the part of the given one on the screen exactly when that does not end left of or above the screen, or lies beyond its other edges, or is empty there anyway |
| `ClipLists.OffScreenShown` | src/gui/window.c:1200-1213 | a rectangle wholly left of the screen would be given screen pixels it does not cover |
| `ClipLists.OneOwner` | src/gui/window.c:1179-1281 | above the taskbar each pixel in a window is in the list of its topmost window and in no other |
| `ClipLists.Screen.constructor` | src/gui/window.c:1314-1323 | every rectangle of the pool is on the free list once |
| `WindowRuns.Session` | src/gui/window.c:376-1281 | for every sequence of openings, drawings, closings, mouse movements and repaints, each of which does to the windows what it should: an ordinary repaint at the end leaves every list exactly the visible part of its window if no window was opened over a list that was not due to be repainted; unless the pool ran out, every list not due is exact at every moment if and only if that never happened; and the pool cannot run out while there are few enough windows |
| `WindowRuns.Perform` | src/gui/window.c:376-1281 | what each operation does to the windows; it keeps the lists that are not due exact if and only if it does not open a window over one of them |
| `WindowRuns.StaleList` | src/gui/window.c:438-479 | two windows, a repaint and a third window over the first: after the next repaint the first one's list is wrong |
| `WindowRuns.PoolForFive` | src/gui/window.c:29-31 | the pool is enough for the desktop and four windows |
| `ClipLists.JoinedDrawnIff` | src/gui/window.c:1179-1281 | an exact list stays exact below a new window if and only if none of its rectangles meets that window |
| `Windows.MovedHolds` | src/gui/window.c:895-907 | a window dragged by its title bar stays under the cursor, and its title bar above the taskbar |
| `Windows.ResizedHolds` | src/gui/window.c:830-880 | the edge that is not dragged stays, the other is at the cursor or stays, and no side gets shorter than the least size |
| `Windows.OpenedMeans` | src/arch/syscall.c:788-844 | where a program's window opens and how large it is, with the frame and title bar around it |
| `Windows.MovedMeans` | src/gui/window.c:895-907 | a dragged window has the cursor where it was taken, unless its top would leave the screen or its title bar the rows above the taskbar |
| `Windows.ResizedMeans` | src/gui/window.c:830-882 | a dragged edge is at the cursor exactly if that leaves 70 columns or 40 rows, the lower one no lower than the taskbar; else it stays |
| `Windows.EdgesMean` | src/gui/window.c:343-374 | an edge is taken within three pixels of it, on a window that may be resized and is not minimized |
| `Windows.MaximizedMeans` | src/gui/window.c:1350-1376 | state, place and remembered place of a window after the toggle, with and without memory |
| `Windows.MinimizedMeans` | src/gui/window.c:1378-1401 | the same for minimizing: rolled up to 20 rows, or back at its height and in its state |
| `ClipLists.DragFollows` | src/gui/window.c:539-676 | a drag goes on with the same window wherever that is in the stack, and ends with the window |
| `Windows.MaximizeTwice` | src/gui/window.c:1350-1376 | maximizing a normal window and again puts it back where it was |
| `Windows.MinimizeTwice` | src/gui/window.c:1378-1401 | minimizing a window and again puts it back where it was |
| `ClipLists.Screen.Alloc` | src/gui/window.c:1325-1337 | the head of the free list; it fails exactly when the list is empty |
| `ClipLists.Screen.Free` | src/gui/window.c:1339-1348 | a rectangle given back is free once and in nobody else's list: the account of the pool stays exact |
| `ClipLists.Screen.ClipRect` | src/gui/window.c:1094-1177 | a selection of the pieces, all of them unless the pool ran out; every pool rectangle stays accounted for once |
| `ClipLists.Screen.ClipAll` | src/gui/window.c:1250-1273 | the list without the blocker, nothing missing unless the pool ran out |
| `ClipLists.Screen.Recalc` | src/gui/window.c:1179-1281 | disjoint rectangles covering exactly the pixels of the window that are on the screen, in no higher window and, unless it is the desktop, above the 28 rows of the taskbar, unless the pool ran out; other lists stay |
| `ClipLists.Screen.VisibleList` | src/gui/window.c:1189-1281 | the rectangles of the cut window outside all higher windows |
| `ClipLists.ExactPixels` | src/gui/window.c:1202-1225 | an exact list, pixel by pixel: the desktop's goes down to the last row of the screen, that of any other window ends 28 rows above it |
| `ClipLists.Screen.DrawnPixels` | src/gui/window.c:1202-1225 | the same of every list that is up to date |
| `ClipLists.Screen.DropClip` | src/gui/window.c:1181-1188 | the old list goes back to the pool |
| `ClipLists.Screen.Paint` | src/gui/window.c:495-514 | the clip list of every dirty window is exactly its visible part unless the pool ran out, no other list changes, and nothing is dirty afterwards |
| `ClipLists.Screen.Create` | src/gui/window.c:376-480 | a new topmost window with its box for a list, or none when the pool has run out; only the old top and the desktop become dirty besides; without memory nothing changes |
| `ClipLists.Screen.Open` | src/arch/syscall.c:788-844 | a program's window is neither empty nor off the screen at the left or top, whatever was asked for |
| `ClipLists.Screen.WindowAt` | src/gui/window.c:516-537 | above the taskbar the window found is the one whose pixel is shown there, and none is found only where no window shows |
| `ClipLists.Screen.DragOn` | src/gui/window.c:826-913 | the window under the button moves with the cursor or is resized at the edges it was taken by |
| `ClipLists.Screen.Press` | src/gui/window.c:921-1015 | which window is meant, the topmost one there, and what a press does to it, by the place in its title bar: nothing for the scheduler's button, maximized, minimized, or raised and taken by an edge or the title bar |
| `ClipLists.Screen.TaskbarClick` | src/gui/window.c:771-800 | the window comes to the top and is shown, with the others in their order, or is minimized if it was on top |
| `ClipLists.ClickedMeans` | src/gui/window.c:771-800 | what becomes of the window clicked: back as it was and on top if minimized, on top if further down, rolled up to its title bar of 20 rows if on top; all others keep their order |
| `ClipLists.Screen.ButtonAt` | src/gui/window.c:762-800 | the n-th bordered window of the stack has the n-th button of 100 pixels, 104 apart from 212 on, as far as there is room |
| `ClipLists.Screen.ClickTaskbar` | src/gui/window.c:735-800 | a click on the button row of the taskbar is one for the window of that button, and for none elsewhere |
| `ClipLists.Screen.LetGo` | src/gui/window.c:1018-1052 | without the left button nothing is dragged; the right one raises the topmost window there |
| `ClipLists.Screen.CycleFocus` | src/gui/window.c:581-603 | the lowest window with a border that is not on top is raised |
| `ClipLists.CycledTop` | src/gui/window.c:581-603 | it is then the topmost, shown and not minimized, and all others keep their order |
| `ClipLists.Screen.Update` | src/gui/window.c:811-1054 | whatever the mouse does is one of these: a window dragged, a press, a click on the taskbar or a letting go; no window becomes empty or leaves the screen at the left or top |
| `ClipLists.Screen.Close` | src/gui/window.c:605-676 | a closed window's rectangles go back, the others keep their order, and a drag of it ends |
| `ClipLists.Screen.Focus` | src/gui/window.c:539-579 | a bordered window below the top becomes the topmost, the others keep their order and all are dirty; another one changes nothing |
| `RingBuffer.RingBuf.constructor` | src/utils/ring_buf.h:15-24 | an empty buffer |
| `RingBuffer.RingBuf.Push` | src/utils/ring_buf.h:26-34 | the contents with the byte at the end, without the oldest if full |
| `RingBuffer.RingBuf.Pop` | src/utils/ring_buf.h:36-46 | the oldest byte, or nothing when empty |
| `RingBuffer.RingBuf.IsFull` | src/utils/ring_buf.h:48-51 | full means 255 bytes |
| `RingBuffer.RingBuf.IsEmpty` | src/utils/ring_buf.h:53-56 | empty means no bytes |
| `Pipes.Pipe.ReadRound` | src/fs/pipe.c:6-70 | one round of reading refines the step on values |
| `Pipes.Pipe.WriteRound` | src/fs/pipe.c:72-127 | one round of writing refines the step on values |
| `Pipes.Pipe.CloseReader` | src/fs/pipe.c:129-144 | refines the step on values |
| `Pipes.Pipe.CloseWriter` | src/fs/pipe.c:146-161 | refines the step on values |
| `Pipes.Pipe.CheckReady` | src/fs/pipe.c:163-186 | a poll says ready exactly when there is a byte or end of file, and else registers the reader |
| `Pipes.ReadersGetWhatWasWritten` | src/fs/pipe.c:6-161 | over any interleaving of any readers and writers the bytes handed out are the bytes accepted, from the first one on and in order, and the buffer holds the rest |
| `Pipes.HandedIsAccepted` | src/fs/pipe.c:6-161 | the same from any state: what was in the buffer comes first |
| `Pipes.ReadOutcome` | src/fs/pipe.c:6-70 | a reader gets a byte exactly when there is one, and then the oldest; it is told the end exactly when there is none and the write end is closed; else it waits, or goes back with what it has |
| `Pipes.WriteOutcome` | src/fs/pipe.c:72-127 | a writer is refused only with the read end closed, waits only for a full buffer, and else its byte is in |
| `Pipes.EofMeansAll` | src/fs/pipe.c:6-70 | a reader that is told the end has been reached: everything ever written has been handed out |
| `Pipes.FlagsAfter` | src/fs/pipe.c:129-180 | an end is closed by closing it and by nothing else; a poll says ready exactly when a read would not wait |
| `Pipes.RegisteredAfter` | src/fs/pipe.c:6-204 | who is registered after a step: a reader that waits or polls in vain, a writer that waits, and whoever is woken no more |
| `Pipes.BlockedAfter` | src/fs/pipe.c:6-161 | who is blocked after a step, task by task |
| `Pipes.ReadIsPrefixOfWritten` | src/fs/pipe.c:6-161 | over any interleaving the bytes read are a prefix of the bytes written and the buffer holds the rest: nothing lost, repeated or overwritten |
| `Pipes.AwakeStepIff` | src/fs/pipe.c:6-161 | for any readers and writers, a step keeps every blocked task with reason to wait and registered exactly when it does not register its own task over another blocked one |
| `Pipes.NoLostWakeupIff` | src/fs/pipe.c:6-161 | over a whole run no wake-up is lost exactly when no step registers over a blocked task |
| `Pipes.NoLostWakeup` | src/fs/pipe.c:6-161 | so with one reader and one writer, from a new pipe on, a blocked reader means empty, open and registered, a blocked writer means full, open and registered, and never both |
| `Pipes.TwoReadersLoseAWakeup` | src/fs/pipe.c:44-58 | with two readers the first one's registration is overwritten: it stays blocked although there is a byte to read |
| `Descriptors.FlagIffNamed` | src/fs/pipe.c:129-161 | a pipe's end is flagged open exactly as long as some slot of some task names it |
| `Descriptors.RetainKeeps` | src/fs/vfs.c:42-49 | naming a handle in one more slot and counting it keeps counts equal to slots |
| `Descriptors.ReleaseKeeps` | src/fs/vfs.c:236-266 | clearing a slot and closing keeps counts equal to slots, and runs the close operation exactly with the last slot |
| `Descriptors.InstallKeeps` | src/arch/syscall.c:591-625 | a new handle in a free slot keeps the invariant |
| `Descriptors.InstallPipeKeeps` | src/arch/syscall.c:933-1057 | a new pipe's two handles in free slots keep the invariant |
| `Descriptors.FdTables.constructor` | src/sched/sched.c:289-328 | no tables, no handles: the invariant holds |
| `Descriptors.FdTables.VfsRetain` | src/fs/vfs.c:42-49 | the count goes up by one |
| `Descriptors.FdTables.VfsClose` | src/fs/vfs.c:236-266 | the count goes down by one; with the last reference the close operation runs and the handle is gone |
| `Descriptors.FdTables.FindFreeFd` | src/arch/syscall.c:1934-1945 | the lowest free slot from 3 on, or failure exactly when there is none |
| `Descriptors.FdTables.Open` | src/arch/syscall.c:591-625 | a new handle with one reference in the lowest free slot; it fails exactly without a slot or a file, and then nothing changes |
| `Descriptors.FdTables.PipeCall` | src/arch/syscall.c:933-1057 | two handles and an open pipe, or no change at all; with memory it fails only when fewer than two slots are free |
| `Descriptors.FdTables.CloseFd` | src/arch/syscall.c:627-648 | the slot named by the low eight bits of the argument is emptied, or nothing changes; no handle or pipe is made, pipes keep their ends, handles that stay keep their kind, and no closing is undone |
| `Descriptors.FdTables.Dup2` | src/arch/syscall.c:1059-1098 | the new slot names the old slot's handle, what it named before is closed, and no other slot changes; no handle or pipe is made, pipes keep their ends, handles that stay keep their kind, and no closing is undone; it fails exactly on a bad or empty slot |
| `Descriptors.FdTables.CleanFds` | src/sched/sched.c:725-735 | on exit and kill every slot is empty and every count exact; no handle or pipe is made, pipes keep their ends, handles that stay keep their kind, and no closing is undone |
| `Descriptors.FdTables.NewTask` | src/fs/dev.c:159-192 | the new table holds three new standard handles, if the devices exist, and nothing else; all other handles, pipes and closings are as before |
| `Descriptors.FdTables.ForkTable` | src/sched/sched.c:621-664 | the child's table is the parent's with every handle counted once more; no handle or pipe is made, pipes keep their ends, handles that stay keep their kind, and no closing is undone |
| `Descriptors.FdTables.Destroy` | src/sched/sched.c:233-258 | the table is gone with every slot closed; no handle or pipe is made, pipes keep their ends, handles that stay keep their kind, and no closing is undone |
| `DescriptorRuns.MatchesIs` | src/arch/syscall.c:591-1098 | reference counts, flags of pipes, the handles there are and how often each was closed are determined by which slot names which handle |
| `DescriptorRuns.Perform` | src/arch/syscall.c:591-1098 | each call, made on counts and flags, is the same call on the plain record of slots |
| `DescriptorRuns.Run` | src/arch/syscall.c:591-1098 | after every sequence of open, pipe, dup2, close, new task, fork, failed fork, exit, kill and reaping, from nothing on, the kernel holds exactly what the slots say |
| `DescriptorRuns.SlotsAfter` | src/arch/syscall.c:591-1098 | what each slot of each table names after each call: the lowest free slot from 3 on for open, the two lowest for a pipe, the other slot's handle for dup2, nothing after close and exit, the parent's handles in a fork, and what it named before in all other cases |
| `DescriptorRuns.TablesAfter` | src/arch/syscall.c:591-1098 | which tables there are after each call, and which handles it makes |
| `DescriptorRuns.ClosedExactlyOnce` | src/fs/vfs.c:236-266 | over every run, the close operation of a handle has run not at all while some slot names it and exactly once ever after |
| `DescriptorRuns.FlagsFollowNames` | src/fs/pipe.c:6-161 | over every run, a pipe keeps its two ends, a flag is set exactly as long as some slot names that end, and a cleared flag stays cleared |
| `DescriptorRuns.PipeMade` | src/arch/syscall.c:933-1057 | a pipe call with memory and two free slots makes a pipe with both flags set, named by the two lowest of them |
| `Scheduler.StepKeeps` | src/sched/sched.c:71-804 | every operation keeps the ring one cycle through the kernel task, the current task alive, every parent a living ring member, and every pid unique |
| `Scheduler.RunKeeps` | src/sched/sched.c:71-804 | that invariant in every state of every run |
| `Scheduler.DeadNeverRuns` | src/sched/sched.c:448-545 | a zombie or a removed task is never current again, whatever happens afterwards |
| `Scheduler.BoundedWait` | src/sched/sched.c:339-422 | a task that stays ready at ring distance d becomes current within d scheduling calls plus one for every task registered meanwhile |
| `Scheduler.StepNearer` | src/sched/sched.c:339-422 | each scheduling call chooses a ready task or brings it nearer, and a registration puts it back by one at most |
| `Scheduler.LeftKeeps` | src/sched/sched.c:448-504 | exit chooses another, ready task and leaves the exiting one a zombie, with the invariant kept |
| `Scheduler.BuriedKeeps` | src/sched/sched.c:71-92 | after adoption by the kernel task and the death, no parent is a zombie |
| `Scheduler.RemovedKeeps` | src/sched/sched.c:260-287 | taking a zombie out keeps one cycle and all parents in it |
| `Scheduler.RegisteredKeeps` | src/sched/sched.c:585-604 | a new task behind the kernel task keeps one cycle |
| `TaskRing.Ring.constructor` | src/sched/sched.c:289-328 | the kernel task alone, ready and current |
| `TaskRing.Ring.FindTask` | src/sched/sched.c:50-62 | found exactly when the pid is in the ring |
| `TaskRing.Ring.ReparentChildren` | src/sched/sched.c:71-92 | one walk round the pointers adopts every child and wakes those of a window's owner |
| `TaskRing.Ring.CheckSleeping` | src/sched/sched.c:737-761 | the tick step: exactly the sleepers whose time has come become ready, and no other task changes |
| `TaskRing.Ring.Search` | src/sched/sched.c:362-385 | the walk along the pointers ends at the first ready task |
| `TaskRing.Ring.Schedule` | src/sched/sched.c:339-422 | the switch to the first ready task behind the current one |
| `TaskRing.Ring.Halt` | src/sched/sched.c:424-432 | the block or sleep step followed by the switch |
| `TaskRing.Ring.WakePid` | src/sched/sched.c:434-446 | the task of that number is ready afterwards unless it is unknown or a zombie; no other task changes |
| `TaskRing.Ring.ExitTask` | src/sched/sched.c:448-504 | the exit step on the pointers: the current task is a zombie, its parent is ready, its children are the kernel task's, and every other task is as before |
| `TaskRing.Ring.KillTask` | src/sched/sched.c:506-545 | the kill step on the pointers, with the same said of the task killed |
| `Wakeups.StatusAfter` | src/sched/sched.c:339-761 | status and parent of every task after every operation, task by task: who dies, who stops, who is made ready and who keeps what it was |
| `Wakeups.MembersAfter` | src/sched/sched.c:260-604 | which tasks there are: a registered one is new and ready, an unlinked one is gone, no other comes or goes |
| `Wakeups.CurrentAfter` | src/sched/sched.c:339-422 | which task runs next: the nearest one of the ring that is ready, for the operations that choose; the same one for all others |
| `Wakeups.RegisteredPlace` | src/sched/sched.c:585-604 | a new task comes directly behind the kernel task |
| `Wakeups.WokenRuns` | src/sched/sched.c:339-761 | over any run a task that is woken by its number, the clock or the death of a child runs again unless it is killed, within as many calls of the scheduler as it is places away and one more for every task registered meanwhile |
| `TaskRing.Ring.NewTask` | src/sched/sched.c:94-106 | a pid never used before, remembered with its creator |
| `TaskRing.Ring.RegisterTask` | src/sched/sched.c:585-604 | the register step on the pointers |
| `TaskRing.Ring.UnlinkTask` | src/sched/sched.c:260-287 | the unlink step on the pointers; an unknown task changes nothing |
| `TaskRing.Ring.ReapZombies` | src/sched/sched.c:763-804 | one zombie that only the kernel could wait for leaves; none does only if there is none |
| `FreeList.ListIsItsBytes` | src/mem/kmalloc.c:127-175 | two address-ordered, untouching lists that cover the same bytes are the same list |
| `FreeList.FreeListDetermined` | src/mem/kmalloc.c:72-175 | the free list is determined by the frames obtained and the live blocks: no history of allocations leaves a trace |
| `FreeList.PutKeeps` | src/mem/kmalloc.c:127-175 | freeing keeps the list in address order with no two blocks touching, and adds exactly the block's bytes |
| `FreeList.GiveOut` | src/mem/kmalloc.c:72-125 | bytes moved from the list to a new block keep free and live blocks a tiling of the frames |
| `FreeList.TakeBack` | src/mem/kmalloc.c:127-175 | a live block's bytes put back keep the tiling |
| `FreeList.OneBlock` | src/mem/kmalloc.c:20-43 | a run of free bytes lies in one block of the list |
| `Sizes.RoundedEnough` | src/mem/kmalloc.c:80-80 | rounding gives at least the request exactly when the request does not wrap around |
| `Sizes.RoundedWraps` | src/libc/libc.c:660-660 | the largest request is rounded to nothing |
| `KernelHeap.NowFits` | src/mem/kmalloc.c:90-104 | after a new page every small request fits |
| `KernelHeap.Heap.constructor` | src/mem/kmalloc.c:14-15 | an empty heap |
| `KernelHeap.Heap.KfreeUnlocked` | src/mem/kmalloc.c:127-175 | pointer surgery on split and merge: the list covers the block's bytes as well, in order and untouching |
| `KernelHeap.Heap.FindFreeBlock` | src/mem/kmalloc.c:45-70 | the first block with room leaves the list; it fails exactly when none has room |
| `KernelHeap.Heap.RequestNewPage` | src/mem/kmalloc.c:20-43 | the page's bytes are free, and the heap tiles one frame more |
| `KernelHeap.Heap.Carve` | src/mem/kmalloc.c:106-121 | the block keeps what was asked for and the rest goes back |
| `KernelHeap.Heap.Kmalloc` | src/mem/kmalloc.c:72-125 | a new live block of the rounded size, disjoint from all others; a small request fails only when nothing fits and no frame is left |
| `KernelHeap.Heap.Kfree` | src/mem/kmalloc.c:127-193 | the block is no longer live and the tiling holds |
| `KernelHeap.Heap.AllocThenFree` | src/mem/kmalloc.c:72-193 | allocating without a new page and freeing restores the free list exactly |
| `BlockList.TiledApart` | src/libc/libc.c:599-610 | blocks that tile the heap do not overlap, headers included |
| `BlockList.CoalescedNoTwo` | src/libc/libc.c:721-736 | after the pass of free no two neighbours are free |
| `BlockList.CoalescedTiles` | src/libc/libc.c:721-736 | the pass keeps the tiling from base to break |
| `BlockList.CoalescedUsed` | src/libc/libc.c:721-736 | the pass leaves every used block as it was |
| `BlockList.CoalescedFixed` | src/libc/libc.c:721-736 | the pass does nothing to a list without two free neighbours |
| `UserHeap.PayloadsDisjoint` | src/libc/libc.c:654-703 | payloads of different used blocks are disjoint |
| `UserHeap.Heap.constructor` | src/libc/libc.c:609-609 | an empty heap at the break |
| `UserHeap.Heap.FindFreeBlk` | src/libc/libc.c:614-623 | the first free block with room, or the last block |
| `UserHeap.Heap.RequestSpace` | src/libc/libc.c:628-652 | one used block more at the break, linked behind the last; contents of all others are kept |
| `UserHeap.Heap.TakeBlock` | src/libc/libc.c:685-700 | the block is taken or split; contents of all used blocks are kept |
| `UserHeap.Heap.Malloc` | src/libc/libc.c:654-703 | a new used block with room for the rounded request; the heap stays a tiling with no two free neighbours, all contents are kept, and it fails exactly when asked for nothing or nothing fits and the break cannot move |
| `UserHeap.Heap.Coalesce` | src/libc/libc.c:721-736 | the pass on the headers, keeping all contents |
| `UserHeap.Heap.Free` | src/libc/libc.c:705-736 | exactly that block is free, neighbours are merged, contents of the others are kept; without the mark nothing changes |
| `UserHeap.Heap.Copy` | src/libc/libc.c:297-382 | the destination holds the source's bytes and nothing else changes |
| `UserHeap.Heap.Realloc` | src/libc/libc.c:738-767 | the block stays if it is large enough, else the new block holds the old contents, the old one is free, and all other contents are kept; on failure nothing changes |
| `ElfLoader.SegmentLoaded` | src/elf.c:50-118 | a byte of a segment is the file's below p_filesz and zero from there to p_memsz, also where segments share a page |
| `ElfLoader.MappedExactly` | src/elf.c:50-118 | the pages that have a byte of some loaded segment are mapped, and no others |
| `ElfLoader.ImageCorrect` | src/elf.c:50-118 | the same of the memory the loader leaves, for pages not mapped before |
| `ElfLoader.Loader.MapPage` | src/elf.c:66-89 | a mapped page stays, another gets a zeroed frame of its own; it fails only when no frame is left |
| `ElfLoader.Loader.MapPages` | src/elf.c:63-89 | all pages of the segment, old contents kept and new pages zero |
| `ElfLoader.Loader.Fill` | src/elf.c:91-116 | the segment's bytes come from the file page by page, short reads included, and no other byte changes; it fails only at an unmapped page |
| `ElfLoader.Loader.Load` | src/elf.c:50-118 | every byte of the address space is as the program headers in order make it; it fails only when frames or tables run out or a segment takes more from the file than it occupies |
| `Screen.PutElsewhere` | progs/terminal.c:52-101 | a character changes one cell at most; all other cells move up with their row when the last line ends, and a blank row comes in |
| `Screen.PutHere` | progs/terminal.c:65-101 | the cell a character is written to, its colours, the cell a backspace blanks, and where the cursor goes |
| `Screen.PixelShown` | progs/terminal.c:163-225 | every pixel of a full drawing: the glyph in the colours of its cell, black on white under a visible cursor, black beyond the last cell |
| `Screen.RedrawUnique` | progs/terminal.c:163-225 | there is exactly one full drawing of a screen |
| `Terminal.TurnShows` | progs/terminal.c:52-63 | blanking the first line and starting one later is the plain screen moved up |
| `Terminal.Term.constructor` | progs/terminal.c:300-336 | blank text, and a record of drawn cells that agrees with the empty frame buffer |
| `Terminal.Term.WriteCell` | progs/terminal.c:74-90 | one cell of the plain screen changes |
| `Terminal.Term.Scroll` | progs/terminal.c:52-63 | the rotating buffer refines the screen that moves up |
| `Terminal.Term.PutChar` | progs/terminal.c:65-101 | refines the effect of a character on the plain screen |
| `Terminal.Term.SetCursor` | progs/terminal.c:119-134 | the cursor is placed, cut to the screen |
| `Terminal.Term.ClearScreen` | progs/terminal.c:136-151 | all cells blank and the cursor home, for mode 2 only |
| `Terminal.Term.RenderCell` | progs/terminal.c:163-181 | the cell's pixels are drawn and no others change |
| `Terminal.Term.RefreshCell` | progs/terminal.c:193-217 | a cell is drawn only if it differs from the record, and the record agrees with the frame either way |
| `Terminal.Term.Refresh` | progs/terminal.c:183-225 | the frame buffer is the full drawing of the screen with the cursor, although only differing cells are drawn; it is reported as changed exactly when some cell differed |
| `Ansi.DecimalReads` | progs/nyamo.c:142-160 | reading a printed number gives it back |
| `Ansi.SplitAt` | src/libc/ansi.c:34-62 | the fields of a parameter string |
| `Ansi.MoveParams` | src/libc/ansi.c:34-62 | the parameters of a printed movement are its row and column |
| `Ansi.FeedParams` | src/libc/ansi.c:100-108 | parameter characters are collected while there is room |
| `Ansi.FeedMove` | src/libc/ansi.c:64-185 | a printed cursor movement makes exactly the one set_cursor call |
| `AnsiLaws.FeedSequence` | src/libc/ansi.c:64-185 | a sequence with any numbers is its last character with the first four of them; no number counts as a zero |
| `AnsiLaws.OneColor` | src/libc/ansi.c:141-165 | the eight colours of the codes 30 to 37, white for 0, nothing for any other code |
| `AnsiLaws.ColorsInTurn` | src/libc/ansi.c:141-165 | several codes in one sequence do what they do one after the other |
| `AnsiLaws.CursorTo` | src/libc/ansi.c:119-129 | row and column count from one, and zero or none is the first |
| `AnsiLaws.ScreenCleared` | src/libc/ansi.c:130-140 | only a 2 clears the screen |
| `AnsiLaws.ModeSwitched` | src/libc/ansi.c:166-181 | a mode is switched on by h and off by l unless its number is zero |
| `AnsiLaws.NothingDone` | src/libc/ansi.c:109-185 | any other command, or one the driver does not have, does nothing |
| `AnsiLaws.HoldsFirst` | src/libc/ansi.c:102-108 | of the parameter characters the first 31 are kept, however many come |
| `AnsiLaws.HeldFits` | src/libc/ansi.c:64-185 | no text makes the parser hold more than 31 characters |
| `AnsiLaws.EscapeDropped` | src/libc/ansi.c:82-98 | what follows an escape that is no bracket is dropped |
| `Ansi.RoundTrip` | src/libc/ansi.c:64-185 | any sequence of printed movements and ordinary characters makes exactly the matching calls in order and ends in the normal state (CUP, section 8.3.21 of ECMA-48) |
| `AnsiParser.ReadNumber` | src/libc/ansi.c:16-32 | the first number of the string |
| `AnsiParser.Parser.constructor` | progs/terminal.c:337-342 | the normal state |
| `AnsiParser.Parser.ParseParams` | src/libc/ansi.c:34-62 | splitting in place gives the first four fields' numbers |
| `AnsiParser.Parser.SetColors` | src/libc/ansi.c:140-164 | every colour code in order, the last one remembered |
| `AnsiParser.Parser.RunCommand` | src/libc/ansi.c:116-181 | the driver calls of the final character |
| `AnsiParser.Parser.WriteChar` | src/libc/ansi.c:64-185 | one character on the buffer refines the step on values |
| `AnsiParser.AppendInt` | progs/nyamo.c:142-160 | the number in decimal behind what was there |
| `AnsiParser.AppendMoveCursor` | progs/nyamo.c:162-170 | the escape sequence behind what was there |
| `PathResolver.ResolvePlain` | src/fs/vfs.c:425-514 | the result is absolute, has no empty, "." or ".." component and spells the names walked to |
| `PathResolver.Steps` | src/fs/vfs.c:466-484 | a plain name goes down, "." stays, ".." goes up but not above the root |
| `PathResolver.UpUndoesDown` | src/fs/vfs.c:466-484 | a name followed by ".." leads back to where it began, and above the root is the root |
| `PathResolver.ResolveIdempotent` | src/fs/vfs.c:425-514 | a resolved path resolves to itself from any directory |
| `PathResolver.ResolveComposes` | src/fs/vfs.c:425-514 | resolving relative b against the resolved a is resolving a, a slash and b, for non-empty a |
| `PathResolver.ComposesExactly` | src/fs/vfs.c:430-445 | the law holds of a for all directories and all relative b exactly when a is not empty |
| `PathResolver.EmptyDoesNot` | src/fs/vfs.c:430-434 | with an empty first path the joined path is absolute and the law fails |
| `PathResolver.ResolvePath` | src/fs/vfs.c:425-514 | the character loop and the rebuilding compute the resolved path |
| `PathResolver.Collapse` | src/fs/vfs.c:454-499 | the stack holds the names left by the components |
| `PathResolver.Rebuild` | src/fs/vfs.c:501-510 | the names separated by slashes behind the root |
| `Console.Console.Write` | progs/terminal.c:599-607 | after any text, parser and screen are those that its characters and their driver calls make one after the other |
| `Console.Console.Show` | progs/terminal.c:460-634 | text and a refresh: the frame is the full drawing of that screen |
| `Console.ActsJoin` | progs/terminal.c:107-160 | driver calls one after the other add up |
| `Console.CharacterShows` | progs/terminal.c:65-160 | a cursor sequence and a character: that cell shows the character in the colours of the moment, and every other cell is as before |
| `Console.MoveShows` | progs/terminal.c:119-134 | a cursor sequence moves the cursor, no further than the last row and column, and does nothing else |
| `Console.ColorShows` | progs/terminal.c:113-117 | a colour sequence changes the colour of what is written next and nothing else |
| `Console.ClearShows` | progs/terminal.c:136-150 | the clear sequence leaves blanks everywhere and the cursor in the corner |

## Left out

- Memory is typed: frames that hold tables and frames that hold bytes are kept apart in the paging model, and headers and bytes apart in the user heap.
- The kernel's own list of virtual regions is not modelled: vmm_alloc_global and vmm_free are modelled page by page, with the addresses given.
- The placing of the frame bitmap in memory by pmm_init is not modelled, only the state it leaves.
- Pager.PageTables.MapPage: when no table can be had, the code drops the caller's frame; the contract says that the frame stays taken.
- Pager.PageTables.UnmapPage: demands that the region's flag agrees with the entry, because `Mapping.UnmapBalancedIff` shows that counts go wrong otherwise; `KernelRuns.Run` leaves such a call out, and `TaskMemory` says when flags agree.
- TaskMemory.Task.Munmap: demands the same of the task's flags.
- Pager.PageTables.MapKernelPage: demands that a page it replaces is a frame of the kernel's own, since the page's reference is dropped.
- Huge pages of the boot loader are not modelled.
- Pager.PageTables.HandleCow: is stated for write faults on entries that do not allow writing, which is when the processor raises them.
- Shared-memory objects are the frames they hold; their names, their table and the giving back of frames when an object is only half made are left out.
- The boot sector and the free-space sector are left out, and the driver's long-name entries; the builder's are 32 bytes given by the caller.
- Fat32.Volume.FindRoom: where the lowest free entry is that of a cluster behind the end of the disk, the driver marks it and its first access to the cluster waits for the drive for ever; the model ends in front of the marking.
- DiskBuilder.Builder.AddFile: where clusters run out the script raises an error or writes behind the end of the image; the model ends there and promises nothing of the image.
- Placing the image in a partition is left out.
- Fat32.Volume.CreateFile: models files, not directories, and names that do not begin with the byte 0xE5; such a name makes an entry that is taken for a deleted one.
- FatNames.ParseName: names are sequences of bytes without their terminator.
- Fat32.Volume.Write: demands that the end of the write is below 4 GiB, the largest length a directory entry can hold.
- Clip lists are sequences of pool indices instead of linked rectangles, so updating in place and sharing between lists are not captured; pixels, decorations and the events sent to programs are left out.
- ClipLists.Screen.Create: a window that gets no rectangle for its clip list stays in the stack, as in the code, which has freed its memory by then; what that memory is used for next is not modelled.
- Signals, FPU and register state and the page tables of a task are not part of the scheduler model; message queues, which wake tasks without looking at their state, are left out, and the kernel task never blocks.
- Scheduler.DeadNeverRuns: is about the scheduler's own operations only.
- KernelHeap.Heap.Kmalloc: requests of about a page and more go to the virtual allocator, which is answered by `Large` and not modelled.
- UserHeap.Heap.Realloc: demands a request that does not wrap around in the rounding (`Sizes.RoundedEnough`), because the copy would otherwise run past the new block.
- UserHeap.Heap.Free: demands that a marked header belongs to a block of the list; a header left behind by a merge is not told from one.
- The break is moved by malloc only.
- ElfLoader.Loader.Load: begins after the ELF header; the magic number, the 16-bit product of header count and size, and addresses that wrap around 64 bits are not modelled.
- The alternate screen buffer, resizing of the terminal and the private sequences the terminal takes out of the text are left out.
- AnsiParser.ReadNumber: numbers are unbounded, so the overflow of a 32-bit int by a long parameter is not modelled; printed numbers do not overflow.
- PathResolver.ResolvePath: the fixed buffers of 256 characters and of 32 names of 31 characters are unbounded here, and running out of memory is left out.
- Device drivers, interrupt set-up, message queues, event queues, the system-call layer as such, the shell, the editor's buffer and the other programs are left out.
