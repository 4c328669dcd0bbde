# OluxOS in Dafny

A model of the state-heavy core of the OluxOS kernel, with machine-checked
proofs of what that code promises. `dafny verify dfyconfig.toml` checks all of
it. Each component is written twice over: once as plain values with the laws
about them (functions and lemmas), and, where the C code changes things in
place, once as a class or a loop whose contract ties it to those values.

| files | component | abstract meaning |
|---|---|---|
| `VmaList`, `Vm`, `VmOps` | user address spaces (mm/vm.c) | a page map and private memory per address space |
| `Buddy`, `PageAlloc`, `Memblock` | page allocator and boot allocator (mm/) | a set of free pages, a set of addresses |
| `BufferCache`, `BlockCache` | write-back buffer cache (drivers/block/blkdev.c) | one flat byte array per disk |
| `RunQueue`, `Sched`, `SchedRace`, `WakeRace`, `ExitRace`, `SchedOrder`, `SchedPolicy` | scheduler (kernel/sched.c) | one place per thread, exact bitmaps |
| `WaitQueue`, `WaitOrder`, `WakeOne`, `Completion`, `LostWakeup` | wait queues, mutex, completions (kernel/wait.c) | sleepers and who will wake them |
| `Virtqueue` | split virtqueue (drivers/virtio/virtio_mmio.c) | a free list, chains in flight, two queues |
| `PageTables`, `KernelMap` | kernel page tables with blocks (arch/arm64/mmu.c) | a map from pages to frames and attributes |
| `FdtTokens`, `FdtTree`, `FdtWalk`, `FdtPath`, `FdtAlias` | device tree navigation (lib/fdt.c) | the tree that was flattened |
| `Futex`, `FutexRun` | futexes (kernel/futex.c) | one queue per key, and who has read what |
| `Tmpfs`, `TmpfsRuns`, `TmpfsFiles` | tmpfs regular files (fs/tmpfs.c) | one byte sequence per file, and the history it comes from |
| `Clock`, `Calendar` | clock discipline and calendar (kernel/time.c, drivers/rtc/rtc.c) | a closed formula; proleptic Gregorian dates |
| `Cpio`, `CpioTree` | newc writer and reader (scripts/mkinitramfs.py, fs/initramfs.c) | a list of entries |
| `TicketLock` | ticket spinlock (kernel/spinlock.c) | a line of contenders |

`Common`, `CArith`, `Lists`, `Bytes` and `Counter16` hold error numbers, C's
truncating division, linked lists as sequences, padding and 16-bit counters.

How to read the models:

- Runs are sequences of steps by any number of CPUs, threads or address spaces, in
  any order. Code under one lock is one step where everything it touches is under
  that lock. It is not in the scheduler, where a thread's lock changes with its
  CPU and a running thread sets its own state: there taking a lock, testing,
  setting, queueing, switching and finish_switch are steps of their own.
- What the environment decides is arbitrary: device transfers may fail (and a
  failed write may leave anything in its block), allocations may fail, user
  copies may fault after any number of bytes, the virtio device may complete
  chains in any order. Where a contract says that something falls short only for
  a reason, a ghost counter counts those failures.
- Integers are unbounded except where the width is the point: 16-bit ring and
  ticket counters, 32-bit `tm_year`, 32-bit archive fields.

## Where the code does not do what one would expect

Each of these has its input or run, and the exact condition under which the code
does what one would expect, in the lemmas and contracts named.

- A priority change races with the queueing of a thread in transit, which holds
  another CPU's lock. The thread lands on the list of a level it does not have,
  and later pick_next takes the first entry of an empty list
  (`SchedRace.StaleBit`). `SchedRace.SafeExactlyWhenSettled`: a change is safe
  exactly when its thread is neither in transit nor still to be added.
- A wakeup that takes the lock of a thread in transit, such as that of its sleep
  timer, can lose the thread: it is queued, runs and goes to sleep on another CPU
  before the wakeup looks, and ends up runnable on no CPU and no queue for good
  (`WakeRace.LostSleeper`, `WakeRace.NeverRunsAgain`).
  `WakeRace.SafeWakeExactlyWhenSettled`: taking the lock is safe under exactly the
  same condition. It is the discipline under which the results about places,
  bitmaps and wait queues hold.
- A waker tests a thread's state and then sets it. A thread that finds its
  condition true in between, goes on and exits is set running again, and the
  schedule call of its exit returns (`ExitRace.DeadRunsAgain`).
  `ExitRace.ExitIsFinalExactly`: an exit is final exactly when no waker is between
  the two.
- `complete()` with several waiters can lose a wakeup: a waiter that is satisfied
  or has just prepared again is still queued in a sleeping state, and the wakeup
  can be spent on it (`LostWakeup.LostOnSatisfied`, `LostWakeup.LostOnPrepared`).
  `Completion.NoLostCompletion` and `Completion.SafeStopExactly`: nothing is lost
  when every wakeup stops at a waiter that really sleeps, and what a wasted one
  costs. With one waiter per completion, as in kernel/process.c and
  drivers/virtio/virtio_blk.c, nothing is lost (`Completion.OneWaiterNeverMisses`).
- An interruptible locker that is woken after it has found the mutex taken, and
  before it looks for a pending signal, gives up and takes the wakeup with it
  (`LostWakeup.LostWhenGivingUp`; `Completion.GivingUpExactly`; the safety results
  also let a waiter leave straight from schedule). Under the discipline above
  `wake_up` loses nothing (`WaitQueue.NoLostWakeup`), and neither does
  `wake_up_one` for `mutex_lock` (`WakeOne.MutexNoLostWakeup`).
- A tmpfs write that faults part way keeps what it had copied. At the end of the
  file that leaves bytes past the size which a later extension shows
  (`TmpfsFiles.FaultShowsLater`). `TmpfsRuns.RunExactly`: after any run of writes,
  extensions and truncations the tail is zero and the contents are right exactly
  where no such byte lingers, neither overwritten nor cut off. A zero-length write
  past the end extends the file, and a faulting read that copied something leaves
  the file position.
- `do_mmap` with MAP_FIXED of a shared writable regular file returns EOPNOTSUPP
  after it has unmapped the range (`VmOps.LosesHeapPage`; the exact condition is
  `VmOps.LosesMapping`, in the contract of `VmOps.AddressSpaces.Mmap`).
- `mm_get_unmapped_area` gives up when the highest hole is too close to the heap,
  although lower holes may exist (`VmaList.GivesUpEarly`,
  `VmaList.NoAreaExactly`).
- `unmap_kernel_page` leaves a page that lies inside a block mapped
  (`KernelMap.KernelTables.UnmapKernelPage`).
- The virtqueue rings overwrite a live entry where their 16-bit indices wrap,
  exactly for queue sizes that do not divide 65536 (`Virtqueue.WrapsCleanly`,
  `Virtqueue.PushesCleanly`); section 2.6 of VIRTIO 1.1 wants powers of two.
- `secs_to_tm` followed by `tm_to_secs` is the identity exactly while the year
  fits in 32 bits (`Calendar.TmRoundTrip`).
- With 65536 in line the ticket lock looks free while it is held, and a trylock
  makes a second holder (`TicketLock.FullLineLooksFree`). It excludes exactly up
  to 65536 contenders (`TicketLock.SafeExactly`).
- `memblock_alloc` returns 0 also when the highest fit is address 0, and then
  has reserved it (`Memblock.Memblock.Alloc`).
- `fdt_path_offset` on the full path of a node finds another one when an earlier
  sibling has the same name with a unit address (`FdtPath.ShadowedByUnit`;
  `FdtPath.PathResolves`). Aliases that form a cycle make it recurse without end
  (`FdtAlias.TwoAliasesNeverEnd`, `FdtAlias.CycleNeverEnds`); `FdtAlias.EndsExactly`
  tells which paths do.
- Nice values reach the run-queue levels 25 to 29, not 24 to 29 or 24 to 30 as
  the comments say (`SchedPolicy.LevelsGiven`).
- `futex_requeue` onto its own key reports nrequeue moves for a queue of two or
  more, and turns the queue that many times (`Futex.SpinRotates`).

## Model

| member | source | states |
|---|---|---|
| `VmaList.VmaFind` | mm/vm.c:145-152 | finds the VMA that contains a page, and fails only when the page map has nothing there |
| `VmaList.VmaFindIntersect` | mm/vm.c:154-161 | returns the lowest VMA that meets the range, and none exactly when the range is a hole |
| `VmaList.VmaInsert` | mm/vm.c:163-169 | the list stays sorted and disjoint; the page map gains exactly the pages of the new VMA |
| `VmaList.SplitKeepsPageMap` | mm/vm.c:181-193 | splitting a VMA keeps flags, file offset, file-backed bytes and I/O address of every page |
| `VmaList.GetUnmappedArea` | mm/vm.c:217-237 | the answer is exactly the one AreaIs describes: the highest hole below mmap_base, unless it is too close to the heap; what is found is free and clear of the heap |
| `VmaList.AreaUnique` | mm/vm.c:217-237 | that description has one answer |
| `VmaList.NoAreaExactly` | mm/vm.c:226-232 | with the break above its start the search fails exactly when there is no hole or the highest one is too close to the heap |
| `VmaList.GivesUpEarly` | mm/vm.c:226-232 | for every mmap base mm_create can choose, a space in which it fails although every page below the heap is usable |
| `VmaList.GrowPageMap` | mm/vm.c:293-310 | stack growth adds exactly the zero pages between the fault and the old start |
| `VmaList.RemovePageMap` | mm/vm.c:389-408 | removing a VMA removes exactly its pages from the page map |
| `VmaList.ExtendPageMap` | mm/vm.c:511-563 | extending a VMA upward into a hole adds exactly the new pages, with the same backing rule |
| `Vm.ZapKeepsInv` | mm/vm.c:52-84 | clearing one entry keeps exact reference counts, resident counts and the copy-on-write rule over all address spaces |
| `Vm.FaultNewKeepsInv` | mm/vm.c:249-291 | a demand fault keeps the global invariant |
| `Vm.FaultWriteKeepsInv` | mm/vm.c:249-291 | breaking copy-on-write, by reuse or by copy, keeps the global invariant |
| `Vm.ForkPageKeepsInv` | mm/vm.c:332-376 | sharing a page with a child keeps the global invariant |
| `Vm.MovePteKeepsInv` | mm/vm.c:511-547 | moving an entry keeps the global invariant |
| `Vm.ProtectKeepsInv` | mm/vm.c:469-509 | changing access over a range keeps the global invariant, shared pages included |
| `Vm.EditVmasKeepsInv` | mm/vm.c:163-193 | any sorted list that gives present pages the same attributes keeps the global invariant |
| `Vm.StoreKeepsInv` | mm/vm.c:249-291 | a store through a writable entry keeps the global invariant |
| `Vm.ZapMem` | mm/vm.c:52-84 | clearing an entry changes what no other page reads |
| `Vm.FaultNewMem` | mm/vm.c:241-291 | faulting a page in changes nothing any address space reads |
| `Vm.FaultWriteMem` | mm/vm.c:249-291 | breaking copy-on-write changes nothing any address space reads |
| `Vm.ForkPageMem` | mm/vm.c:332-376 | the child page reads what the parent page reads; nothing else changes |
| `Vm.MovePteMem` | mm/vm.c:511-547 | the moved page reads the same at its new address |
| `Vm.ProtectMem` | mm/vm.c:469-504 | mprotect changes no contents and nothing outside its range |
| `Vm.StoreMem` | mm/vm.c:249-291 | a store is seen by its own page and by shared mappings of that page only |
| `Vm.StepKeepsInv` | mm/vm.c:249-376 | every atomic step of every operation keeps the global invariant |
| `Vm.RunKeepsInv` | mm/vm.c:249-376 | the invariant holds after every run of steps of all address spaces |
| `Vm.CowSafety` | mm/vm.c:249-376 | over every run from boot each reference count is the number of entries mapping the page, and a writable private entry is the only one |
| `Vm.StepIsIsolated` | mm/vm.c:249-376 | a step of one address space leaves every mapping and every private byte of the others alone |
| `Vm.RunIsIsolated` | mm/vm.c:249-376 | the same over every run |
| `VmOps.AddressSpaces.PagePut` | mm/page_alloc.c:129-138 | the count drops by one and the page goes when it reaches zero |
| `VmOps.AddressSpaces.ReleasePte` | mm/vm.c:52-58 | releases one entry; every other page reads as before |
| `VmOps.AddressSpaces.ZapRange` | mm/vm.c:61-84 | removes exactly the entries of the range; everything outside reads as before |
| `VmOps.AddressSpaces.FaultIn` | mm/vm.c:249-291 | the exact result: which error when, and success otherwise with the access asked for; contents never change |
| `VmOps.AddressSpaces.FaultAbsent` | mm/vm.c:253-269 | the demand half of fault_in |
| `VmOps.AddressSpaces.FaultReadOnly` | mm/vm.c:270-287 | the copy-on-write half of fault_in: a page without other owners is reused and needs no frame, any other is copied into the frame; nobody reads a difference |
| `VmOps.AddressSpaces.SplitVma` | mm/vm.c:181-193 | the list is split in place; attributes and contents of every page stay |
| `VmOps.AddressSpaces.UnmapRegion` | mm/vm.c:389-408 | exactly the pages of the range lose attributes and contents; splits at both ends change nothing else |
| `VmOps.AddressSpaces.Munmap` | mm/vm.c:462-467 | which arguments are refused, and exact removal otherwise; the break and all other spaces keep what they have |
| `VmOps.AddressSpaces.HandleFault` | mm/vm.c:293-310 | EFAULT exactly when the page is neither mapped nor reached by a stack that may grow to it; else the page is mapped, EACCES exactly when not permitted, and the exact result of fault_in; stack pages that appear read zeros |
| `VmOps.AddressSpaces.VmaForFault` | mm/vm.c:296-307 | the VMA of the page exactly when it is mapped or the next stack may grow down to it; new pages are zero |
| `VmOps.AddressSpaces.GrowStack` | mm/vm.c:293-310 | only the start of the stack VMA changes and only zero stack pages appear |
| `VmOps.AddressSpaces.UserStore` | mm/vm.c:293-310 | a user store changes one byte of one page, seen by other pages only through shared mappings; stack pages that appear are zero |
| `VmOps.AddressSpaces.ProtectVma` | mm/vm.c:469-504 | one VMA and its present entries change access; contents stay |
| `VmOps.AddressSpaces.ProtectEntries` | mm/vm.c:491-499 | every present entry of the range gets the permission its flags and sharing allow |
| `VmOps.AddressSpaces.WholeRangeMapped` | mm/vm.c:473-478 | decides whether every page of the range is mapped |
| `VmOps.AddressSpaces.Mprotect` | mm/vm.c:469-504 | exactly the pages of its range get the permission bits asked for and keep contents and all other flags, or nothing changes if some page is not mapped |
| `VmOps.AddressSpaces.MapVma` | mm/vm.c:195-207 | pages appear in a hole, unread; nothing else changes |
| `VmOps.AddressSpaces.MoveEntries` | mm/vm.c:534-543 | entries move page by page and every page reads the same at its new place |
| `VmOps.AddressSpaces.MoveMapping` | mm/vm.c:529-546 | the moving half: destination was a hole, first pages read the same, source is gone, rss unchanged |
| `VmOps.AddressSpaces.Mremap` | mm/vm.c:511-547 | which error when; shrinking always works, growing in place exactly when the next pages are free, moving exactly when the search finds a place; contents of old and new pages; nothing else of any space changes |
| `VmOps.AddressSpaces.Brk` | mm/vm.c:549-563 | the break moves exactly when it is not below its start and the new pages and one more are free; heap pages appear as readable, writable zeros or disappear |
| `VmOps.AddressSpaces.ForkPages` | mm/vm.c:351-369 | the pages of one VMA of the child read what the parent reads |
| `VmOps.AddressSpaces.Dup` | mm/vm.c:332-376 | the child has the mappings, the contents, the break and the bases of the parent; nobody else sees a difference |
| `VmOps.AddressSpaces.Exit` | mm/vm.c:86-141 | all memory of the space is gone; every other space keeps everything |
| `VmOps.AddressSpaces.Mmap` | mm/vm.c:410-460 | exactly when each error; where the mapping lands; each page reads the bytes of the file from its offset up to the size, and zeros after them, with the access asked for; an error changes the space exactly when a shared writable file was put over a fixed range in use |
| `VmOps.AddressSpaces.MakeRoom` | mm/vm.c:417-431 | the place of a new mapping, unmapped if it is fixed |
| `VmOps.LosesHeapPage` | mm/vm.c:417-449 | a space and arguments for which the refused call has unmapped a page |
| `Buddy.FlipsOneBit` | mm/page_alloc.c:61-66 | the arithmetic buddy differs from the frame number in exactly bit order, and clearing changes exactly that bit |
| `Buddy.SameBits` | mm/page_alloc.c:61-66 | the bits determine the number, so these are the values of ^ and & ~ |
| `Buddy.BuddyIsSibling` | mm/page_alloc.c:56-70 | the buddy is the other half of the block one order up, and clearing the bit gives that block |
| `Buddy.ZoneOfBlock` | mm/page_alloc.c:37-41 | a block never crosses a zone boundary |
| `Buddy.ZoneFrames` | mm/page_alloc.c:25-41 | the zones in frame numbers: blocks below 1 GiB, below 4 GiB, and above |
| `Buddy.AlignedIsMultiple` | mm/page_alloc.c:56-70 | a block of order o starts at a multiple of 2^o and holds the 2^o frames from there |
| `Buddy.FreeRunIsCovered` | mm/page_alloc.c:56-85 | in a fully coalesced set any aligned free run lies inside one free block |
| `Buddy.CanonicalIsUnique` | mm/page_alloc.c:56-70 | the set of free blocks is determined by the set of free pages alone |
| `Buddy.NoBlockNoRun` | mm/page_alloc.c:72-85 | a zone has a block of order k or more exactly when it has an aligned run of 2^k free pages |
| `Buddy.MergeWithBuddy` | mm/page_alloc.c:56-70 | one merge keeps the canonical form of the rest and the total of free pages |
| `Buddy.PlaceBlock` | mm/page_alloc.c:56-70 | placing a block without free buddy gives canonical form |
| `Buddy.SplitBlock` | mm/page_alloc.c:72-85 | giving back an upper half keeps canonical form and the total |
| `Buddy.FreeUndoesAlloc` | mm/page_alloc.c:56-116 | freeing an allocated block restores the very same set of free blocks |
| `PageAlloc.PageAllocator.AddFree` | mm/page_alloc.c:43-48 | list, mark and count change together; the block is first on its list |
| `PageAlloc.PageAllocator.DelFree` | mm/page_alloc.c:50-54 | list, mark and count change together; the others keep their order |
| `PageAlloc.PageAllocator.FreeBlock` | mm/page_alloc.c:56-70 | exactly the block becomes free; canonical form, lists and counters hold again |
| `PageAlloc.PageAllocator.AllocFrom` | mm/page_alloc.c:72-85 | fails exactly when the zone has no aligned free run; otherwise the first block of the smallest order that is enough gives its lower part, and exactly that leaves the free pages |
| `PageAlloc.PageAllocator.TakeFromList` | mm/page_alloc.c:72-85 | splitting hands out the lower part and frees the rest |
| `PageAlloc.PageAllocator.AllocPages` | mm/page_alloc.c:87-103 | fails exactly when no eligible frames form an aligned free run; a DMA request stays below 1 GiB and a DMA32 request below 4 GiB; lower frames are taken only when no run lies above |
| `PageAlloc.PageAllocator.FeedRegion` | mm/page_alloc.c:171-180 | one RAM region becomes free except its reserved pages |
| `PageAlloc.CountFreed` | mm/page_alloc.c:56-70 | the free page count of a zone grows by the block size |
| `PageAlloc.Init` | mm/page_alloc.c:152-185 | succeeds exactly when the boot allocator has room; then exactly the RAM pages that are not reserved are free, in canonical form |
| `Memblock.Insert` | mm/memblock.c:17-40 | sorted, disjoint, non-touching; union exactly old plus new; fails exactly on a full table with nothing to merge |
| `Memblock.MergeRegion` | mm/memblock.c:22-32 | swallowing a region keeps the union and the order of the rest |
| `Memblock.FirstConflict` | mm/memblock.c:69-78 | the first reservation in the way, or none exactly when the range is clear |
| `Memblock.HighestIn` | mm/memblock.c:64-85 | the highest aligned clear start in one region; the candidate strictly falls |
| `Memblock.HighestFit` | mm/memblock.c:61-88 | the highest aligned start inside memory, below the limit and clear of reservations |
| `Memblock.Memblock.Add` | mm/memblock.c:42-46 | exactly the whole pages of the range become memory; fails exactly on a full table with nothing to merge |
| `Memblock.Memblock.Reserve` | mm/memblock.c:48-52 | exactly the pages the range meets become reserved; fails exactly on a full table with nothing to merge |
| `Memblock.Memblock.IsReserved` | mm/memblock.c:54-58 | true exactly for covered addresses |
| `Memblock.Memblock.Alloc` | mm/memblock.c:60-88 | the highest fit, reserved; 0 when nothing fits; the panic exactly when the fit does not go into the table |
| `Memblock.FitIsUnreserved` | mm/memblock.c:60-88 | what is handed out is unreserved memory below the limit |
| `Memblock.RegionIsPaged` | mm/memblock.c:42-52 | regions start and end on page boundaries |
| `BufferCache.WriteBackStep` | drivers/block/blkdev.c:72-80 | a successful write back keeps the flat contents |
| `BufferCache.WriteFailedStep` | drivers/block/blkdev.c:50-80 | a failed write may leave anything on the disk block and the flat contents stay |
| `BufferCache.EvictStep` | drivers/block/blkdev.c:93-116 | forgetting a clean buffer keeps the flat contents |
| `BufferCache.CreateStep` | drivers/block/blkdev.c:117-131 | a new invalid buffer keeps the flat contents |
| `BufferCache.FillStep` | drivers/block/blkdev.c:132-135 | reading a block in, or failing to, keeps the flat contents |
| `BufferCache.OverwriteStep` | drivers/block/blkdev.c:160-167 | an overwrite changes exactly the bytes written |
| `BlockCache.Cache.Writeback` | drivers/block/blkdev.c:72-80 | clean on success, still dirty on failure, ndirty exact, flat contents kept |
| `BlockCache.Cache.Lookup` | drivers/block/blkdev.c:84-92 | finds the buffer of a block, or there is none |
| `BlockCache.Cache.Victim` | drivers/block/blkdev.c:95-103 | the least recently used buffer without users |
| `BlockCache.Cache.Obtain` | drivers/block/blkdev.c:83-131 | the one buffer of the block: the one there is, untouched; else a new one while there are fewer than max_bufs, and then the least recently used one recycled; LRU order exact |
| `BlockCache.Cache.Getblk` | drivers/block/blkdev.c:83-138 | a referenced buffer, most recently used, valid when read; fails exactly when something failed; flat contents kept |
| `BlockCache.Cache.PutBytes` | drivers/block/blkdev.c:160-171 | one chunk goes in and the buffer is dirty, with the time it first became so |
| `BlockCache.Cache.Write` | drivers/block/blkdev.c:140-176 | a result k means exactly the first k bytes changed; without a failure all of the request that lies on the device; at most the two partial blocks at its ends are read in |
| `BlockCache.Cache.ReadAt` | drivers/block/blkdev.c:140-176 | a result k means the first k bytes of the flat contents; without a failure all of the request that lies on the device |
| `BlockCache.Cache.SyncDisk` | drivers/block/blkdev.c:183-195 | 0 exactly when every write succeeded; then no matching buffer is dirty; buffers that do not match are left alone; flat contents kept |
| `BlockCache.Cache.BdevSync` | drivers/block/blkdev.c:197-207 | on success the disk equals the flat contents |
| `BlockCache.ContentsAfter` | drivers/block/blkdev.c:72-195 | after any history the flat contents are the last bytes written |
| `BlockCache.ReadsLastWritten` | drivers/block/blkdev.c:72-195 | every read of any history returns the last bytes written, through evictions and failures |
| `RunQueue.AddOk` | kernel/sched.c:43-50 | enqueue keeps bitmap bits equal to non-empty queues and the count exact |
| `RunQueue.AddOrder` | kernel/sched.c:43-50 | the thread is last on its level, or first if it keeps its place; the others keep their order |
| `RunQueue.DelOk` | kernel/sched.c:52-57 | dequeue keeps bitmap bits equal to non-empty queues and the count exact |
| `RunQueue.CpuQueue.Enqueue` | kernel/sched.c:43-50 | refines the queue value, at the head or the tail |
| `RunQueue.CpuQueue.Dequeue` | kernel/sched.c:52-57 | refines the queue value |
| `RunQueue.CpuQueue.PickNext` | kernel/sched.c:59-65 | takes the longest-waiting thread of the best non-empty priority, or reports all queues empty |
| `Sched.OnePlace` | kernel/sched.c:97-209 | every thread that is not idle is in exactly one place: current, queued, in transit or asleep |
| `Sched.WithStateKeeps` | kernel/sched.c:115-128 | changing the state of a running or queued thread keeps every thread placed |
| `Sched.StartMoveKeeps` | kernel/sched.c:115-133 | making a sleeper runnable puts it in transit with one waker |
| `Sched.FinishMoveKeeps` | kernel/sched.c:106-113 | activate queues the thread on one CPU |
| `Sched.SwitchFacts` | kernel/sched.c:162-209 | what schedule does to the two threads it switches between |
| `Sched.TakesBest` | kernel/sched.c:162-183 | schedule runs the longest-waiting thread of the best priority queued, the preempted one included, and the idle thread only when nobody is queued |
| `Sched.SwitchKeeps` | kernel/sched.c:162-204 | schedule, up to the switch, keeps every thread placed on every CPU |
| `Sched.FinishKeeps` | kernel/sched.c:149-155 | finish_switch keeps it |
| `Sched.SetKeeps` | kernel/sched.c:115-134 | a waker that sets the state under a lock that still protects the thread keeps it, also when the thread has changed its own state since the test |
| `Sched.EndChangeKeeps` | kernel/sched.c:297-303 | setting the priority under such a lock requeues at the new level and keeps it |
| `Sched.StepKeepsPlaced` | kernel/sched.c:43-306 | every step is defined and keeps every thread placed, if the lock it uses still protects its thread |
| `Sched.StepKeepsInv` | kernel/sched.c:43-306 | every step of every CPU is defined and keeps the invariant, locks included, if no lock is taken for a thread in transit |
| `Sched.RunKeepsInv` | kernel/sched.c:43-306 | the invariant holds after every run in which none is |
| `Sched.RunnableHasPlace` | kernel/sched.c:43-306 | over every such run a thread has one place, and a runnable one is never off all CPUs, queues and wakers |
| `Sched.BitmapsAgree` | kernel/sched.c:43-65 | over every such run each bitmap bit is set exactly when its queue is non-empty, nr_running is exact, and pick_next never meets an empty list |
| `SchedRace.RaceBreaks` | kernel/sched.c:106-113 | a thread in transit that is queued on another CPU during a priority change ends up on the list of the wrong level |
| `SchedRace.SafeExactlyWhenSettled` | kernel/sched.c:286-306 | a priority change is safe, whatever the other CPUs do, exactly when its thread is neither in transit nor still to be added |
| `SchedRace.WrongBit` | kernel/sched.c:52-57 | dequeueing a thread at a level it is not on leaves the bit of its list set |
| `SchedRace.StaleBit` | kernel/sched.c:52-65 | a run after which pick_next takes the first entry of an empty list |
| `WakeRace.NeverRunsAgain` | kernel/sched.c:115-134 | a runnable thread on no CPU, on no queue and in nobody's hands stays so over every run: every later wakeup sees it running |
| `WakeRace.Drain` | kernel/sched.c:162-183 | a queued thread gets to run, if those in front of it go to sleep |
| `WakeRace.StaleTest` | kernel/sched.c:115-128 | a wakeup under the lock of an old CPU, while the thread is being switched away from, makes it runnable and leaves it to nobody |
| `WakeRace.WakeRaceLoses` | kernel/sched.c:97-134 | from every state with a thread in transit, a wakeup that takes its lock there can lose it, whatever is queued on the target CPU |
| `WakeRace.SafeWakeExactlyWhenSettled` | kernel/sched.c:97-134 | taking the lock for a wakeup is safe, whatever the other CPUs do, exactly when the thread is neither in transit nor still to be added |
| `WakeRace.LostSleeper` | kernel/sched.c:97-155 | a run on two CPUs that loses a sleeper to its own timer |
| `ExitRace.DeadStaysDead` | kernel/process.c:304-312 | over every run a dead thread that no waker has already tested stays dead, and is never current again once it is off its CPU |
| `ExitRace.ExitIsFinalExactly` | kernel/process.c:304-312 | a thread that marks itself dead stays dead, whatever happens next, exactly when no waker is between its test and its store |
| `ExitRace.DeadRunsAgain` | kernel/sched.c:115-128 | a run in which a waker's store brings an exiting thread back and schedule returns to it |
| `SchedOrder.NoOvertaking` | kernel/sched.c:43-209 | no step takes a thread past one that is queued in front of it on its level |
| `SchedOrder.FirstComeFirstServed` | kernel/sched.c:43-209 | over every run that changes the priority of neither, of two threads on one level of one CPU the one queued earlier runs first |
| `SchedOrder.WokenIsLast` | kernel/sched.c:106-113 | a thread that activate queues is behind everybody on its level |
| `SchedOrder.ChangedIsLast` | kernel/sched.c:286-306 | so is a queued thread whose priority is set |
| `SchedOrder.RoundRobin` | kernel/sched.c:171-183 | a preempted thread that is not SCHED_FIFO does not run next while another of its level is queued, and is behind all those |
| `SchedOrder.FifoKeepsItsPlace` | kernel/sched.c:171-183 | a preempted SCHED_FIFO thread goes on exactly when nobody is queued on a better level |
| `SchedPolicy.AcceptedExactly` | kernel/sched.c:286-293 | exactly which requests are accepted |
| `SchedPolicy.LevelOf` | kernel/sched.c:279-284 | the level of every accepted request |
| `SchedPolicy.AcceptedRange` | kernel/sched.c:279-293 | which levels real-time, normal and idle requests get |
| `SchedPolicy.LevelsGiven` | include/olux/sched.h:20-26 | exactly the levels 0 to 23, 25 to 29 and 31 are ever given |
| `SchedPolicy.PolicyOrder` | kernel/sched.c:279-284 | a higher real-time priority never runs later, a higher nice value never earlier; real-time before normal before idle |
| `SchedPolicy.RequestTakesEffect` | kernel/sched.c:286-306 | an accepted request for a thread not in transit gives it the new level, requeued there if it was queued, and keeps the invariant |
| `WaitQueue.OthersStates` | kernel/sched.c:115-134 | no step takes another thread out of the running state |
| `WaitQueue.ActKeepsInv` | kernel/wait.c:11-36 | every step of waiters, wakers and bystanders keeps: a sleeper whose condition holds still has a waker coming, if no lock is taken for a thread in transit |
| `WaitQueue.RunKeepsWaitInv` | kernel/wait.c:11-36 | the same after every run in which none is |
| `WaitQueue.NoLostWakeup` | kernel/wait.c:11-93 | after every such run in which wake_up is used, once all wakers are done and the condition holds, every waiter is current, queued or in transit |
| `WakeOne.MutexKeeps` | kernel/wait.c:95-112 | every step of lockers and unlockers keeps the progress invariant of the mutex |
| `WakeOne.MutexNoLostWakeup` | kernel/wait.c:95-112 | over every such run with mutex_lock, if the mutex is free, unlockers are done and somebody sleeps, some waiter is awake to take it |
| `Completion.WalkCounts` | kernel/wait.c:38-44 | a wake_up_one that stops keeps the count of waiters on their way exactly when it stops at a waiter that really sleeps, or nobody else sleeps, or the count did not need it |
| `Completion.CarefulKeeps` | kernel/wait.c:11-58 | every other step of waiters, completers and bystanders keeps: while somebody sleeps there are at most as many completions as waiters on their way and wakeups to come |
| `Completion.NoLostCompletion` | kernel/wait.c:52-75 | over every such run in which each wake_up_one stops at a waiter that really sleeps no completion is lost |
| `Completion.SafeStopExactly` | kernel/wait.c:38-58 | nothing is lost after the last pending wakeup, whatever comes next, exactly when that wakeup was not wasted |
| `Completion.GivingUpExactly` | kernel/wait.c:77-93 | a waiter that gives up costs no completion exactly when it was not on its way, nobody else sleeps, or another waiter or wakeup stands in for it |
| `Completion.OneWaiterNeverMisses` | kernel/wait.c:52-93 | with one waiter at a time, timeouts included, no completion is lost over any such run |
| `WaitOrder.PreparesLast` | kernel/wait.c:11-21 | a new waiter is behind all others; one that prepares again keeps its place |
| `WaitOrder.LineStays` | kernel/wait.c:11-29 | nobody overtakes in the line |
| `WaitOrder.WalksTheLine` | kernel/wait.c:31-44 | over every run what a walk has ahead is the rest of the line |
| `WaitOrder.LongestWaiting` | kernel/wait.c:38-44 | over every run a wake_up_one has seen everybody in front of the place it has come to awake, so it wakes the one that has waited longest |
| `LostWakeup.LostOnSatisfied` | kernel/wait.c:38-93 | a run with two waiters and two complete() calls, the second spent on a waiter already satisfied |
| `LostWakeup.LostOnPrepared` | kernel/wait.c:38-93 | the same with the second spent on a waiter that has prepared again and not yet looked |
| `LostWakeup.LostWhenGivingUp` | include/olux/wait.h:36-51 | a run in which a waiter of wait_event_interruptible is woken between its false test and its look for a signal, gives up, and the wakeup is lost to the next |
| `Virtqueue.Partition` | drivers/virtio/virtio_mmio.c:117-174 | every descriptor is on the free list or in exactly one chain |
| `Virtqueue.FreeAfterAdd` | drivers/virtio/virtio_mmio.c:117-142 | the free list after taking its first entries |
| `Virtqueue.NewChain` | drivers/virtio/virtio_mmio.c:117-142 | the device finds exactly the buffers given, in order, and the token |
| `Virtqueue.ChainStays` | drivers/virtio/virtio_mmio.c:117-174 | a chain whose descriptors are not touched is unaltered |
| `Virtqueue.FreeAfterGet` | drivers/virtio/virtio_mmio.c:149-174 | a finished chain is linked in front of the free list |
| `Virtqueue.RingPush` | drivers/virtio/virtio_mmio.c:135-139 | a new ring entry overwrites no live one |
| `Virtqueue.RingPop` | drivers/virtio/virtio_mmio.c:151-160 | the oldest live entry is read |
| `Virtqueue.WrapsCleanly` | drivers/virtio/virtio_mmio.c:135-160 | entries less than a ring apart never share a slot across the wrap of the 16-bit index, exactly for sizes that divide 65536 |
| `Virtqueue.PushesCleanly` | drivers/virtio/virtio_mmio.c:135-139 | no push ever overwrites a live entry, exactly for these sizes |
| `Virtqueue.TokensConserved` | drivers/virtio/virtio_mmio.c:117-174 | over every history each token came back as often as it went in, less the chains still carrying it |
| `Virtqueue.Vq.constructor` | drivers/virtio/virtio_mmio.c:86-91 | all descriptors are free; a valid queue for sizes that divide 65536 |
| `Virtqueue.Vq.Add` | drivers/virtio/virtio_mmio.c:117-142 | ENOSPC exactly when empty or too long; otherwise one new chain from the head of the free list, all others unaltered, and its head in the next slot of the available ring |
| `Virtqueue.Vq.DeviceFetch` | drivers/virtio/virtio_mmio.c:135-139 | the device reads heads in the order they were added |
| `Virtqueue.Vq.DeviceComplete` | drivers/virtio/virtio_mmio.c:149-160 | the device may complete any chain it holds |
| `Virtqueue.Vq.Get` | drivers/virtio/virtio_mmio.c:149-174 | returns the token and length of the oldest completion, from the next slot of the used ring, and frees exactly its chain; none exactly when there is no completion |
| `PageTables.SamePrefix` | arch/arm64/mmu.c:62-80 | two walks meet in a table only if they agree down to it |
| `PageTables.WriteLeaf` | arch/arm64/mmu.c:83-97 | writing an entry changes the translation of exactly the pages under it |
| `PageTables.LeafEnds` | arch/arm64/mmu.c:83-97 | writing an entry ends the walks of the pages under it there and changes where no other walk ends |
| `PageTables.LinkLooks` | arch/arm64/mmu.c:49-80 | putting a table with the same meaning in place of an entry changes no translation |
| `PageTables.SplitMeaning` | arch/arm64/mmu.c:49-59 | the table split_block builds means what the block meant |
| `KernelMap.KernelTables.constructor` | arch/arm64/mmu.c:62-80 | an empty root table: valid, nothing mapped |
| `KernelMap.KernelTables.SplitBlock` | arch/arm64/mmu.c:49-59 | no translation changes |
| `KernelMap.KernelTables.WalkAlloc` | arch/arm64/mmu.c:62-80 | returns the table of the entry; allocation and splitting on the way change no translation |
| `KernelMap.KernelTables.WalkFind` | arch/arm64/mmu.c:62-80 | where the walk stops, and nothing mapped when a table is missing |
| `KernelMap.KernelTables.MapBlock` | arch/arm64/mmu.c:86-94 | one aligned block or page is mapped, everything else unchanged |
| `KernelMap.KernelTables.MapRange` | arch/arm64/mmu.c:83-97 | mapping with blocks equals mapping page by page: address and attributes of exactly the range; every page is in the largest block that lies in the range and is aligned in both address spaces |
| `KernelMap.KernelTables.MapKernelPage` | arch/arm64/mmu.c:99-107 | exactly one page is mapped |
| `KernelMap.KernelTables.UnmapKernelPage` | arch/arm64/mmu.c:109-115 | the page goes exactly if it has a level-3 table; a page inside a block stays mapped |
| `KernelMap.KernelTables.VaToPhys` | arch/arm64/mmu.c:117-127 | the physical address of the translation, or 0 |
| `FdtTokens.RdBe` | lib/fdt.c:20-23 | rd32 reads back a big-endian word |
| `FdtTokens.BigEndian` | lib/fdt.c:20-23 | the most significant byte comes first |
| `FdtTokens.NextToken` | lib/fdt.c:48-77 | on any bytes the offset grows by at least 4 and stays near the end, or the walk stops |
| `FdtTokens.NextOnStream` | lib/fdt.c:48-77 | on an encoded stream next_token goes from each token to the next with its tag |
| `FdtTokens.PropInStream` | lib/fdt.c:164-185 | length, name offset and value of a property as found in the bytes |
| `FdtTree.OpenNode` | lib/fdt.c:108-122 | a whole node leaves nothing open |
| `FdtTree.InNode` | lib/fdt.c:108-122 | inside a node it stays open |
| `FdtTree.AfterProps` | lib/fdt.c:97-105 | what follows the properties is the first child or the end of the node |
| `FdtTree.KidAt` | lib/fdt.c:124-141 | every child is a node directly inside its parent, followed by the next child or the end |
| `FdtWalk.Root` | lib/fdt.c:79-89 | the root of a document with leading NOPs |
| `FdtWalk.SkipProps` | lib/fdt.c:97-105 | the first token that is neither property nor NOP |
| `FdtWalk.SkipNode` | lib/fdt.c:108-122 | just past the END_NODE of the node |
| `FdtWalk.FirstChild` | lib/fdt.c:124-129 | the first child, or NOTFOUND exactly when there is none |
| `FdtWalk.NextSibling` | lib/fdt.c:131-141 | the next child of the same parent, or NOTFOUND exactly for the last |
| `FdtWalk.KidsInOrder` | lib/fdt.c:124-141 | first_child and next_sibling go through the children in increasing offsets |
| `FdtWalk.Parent` | lib/fdt.c:143-162 | the enclosing node, NOTFOUND for the root, BADBLOB exactly when a node before it is deeper than 32 |
| `FdtWalk.ParentOfKid` | lib/fdt.c:143-162 | the node open around a child is its parent |
| `FdtWalk.DocumentWalkable` | lib/fdt.c:143-162 | in a document of at most 32 levels fdt_parent works for every node |
| `FdtWalk.NameIsString` | lib/fdt.c:172-178 | a property answers to a name exactly when that is the C string at its name offset |
| `FdtWalk.GetProp` | lib/fdt.c:164-185 | offset, length and value of the first property of that name, or none exactly when there is none |
| `FdtPath.NameAt` | lib/fdt.c:91-94 | the bytes after a node's tag up to the NUL are its name |
| `FdtPath.MatchesExactly` | lib/fdt.c:262 | a component matches exactly the whole name, or all of it before its first unit sign |
| `FdtPath.CompsOfSegments` | lib/fdt.c:255-265 | splitting a path at its slashes gives back the names it was made of |
| `FdtPath.MatchingChild` | lib/fdt.c:259-263 | the first child the component names in full or up to its unit address, or NOTFOUND exactly when there is none |
| `FdtPath.PathOffset` | lib/fdt.c:255-269 | an absolute path is looked up level by level in the tree; NOTFOUND exactly when some level has no match |
| `FdtPath.NamesResolve` | lib/fdt.c:256-267 | a node is found under its own names exactly when no earlier sibling on the way down answers to the name |
| `FdtPath.PathResolves` | lib/fdt.c:247-269 | the same for the path string |
| `FdtPath.ShadowedByUnit` | lib/fdt.c:262 | a node with a unit address hides a later sibling with the bare name |
| `FdtAlias.AliasTarget` | lib/fdt.c:249-253 | what the aliases node says about a name, if that is a string |
| `FdtAlias.SameDecider` | lib/fdt.c:249-253 | names that the same property answers to have the same alias |
| `FdtAlias.UsedOnce` | lib/fdt.c:249-253 | aliases that come to an end take no property of the aliases node twice |
| `FdtAlias.EndsExactly` | lib/fdt.c:247-254 | the aliases of a path come to an end at all exactly when they do in as many steps as the aliases node has properties |
| `FdtAlias.CycleNeverEnds` | lib/fdt.c:247-254 | a path that leads into a cycle of aliases of any length never ends |
| `FdtAlias.TwoAliasesNeverEnd` | lib/fdt.c:247-254 | a document whose aliases node says that a is b and b is a |
| `FdtAlias.AnyPathOffset` | lib/fdt.c:247-269 | every path whose aliases come to an end is looked up where they lead; NOTFOUND exactly when they or the path lead nowhere |
| `Futex.WalkSplits` | kernel/futex.c:103-117 | what a walk takes and what it leaves make up the list |
| `Futex.OtherKeysKept` | kernel/futex.c:103-117 | queues of other keys in the same bucket are untouched |
| `Futex.TakesPrefix` | kernel/futex.c:103-117 | with the full bitset a walk takes a prefix of the key's queue |
| `Futex.SeesOnlyItsKey` | kernel/futex.c:58-117 | sharing a bucket makes no difference to a key |
| `Futex.WakeQueues` | kernel/futex.c:103-117 | the key loses exactly the taken waiters in order, no other queue changes |
| `Futex.MoveQueues` | kernel/futex.c:158-169 | moved waiters line up in order behind the target key's, also in a shared bucket |
| `Futex.WakeReaches` | kernel/futex.c:103-117 | a waiter not yet woken is on the queue of its key, and a wake that reaches its position wakes it |
| `FutexRun.StepKeeps` | kernel/futex.c:60-172 | every store, wait, wake and requeue keeps the table valid; who read the word earlier stays ahead, except by a requeue onto the key |
| `FutexRun.WakeTakesStale` | kernel/futex.c:103-129 | a wake of everybody, or of at least as many as have read the word before some time on a queue in the order of the reads, leaves none of those |
| `FutexRun.CannotMiss` | kernel/futex.c:60-129 | over every run: after a store and such a wake nobody queued on the key has read another value |
| `Futex.SpinRotates` | kernel/futex.c:158-169 | requeued onto its own key the queue turns once per move; a queue of two or more is moved exactly nrequeue times |
| `Futex.SpinKeeps` | kernel/futex.c:158-169 | that walk keeps the order of all other keys and loses nobody |
| `Futex.FutexTable.MoveKey` | kernel/futex.c:154-169 | moves a prefix behind the other key, or turns the queue when the keys are equal; table valid, other keys untouched |
| `Futex.FutexTable.WaitBegin` | kernel/futex.c:60-81 | which error when; otherwise the waiter joins the tail of its key's queue in the step that read the word |
| `Futex.FutexTable.WaitEnd` | kernel/futex.c:83-101 | 0 exactly when a wake counted it; otherwise which error; the waiter is gone from its current queue |
| `Futex.FutexTable.WakeKey` | kernel/futex.c:103-117 | wakes the first min(n, matching) waiters in arrival order and counts them |
| `Futex.FutexTable.Wake` | kernel/futex.c:119-129 | error cases; whoever is woken was on the queue with a bit in common, nobody is passed over for a later waiter, and fewer than n are woken only when no such waiter is left |
| `Futex.FutexTable.MoveList` | kernel/futex.c:158-169 | the moving loop over one list, which may be its own target, for different and for equal keys |
| `Futex.FutexTable.Requeue` | kernel/futex.c:138-172 | wakes the first, then moves the next in order behind the waiters of the other key, or turns the queue when the keys are equal, with the exact count; errors change nothing |
| `Tmpfs.PutBytes` | fs/tmpfs.c:314-318 | a copy into a page changes exactly those bytes of the file |
| `Tmpfs.CutBytes` | fs/tmpfs.c:66-83 | truncation keeps the bytes below the size and clears all others |
| `Tmpfs.FlatAfterWrite` | fs/tmpfs.c:290-324 | a write is a splice of the flat contents with zeros in any gap, cut to the new size |
| `Tmpfs.ZeroTailExactly` | fs/tmpfs.c:314-322 | bytes past the size stay zero exactly when what was stored there is zero |
| `Tmpfs.StrayExactly` | fs/tmpfs.c:314-322 | just the counted bytes have changed exactly when what else was stored was there before |
| `Tmpfs.FlatAfterResize` | fs/tmpfs.c:256-269 | setting the size cuts the flat contents, or pads them with zeros exactly when there are only zeros past the old size |
| `TmpfsRuns.TracksWrite` | fs/tmpfs.c:290-324 | after a write every byte of the pages and the size are those its run defines |
| `TmpfsRuns.TracksSize` | fs/tmpfs.c:256-269 | the same after a size change |
| `TmpfsRuns.RightExactly` | fs/tmpfs.c:256-324 | over every run of writes, sparse extensions and truncations from an empty file: a byte is what the splices, cuts and extensions define, zero past the size, exactly when no stray byte of a faulted copy lingers there, neither overwritten nor cut off |
| `TmpfsRuns.RunExactly` | fs/tmpfs.c:256-324 | after every run the bytes past the size are zero exactly when no stray byte lingers past it, and the flat contents are right exactly when none lingers below it |
| `TmpfsRuns.CleanRunKeeps` | fs/tmpfs.c:256-324 | after every run in which no write left a non-zero byte past the size, bytes past the size are zero and the flat contents are the fold of splices and size changes |
| `TmpfsRuns.CountedIsClean` | fs/tmpfs.c:314-322 | a run in which every stored byte was counted is one: so every run without a faulting copy |
| `TmpfsFiles.Mount.NewFile` | fs/tmpfs.c:42-64 | a new regular file is empty, with an empty history |
| `TmpfsFiles.Mount.Evict` | fs/tmpfs.c:85-91 | evicting a file gives back exactly its pages |
| `TmpfsFiles.Mount.WriteAll` | fs/tmpfs.c:290-324 | the loop of a write, with its page accounting; without a failure it stops short exactly at a hole with the quota used up |
| `TmpfsFiles.Mount.CopyOut` | fs/tmpfs.c:271-288 | the loop of a read: what the pages hold, holes as zeros; after a fault the result counts whole chunks, or is EFAULT |
| `TmpfsFiles.Mount.EnsureSlots` | fs/tmpfs.c:243-254 | more slots, same bytes, same pages, or nothing on a failed allocation |
| `TmpfsFiles.Mount.AddPage` | fs/tmpfs.c:301-313 | a hole is filled if quota and allocator allow; accounting exact |
| `TmpfsFiles.Mount.WriteChunk` | fs/tmpfs.c:296-318 | some first part of the chunk is written: all of it on success, less when the copy faulted, nothing on the other errors |
| `TmpfsFiles.Mount.Write` | fs/tmpfs.c:290-324 | the counted bytes and what a faulted copy stored after them are in the file and nothing else changed; without a failure it stops short exactly at a hole with the quota used up, with ENOSPC when nothing was written; every file is what its history defines |
| `TmpfsFiles.FaultShowsLater` | fs/tmpfs.c:314-317 | a write that returns EFAULT and leaves a byte past the end that a later extension shows |
| `TmpfsFiles.Mount.ReadAt` | fs/tmpfs.c:271-288 | each byte read is the one the history of the file defines exactly when no stray byte lingers there |
| `TmpfsFiles.Mount.TruncatePages` | fs/tmpfs.c:66-83 | bytes past the size are zero, used_pages and blocks exact |
| `TmpfsFiles.Mount.SetSize` | fs/tmpfs.c:256-269 | shrinking clears what lies past the size; growing changes no byte; every file is what its history defines |
| `TmpfsFiles.AllocatedAfter` | fs/tmpfs.c:66-83 | the quota total changes by the change of one file |
| `Calendar.EpochIsZero` | drivers/rtc/rtc.c:26-33 | 1970-01-01 is day 0 |
| `Calendar.NextDayIsNextNumber` | drivers/rtc/rtc.c:26-33 | the day after a valid date has the next number |
| `Calendar.DaysOfCivil` | drivers/rtc/rtc.c:26-45 | days_from_civil inverts civil_from_days on every day number, and the date is valid |
| `Calendar.CivilOfDays` | drivers/rtc/rtc.c:26-45 | civil_from_days inverts days_from_civil on every valid date |
| `Calendar.OrderOfDays` | drivers/rtc/rtc.c:26-33 | day order equals date order |
| `Calendar.TmRoundTrip` | drivers/rtc/rtc.c:47-69 | tm_to_secs(secs_to_tm(s)) is s exactly when the year fits the 32-bit field |
| `Calendar.TmFields` | drivers/rtc/rtc.c:47-58 | the time of day and the date of every second |
| `Calendar.WeekDays` | drivers/rtc/rtc.c:57-57 | 1 January 1970 was a Thursday, and the day of the week goes on by one a day |
| `Calendar.YearDays` | drivers/rtc/rtc.c:58-58 | the day of the year is 0 on 1 January and goes on by one a day |
| `Calendar.AcceptedTimes` | drivers/rtc/rtc.c:62-69 | exactly which times are accepted |
| `Calendar.SetThenRead` | drivers/rtc/rtc.c:47-69 | reading back a time that was set |
| `Clock.CarryComposes` | kernel/time.c:41-45 | carrying the remainder of truncating division over two folds loses nothing |
| `Clock.OneFold` | kernel/time.c:35-64 | one fold is the closed formula |
| `Clock.FormulaComposes` | kernel/time.c:35-64 | two stretches are one stretch |
| `Clock.FoldsFormula` | kernel/time.c:35-64 | any sequence of reads gives the closed formula |
| `Clock.ReadsDoNotMatter` | kernel/time.c:35-73 | how often the clock is read makes no difference |
| `Clock.NoOvershoot` | kernel/time.c:49-63 | over any reads slewing goes toward the target and never past it |
| `Clock.LongGap` | kernel/time.c:45-57 | after a gap of 1000 seconds or more the offset is within 503 ns and a millionth of the frequency of the closed formula, and the rest of the slew within 500 ns |
| `Clock.RateBound` | kernel/time.c:35-64 | with frequency within 500 ppm wall time advances by T within T/1000 + 2 ns |
| `Clock.FoldKeepsCarried` | kernel/time.c:35-64 | the carries stay in range through every fold, long gaps included |
| `Clock.WallClock.FoldNow` | kernel/time.c:35-64 | the in-place fold is the function the laws are about |
| `Clock.WallClock.Realtime` | kernel/time.c:66-73 | folds and returns monotonic time plus offset |
| `Clock.WallClock.SetRealtime` | kernel/time.c:75-82 | the clock reads the time set and slewing stops |
| `Clock.WallClock.Adjust` | kernel/time.c:84-94 | fold first, then step, slew and frequency as asked |
| `Cpio.UnhexHex` | fs/initramfs.c:6-16 | hex8 reads back what %08x wrote |
| `Cpio.HexValue` | fs/initramfs.c:6-16 | the digit loop, refusing any other character |
| `Cpio.HeaderLayout` | scripts/mkinitramfs.py:47-55 | magic number and all thirteen fields of a header, each at its place |
| `Cpio.HexDigits` | scripts/mkinitramfs.py:52-52 | a field digit by digit |
| `Cpio.FieldsAt` | fs/initramfs.c:31-35 | every header field is found where the reader looks |
| `Cpio.Unpack` | fs/initramfs.c:18-80 | on a well-formed archive of either kind, with any zeros in front, the records in order with name, mode, owner, time, device numbers and data intact; on any bytes it stops |
| `CpioTree.SortPaths` | scripts/mkinitramfs.py:58-58 | the paths in strictly increasing order, each once |
| `CpioTree.DirnameIs` | scripts/mkinitramfs.py:25-25 | the directory part of a path |
| `CpioTree.AllParents` | scripts/mkinitramfs.py:23-29 | every directory a path of the tree runs through is an entry |
| `CpioTree.ParentsFirst` | scripts/mkinitramfs.py:57-58 | in sorted order every parent precedes its children |
| `CpioTree.Builder.AddDir` | scripts/mkinitramfs.py:23-29 | the directory and all missing directories above it; existing entries stay |
| `CpioTree.Builder.AddFile` | scripts/mkinitramfs.py:31-33 | the file is set, every parent has an entry, and nothing else but missing directories above it is new |
| `CpioTree.Builder.AddSymlink` | scripts/mkinitramfs.py:35-37 | a new link, or the existing entry stays; nothing else but missing directories above it is new |
| `CpioTree.Builder.AddNode` | scripts/mkinitramfs.py:39-41 | the node is set with its device numbers; nothing else but missing directories above it is new |
| `CpioTree.Builder.Write` | scripts/mkinitramfs.py:43-71 | a well-formed archive of all entries in sorted order, a multiple of 512 bytes |
| `CpioTree.UnpackedItems` | fs/initramfs.c:18-80 | what is unpacked is, entry by entry, what was put in |
| `TicketLock.FirstOnly` | kernel/spinlock.c:5-9 | only the first in line can see its ticket come up |
| `TicketLock.MutualExclusion` | kernel/spinlock.c:5-27 | at most one holder |
| `TicketLock.FreeMeansEmpty` | kernel/spinlock.c:11-20 | below 65536 contenders owner equals next exactly when nobody is in line, so trylock succeeds only on a free lock |
| `TicketLock.LooksFreeExactly` | kernel/spinlock.c:29-31 | over every run owner equals next exactly when the number of contenders is a multiple of 65536 |
| `TicketLock.FullLineLooksFree` | kernel/spinlock.c:5-20 | a run with 65536 in line: the counters agree although the lock is held, and a trylock makes a second holder |
| `TicketLock.SafeExactly` | kernel/spinlock.c:5-27 | the lock excludes over every run with at most n contenders exactly when n is at most 65536 |
| `TicketLock.StepKeepsInv` | kernel/spinlock.c:5-27 | every step keeps the line in ticket order |
| `TicketLock.RunIsSafeAndFair` | kernel/spinlock.c:5-27 | over every run with at most 65536 contenders one holder, and the lock goes out in the order tickets were drawn |

## Left out

- User address spaces: addresses are page numbers; instruction permission bits, TLB and cache maintenance, address-space reference counts, device mmap and MAP_POPULATE are not modelled.
- User address spaces: allocation of VMA records, page-table pages and the child in fork succeeds; a failing page allocation in a fault is modelled.
- User address spaces: pages of shared anonymous mappings that are not present at fork, and access checks of PROT_NONE on present pages, have no claim.
- User address spaces: the contents of mapped files do not change.
- PageAlloc.Init: the size of a page structure is a parameter; the messages and the zone statistics are not modelled.
- Buffer cache: partitions are given; registration, MBR and GPT scanning, statistics and the flusher thread's timing are not modelled.
- Scheduler: the target CPU of a wakeup is any CPU, so `select_cpu`'s preference, affinity, time slices, reschedule interrupts and load averages are not modelled.
- Scheduler: memory ordering between the steps is not modelled. The results over runs are for those in which no run-queue lock is taken for a thread in transit, because the others lose threads (`WakeRace.SafeWakeExactlyWhenSettled`, `SchedRace.SafeExactlyWhenSettled`).
- Wait queues: one queue with one condition at a time, over the same runs; complete_all's standing count is not modelled.
- WakeOne.MutexNoLostWakeup: mutex_lock only, because mutex_lock_interruptible may be woken between a false test and its look for a signal, and then gives up (`LostWakeup.LostWhenGivingUp`).
- Completion.NoLostCompletion: waiters that do not time out, because one that gives up takes a wakeup with it.
- Virtqueue: device registers, notification and memory barriers; negative buffer counts. The methods of `Virtqueue.Vq` want a size that divides 65536, because the rings lose entries otherwise (`Virtqueue.PushesCleanly`).
- KernelMap.KernelTables.MapRange: page-table allocation succeeds, because the source panics otherwise; the linear map and image protection set up by mmu_init are not modelled.
- Device tree: fdt_init's header checks, compatible strings, cells, addresses and interrupts.
- FdtAlias.AnyPathOffset: paths whose aliases come to an end, because on the others, exactly those that `FdtAlias.EndsExactly` tells, the source recurses without end.
- FdtWalk.Parent: on a stream whose END_NODE tokens match, because the source indexes its stack with the depth.
- Futex: make_key is a parameter and the timeout a flag; in `FutexRun` the compare of a requeue has succeeded.
- Tmpfs: directories, links, attributes other than the size.
- Clock: per-CPU timers and the hardware clock; 64-bit overflow of times.
- Clock.FoldsFormula: gaps under 1000 seconds between reads, because the source uses a rounded formula for longer ones (`Clock.LongGap` says how far off that is).
- Cpio.Unpack: parsing only; creating the files, and the rewriting of a leading "./" and of "." and "/", are not modelled.
- CpioTree.Builder.Write: paths and names are byte strings; writing the file and walking the host tree are not modelled.
- Ticket lock: memory ordering and the wait-for-event instructions.
- Device drivers, the network stack, procfs, system-call wrappers, program loading, pipes, kernel allocators other than the page allocator, and channels would only add easier members.
