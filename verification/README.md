# A Dafny model of xv6 for RISC-V

This project models the parts of xv6 that are hardest to get right and proves what they are for. Six
groups of modules follow the program's own structure.

1. **Log, buffer cache, recovery.** `RedoLog` gives the disk writes of commit and recovery a meaning,
   one atomic block write at a time. `LogCode` is the imperative code of `kernel/log.c`, proved to issue
   exactly those writes. `LogProtocol`, `LogInvariant` and `LogTheorems` let any number of processes
   interleave `begin_op`, `bread`, `log_write`, `brelse`, `end_op`, and let the machine crash before any
   step. `LogSize` and `LogLimits` give the exact conditions under which the log area is large enough
   and `log_write` does not panic. `LogDurability` proves that what ended operations stored is on disk for
   good once no operation runs. `CrashConsistency` joins the log with the inode layer: what consistent
   operations store is consistent after every crash. `BufferRing` is the linked ring of `kernel/bio.c`,
   `BufferCache` the cache under concurrency, `RecoveryPins` the reference counts after a boot-time
   recovery.
2. **Memory.** `Sv39` has the bit formats, `PageTables` the ownership invariant of the radix trees and
   its transitions, `PageBudget` the count of free pages that a growing address space takes, `KernelMemory`
   and `UserMemory` the code of `kernel/kalloc.c` and `kernel/vm.c`, `UserCopy` fork's copy and the copies
   between kernel and user, `ProcessMemory`, `ExecImage`, `ExecCode` and `Processes` the address spaces of
   processes over whole runs.
3. **Inodes and blocks.** `FsBlocks` has the block ownership invariant and its transitions, `FsCode` the
   code of `balloc`, `bfree`, `bmap`, `itrunc`, `FsSpace` the count of free blocks that a write takes,
   `FsContents` reading and writing as byte sequences and the bound on logged blocks, `FsLimits` the disk
   size up to which `iput` fits its reservation, `Mkfs` the program that makes the first image.
4. **Processes.** `ExitWait`, `ExitWaitProof`, `ExitWaitTheorems`, `WaitTheorems` and `WaitRun` model exit,
   reparent and wait, `PipeMonitor`, `PipeProof` and `PipeTransfer` sleep and wakeup with pipes as their
   client, `CpuHandoff`, `CpuProof` and `CpuYield` spinlocks, interrupts and the switch between scheduler
   and processes. Each is a step system with one program counter per process and explicit locks.
5. **User level.** `FreeList` and `Umalloc` model the Kernighan and Ritchie allocator, `ShellParser`,
   `ShellStrings`, `ShellRoundTrip` and `ShellFlat` the shell's parser.
6. **Disk driver.** `VirtioRing` and `VirtioDisk` model the virtio request ring against a device that
   serves requests in any order (OASIS VIRTIO 1.1, sections 2.6 and 5.2).

`Common` holds shared parameters and facts about sequences and sets. Verify everything with
`dafny verify dfyconfig.toml`.

## What the proofs found

Where a promise does not hold for the code as it is, the code is modelled as it is, a concrete run or
input shows the failure, and the exact condition is proved.

- **The log area mkfs makes is one block short.** `log_write` tests its bound before it takes the lock
  (kernel/log.c:196), and mkfs lays out `nlog = LOGSIZE` blocks including the header (mkfs/mkfs.c:30).
  With 2 <= nlog <= LOGSIZE two operations can pass the test together, the commit then writes behind the
  area, and neither recovery nor `bread` yields the blocks that were stored. The log fits, recovery
  refines the committed groups, and reads see the last store, exactly when nlog > LOGSIZE or nlog = 1
  (`LogSize.FitsIff`, `LogLimits.RefinesIff`, `LogLimits.ReadsIff`).
- **log_write can panic in an operation that keeps its bound.** It happens when the operation logs a
  block again after its last one, and with nlog = LOGSIZE already at its last new block
  (`LogLimits.PassesIff`, `LogLimits.AbsorbedWritePanics`).
- **Recovery takes away references that nobody holds.** `install_trans` ends with `bunpin`, but recovery
  never pinned (kernel/log.c:73). Every recovered block keeps a reference count of 2^32 - 1, a full log
  makes `bget` panic, and a recovered block that is read later has count 0 while held, so its buffer can
  be given away. Counts are right throughout a run exactly when the boot found an empty log
  (`RecoveryPins.InstallTrans`, `RecoveryPins.Collision`, `RecoveryPins.CountsIff`).
- **writei after a failed copy.** It returns n, and may leave a block that was changed and is in no
  transaction. That happens exactly when three things come together (`FsContents.Writei`): 0 < len < n
  and off + len is not a block boundary, len being the number of bytes copied; the block at off + len was
  there before the call; and the operation had not logged it. (A block that the call allocates has been
  logged by `bzero`.) Such a block breaks the condition "a changed buffer is in the log before brelse",
  marked `(caller)` in `LogProtocol` and `BufferCache`, unless another operation of the group logged it.
- **mkfs can make a root directory that is longer than its blocks.** It rounds the size up by a whole
  block even when the size is a multiple of the block size already (mkfs/mkfs.c:163). The image satisfies
  the invariant of the inode layer exactly when the number of entries, two more than there are files, is
  not a multiple of 64 (`Mkfs.Image.Fill`); 62 files are an example (`Mkfs.FullRoot`).
- **One iput can exceed MAXOPBLOCKS.** It cannot exactly on disks of at most 9 * 8192 blocks
  (`FsLimits.TruncFitsIff`); mkfs makes 1000.
- **A killed pipe writer can strand a reader.** `pipewrite` returns on `killed` without waking readers
  (kernel/pipe.c:75). No wakeup is lost exactly in runs without such a return while a reader waits
  (`PipeProof.NoLostWakeup`, `PipeProof.WakeupLost`).
- **growproc with a large negative argument** wraps in 32 bits, succeeds and changes nothing
  (`Processes.ProcTable.GrowProc`, through `Resized`).
- **exec refuses a program whose first segment ends at address 0**, because it takes the size 0 that
  `uvmalloc` then returns for a failure (kernel/exec.c:43). It is one of exec's tests in
  `ExecImage.AllAcceptable`; the others are the ones the code spells out (`Processes.ProcTable.Exec`).
- **The second error branch of proc_pagetable never runs** (kernel/proc.c:160): the tables that the trap
  frame needs are those of the trampoline (`ProcessMemory.ProcPagetable`).
- **Block numbers from 2^31 on share sectors with smaller ones**, because the sector number is computed in
  32 bits (kernel/virtio_disk.c:151). Below 2^31 every block has its own bytes (`VirtioRing.BlockPlace`,
  `VirtioRing.BlocksApart`).

## Model

| member | source | states |
|---|---|---|
| RedoLog.RecoverCompletes | kernel/log.c:106-111 | an uninterrupted recovery puts every announced block home, leaves the others, and empties the header |
| RedoLog.RecoverIdempotent | kernel/log.c:106-111 | recovering twice is recovering once |
| RedoLog.CrashesInRecovery | kernel/log.c:65-111 | recovery cut short any number of times and then completed ends as one uninterrupted recovery does |
| RedoLog.CrashAtomicity | kernel/log.c:161-182 | a crash after any block write of commit, then any number of crashes in recovery: home blocks are all old or all new, and the switch is the first header write |
| LogCode.Log.Bread | kernel/bio.c:87-96 | returns the cached contents, else the disk's, and caches them |
| LogCode.Log.Bwrite | kernel/bio.c:99-102 | one block write, to disk and cache, of any block, the header's included |
| LogCode.Log.WriteHead | kernel/log.c:94-104 | issues exactly one header write, of the in-memory block list; no other block's contents change |
| LogCode.Log.ReadHead | kernel/log.c:80-89 | the in-memory list becomes the header on disk |
| LogCode.Log.WriteLog | kernel/log.c:161-172 | issues exactly the log block writes, in order, with the cached contents of the announced blocks, even behind the area if no announced block is there |
| LogCode.Log.InstallTrans | kernel/log.c:65-77 | issues exactly the home block writes, in order, with the log blocks' contents |
| LogCode.Log.Commit | kernel/log.c:174-182 | issues exactly the write sequence whose crash behaviour CrashAtomicity describes, and empties the list |
| LogCode.Log.RecoverFromLog | kernel/log.c:106-111 | issues exactly recovery's writes; the disk becomes the recovered disk |
| LogCode.Log.LogWrite | kernel/log.c:193-210 | passes its tests iff the list is below both bounds inside an operation; then appends the block iff it is new |
| LogCode.Log.TryBeginOp | kernel/log.c:114-128 | one round of begin_op: admitted iff no commit runs and the reservation fits |
| LogCode.Log.EndOp | kernel/log.c:132-158 | the last operation commits, an earlier one only counts down |
| LogTheorems.RecoveredIsCommittedGroups | kernel/log.c:114-210 | whole-run refinement for nlog > LOGSIZE: stop any interleaving anywhere, crash, recover through any crashes: the disk is what the committed groups produce in order, and each operation is there entirely, after its end_op, or not at all |
| LogTheorems.CommittedForGood | kernel/log.c:174-182 | committed groups stay committed through every later step and crash |
| LogTheorems.ReadsSeeLastStore | kernel/log.c:161-210 | while the machine is up, bread of any home block returns the last value stored and not lost in a crash |
| LogDurability.QuietIsCommitted | kernel/log.c:132-158 | for every layout: whenever the machine is up and no operation runs, lh is empty and no store made since the last crash is outside the committed groups |
| LogDurability.EndedIsCommitted | kernel/log.c:132-158 | an operation that ended before such a moment, without a crash in between, is committed with all its stores, then and ever after |
| LogDurability.ReturnedIsOnDisk | kernel/log.c:10-24 | so every later crash and recovery yields a disk on which each home block holds the last committed store to it, all stores of that operation being among the committed ones |
| LogSize.Overruns | kernel/log.c:193-210 | for every layout with 2 <= nlog <= LOGSIZE a run in which lh outgrows the area, so that the next log block is a home block |
| LogSize.OneBlockLog | kernel/log.c:193-197 | with nlog = 1 nothing is ever logged |
| LogSize.FitsIff | kernel/log.c:193-210 | lh fits the log area in every run iff nlog > LOGSIZE or nlog = 1 |
| LogLimits.Corrupts | kernel/log.c:161-172 | the overrunning run goes on to write a logged block over a home block |
| LogLimits.RefinesIff | kernel/log.c:114-210 | the whole-run refinement holds in every run iff nlog > LOGSIZE or nlog = 1 |
| LogLimits.ReadsIff | kernel/log.c:161-210 | reads see the last store in every run iff nlog > LOGSIZE or nlog = 1 |
| LogLimits.Reservation | kernel/log.c:114-210 | for every layout: in every state lh and the unspent budgets fit in LOGSIZE together, so the store of a new block number into lh is in bounds; a commit finds no operation running and lh stays frozen |
| LogLimits.PassesIff | kernel/log.c:193-197 | an operation that has logged at most k blocks never meets log_write's panic iff k < MAXOPBLOCKS and 2 * MAXOPBLOCKS + k + 1 < nlog |
| LogLimits.AbsorbedWritePanics | kernel/log.c:193-209 | a run in which logging again a block that is already in lh panics |
| CrashConsistency.SerialReplay | kernel/log.c:10-24 | stores of interleaved operations have the effect of the operations one after the other, in any order that agrees with the order of the stores to each block |
| CrashConsistency.RecoveredConsistent | kernel/log.c:10-24 | if the committed operations in such an order each keep the inode layer's invariant, the disk recovered after any crashes at any point satisfies it |
| BufferRing.Bcache.constructor | kernel/bio.c:35-50 | a well-formed ring of all NBUF buffers in the given order |
| BufferRing.Bcache.Bget | kernel/bio.c:55-84 | a cached block gets one more reference; else the least recently released unreferenced buffer is taken; else it panics and nothing changed |
| BufferRing.Bcache.Brelse | kernel/bio.c:106-124 | one reference less; a buffer without references moves to the front, the others keep their order, and the links stay one ring |
| BufferRing.Bcache.Bpin | kernel/bio.c:126-130 | one reference more, modulo 2^32 |
| BufferRing.Bcache.Bunpin | kernel/bio.c:132-136 | one reference less, modulo 2^32 |
| BufferCache.ReadsSeeLastStore | kernel/bio.c:55-136 | in every interleaving whoever holds a read buffer sees the last value stored in its block, across eviction and re-reading |
| BufferCache.ReferencedNotRecycled | kernel/bio.c:55-84 | refcnt is holders plus waiters plus leavers plus pins, and no step gives a referenced buffer to another block |
| BufferCache.RecyclesLeastRecent | kernel/bio.c:72-82 | the buffer that bget recycles was released before every other unreferenced one |
| BufferCache.AtMostOneBuffer | kernel/bio.c:55-84 | a block of a real device is in at most one buffer |
| RecoveryPins.GetFree | kernel/bio.c:55-84 | bget of a block that no busy buffer holds succeeds iff some buffer is not busy |
| RecoveryPins.InstallTrans | kernel/log.c:65-77 | recovery completes iff the log is shorter than the cache; then each recovered block's count is -1 and all others are 0, so all counts are 0 iff the log was empty |
| RecoveryPins.Collision | kernel/log.c:65-77 | after a recovery, reading a recovered block and then other blocks hands out the same buffer twice |
| RecoveryPins.CountsIff | kernel/log.c:65-111 | reference counts equal the references in every state of a run iff the header found at boot is empty |
| Sv39.PXDigits | kernel/riscv.h:356-358 | the three PX indices are the base-512 digits of the virtual page number and determine it |
| Sv39.FlagsRoundTrip | kernel/riscv.h:342-353 | the flag bits of a page table entry decode to the flags they encode |
| Sv39.PteRoundTrip | kernel/riscv.h:349-353 | PTE2PA and PTE_FLAGS recover what PA2PTE and the flags were packed from |
| PageTables.NewSpace | kernel/vm.c:167-173 | a zeroed page becomes the root of an empty tree |
| PageTables.MapUser | kernel/vm.c:136 | storing one leaf entry turns a held page into that virtual page's, and the trees stay trees without sharing |
| PageTables.UnmapUser | kernel/vm.c:156-161 | clearing one leaf entry gives its page back to the caller |
| PageTables.DropSpace | kernel/vm.c:230-244 | a tree without leaves can be dismantled; its pages are the caller's |
| PageBudget.MissingSplit | kernel/vm.c:67-81 | making the tables of a range of pages in two steps takes as many pages as in one |
| PageBudget.CannotPay | kernel/vm.c:190-211 | if memory does not suffice for what is left of a range, it did not suffice for the range at the start |
| PageBudget.BareAffords | kernel/vm.c:259-282 | a new address space affords n user pages iff n + ceil(n / 512) + ceil(n / 2^18) pages are free |
| KernelMemory.Kernel.constructor | kernel/kalloc.c:26-35 | after kinit every page of memory is free exactly once |
| KernelMemory.Kernel.Kalloc | kernel/kalloc.c:60-70 | the head of the free list, filled with 5, or 0 iff there is none |
| KernelMemory.Kernel.Kfree | kernel/kalloc.c:41-55 | a page the caller holds becomes free exactly once |
| KernelMemory.Kernel.Walk | kernel/vm.c:67-81 | the third-level table of va, allocating what is missing; with alloc it fails iff the free pages are fewer than the missing tables, and takes exactly those; without, iff the table is missing; no translation changes |
| KernelMemory.Kernel.MapPages | kernel/vm.c:127-142 | adds exactly the requested range to the map, in order, iff the free pages are enough for the tables it lacks, and takes exactly those; else a prefix of it, and memory is out; every other address keeps its translation |
| KernelMemory.Kernel.UvmUnmap | kernel/vm.c:147-163 | removes exactly its range, freeing exactly its pages if asked |
| UserMemory.UvmAlloc | kernel/vm.c:190-211 | adds exactly the pages up to newsz, zeroed, iff there are free pages enough for them and the tables they lack, and takes exactly those; else fails with the address space as before |
| UserMemory.UvmDealloc | kernel/vm.c:217-226 | removes and frees exactly the pages above newsz |
| UserMemory.FreeWalk | kernel/vm.c:230-244 | frees exactly the tables of its subtree; its panic on a leaf is unreachable |
| UserMemory.UvmFree | kernel/vm.c:248-251 | every page of the address space, table or user, is free again; nothing else changes hands |
| UserMemory.UserPagesBound | kernel/vm.c:190-211 | an address space has at most as many user pages as there are physical pages |
| UserCopy.UvmCopy | kernel/vm.c:259-282 | the child gets a copy of every page with the same flags iff there are free pages enough for them and their tables; else nothing |
| UserCopy.WalkAddr | kernel/vm.c:86-98 | finds a page iff user code may touch the address |
| UserCopy.CopyOut | kernel/vm.c:297-313 | succeeds iff user code may touch the whole range; writes the bytes before the first it may not, and no other byte of any address space |
| UserCopy.CopyIn | kernel/vm.c:318-334 | succeeds iff the range can be read; returns its bytes up to the first that cannot |
| UserCopy.CopyInStr | kernel/vm.c:340-373 | the string up to its first NUL, or fails because max bytes have none or an address is out of reach |
| UserCopy.RoundTrip | kernel/vm.c:297-334 | copyin after copyout returns the bytes, whatever pages they cross, and no other address space sees a change |
| UserCopy.ForkIsolation | kernel/vm.c:259-282 | after fork's copy parent and child read the same bytes and share no page |
| ProcessMemory.UvmCreate | kernel/vm.c:167-173 | a new empty address space, for one page, iff a page is free |
| ProcessMemory.ProcPagetable | kernel/proc.c:143-167 | an address space with exactly the trampoline, readable and executable, and the trap frame, readable and writable, both for the kernel only: three pages, iff three are free; else everything is given back |
| ProcessMemory.ProcFreePagetable | kernel/proc.c:171-175 | frees exactly the tables and user pages of the address space, not trampoline or trapframe |
| ProcessMemory.UvmClear | kernel/vm.c:286-292 | only the page's user bit changes |
| ProcessMemory.LoadSeg | kernel/exec.c:115-132 | succeeds iff the file has the bytes; then exactly they are at va |
| ExecImage.LoadedByte | kernel/exec.c:36-47 | each byte of the program is that of the last segment that covers it, or zero |
| ExecImage.LoadedGrows | kernel/exec.c:36-47 | the image is whole pages, and later segments make it no shorter |
| ExecImage.ArgsReadable | kernel/exec.c:65-80 | entry i of the array at sp points to a NUL-terminated copy of argument i, and the array ends in a null pointer |
| ExecImage.ArgsOnStack | kernel/exec.c:65-80 | sp is 16-byte aligned and only the stack page holds arguments |
| ExecCode.LoadSegment | kernel/exec.c:39-46 | room for the segment, zeroed, and its bytes in it, iff exec's tests pass and there are free pages enough; refused segments leave the address space consistent |
| ExecCode.AddStack | kernel/exec.c:55-63 | two more pages, iff affordable; user code may touch all of the image but the lower of them |
| ExecCode.PushArgs | kernel/exec.c:65-80 | succeeds iff the arguments fit the stack page and number; copyout cannot fail |
| ExecCode.BuildImage | kernel/exec.c:34-80 | a complete image of segments, stack with guard page, and arguments iff exec's tests pass and there are free pages enough, counted from the image's size; else nothing has changed |
| Processes.ProcTable.AllocProc | kernel/proc.c:84-121 | trap frame and address space of a new process in the first unused slot, iff there is a slot and four pages are free; else everything is given back |
| Processes.ProcTable.FindUnused | kernel/proc.c:87-95 | the first unused slot, or all NPROC are in use |
| Processes.ProcTable.FreeProc | kernel/proc.c:126-139 | exactly the process's pages become free |
| Processes.ProcTable.Fork | kernel/proc.c:230-270 | the child's memory is a copy of the parent's iff there is an unused slot and the free pages cover four, the parent's pages and their tables; else nothing has changed |
| Processes.ProcTable.GrowProc | kernel/proc.c:212-226 | grows by zero pages iff there are free pages enough for them and the tables they lack, or shrinks, with the source's 32-bit arithmetic |
| Processes.ProcTable.Exec | kernel/exec.c:12-109 | replaces the address space by one that holds exactly the program image and its arguments and frees the old one iff exec's tests pass and there are free pages enough; else changes nothing |
| Processes.ProcTable.Run | kernel/proc.c:84-270 | conservation: after any sequence of create, fork, grow, exec and free, whichever ran out of memory, every page is free once or owned once, and with no process left all memory is free |
| FsBlocks.TakeBlock | kernel/fs.c:58-72 | setting a free block's bit keeps every block in exactly one use |
| FsBlocks.ReleaseBlock | kernel/fs.c:81-92 | clearing the bit of a block no inode uses keeps it |
| FsBlocks.AttachDirect | kernel/fs.c:348-351 | putting a taken block in a direct slot keeps it and adds exactly that mapping |
| FsBlocks.AttachIndirect | kernel/fs.c:356 | a taken, zeroed block as indirect block adds no mapping |
| FsBlocks.AttachLeaf | kernel/fs.c:357-362 | putting a taken block in an indirect slot keeps it and adds exactly that mapping |
| FsBlocks.Truncated | kernel/fs.c:372-397 | detaching all blocks of an inode keeps it |
| FsCode.FileSystem.Balloc | kernel/fs.c:58-78 | the lowest free block, zeroed, with its bit set; 0 iff none is free |
| FsCode.FileSystem.Bfree | kernel/fs.c:81-92 | clears exactly that bit; "freeing free block" is unreachable |
| FsCode.FileSystem.Bmap | kernel/fs.c:344-368 | the block of a mapped position, and nothing changes; else a previously free, zeroed block is attached there, behind a previously free indirect block if there was none, and exactly the new blocks, their bitmap blocks and the indirect block are logged, and no others change; it panics iff the free blocks are fewer than the one or two it must allocate |
| FsCode.FileSystem.Iupdate | kernel/fs.c:206-220 | the on-disk inode agrees with memory; one block logged |
| FsCode.FileSystem.Itrunc | kernel/fs.c:372-397 | frees exactly the inode's blocks and logs exactly their bitmap blocks and the inode's block |
| FsSpace.SpaceSplit | kernel/fs.c:344-368 | the blocks that a range of a file lacks are those of a first part and those that the rest, overlapping it or not, lacks afterwards |
| FsSpace.CannotGrow | kernel/fs.c:436-463 | if there are too few free blocks for the rest of a range, there were too few for the range |
| FsContents.Readi | kernel/fs.c:413-430 | exactly the bytes min(n, size - off) of the file's contents if there is room for them; else those up to the last whole block copied; nothing changes |
| FsContents.CompleteChunks | kernel/fs.c:443-452 | what writei has written when a copy fails: all chunks before the first that cannot be copied whole, up to a block boundary |
| FsContents.FileRead | kernel/file.c:91-110 | the bytes at the file's offset, which moves by their number |
| FsContents.ReadAll | user/cat.c:7-15 | reads of n bytes until one returns nothing yield the whole file |
| FsContents.Writei | kernel/fs.c:436-463 | refused iff the range is; panics iff it is not and the free blocks are fewer than those the range lacks and a missing indirect block; else the bytes are in place, other files are unchanged, and at most MAXOPBLOCKS blocks are logged for three blocks of data; of all blocks that change exactly one is left unlogged if the copy fails inside a block that was mapped and not logged before the call, else none |
| FsContents.WriteIsSplice | kernel/fs.c:436-463 | a complete write splices the bytes into the contents and extends the size; other files keep theirs |
| FsContents.WriteChunk | kernel/file.c:131-146 | one chunk, between begin_op and end_op, logs at most MAXOPBLOCKS different blocks at any offset and bitmap layout |
| FsContents.FileWrite | kernel/file.c:114-153 | if all bytes can be copied and the range is not refused, the chunks together write them and move the offset; it panics iff the free blocks are fewer than the whole range lacks |
| Mkfs.Image.constructor | mkfs/mkfs.c:90-108 | a disk of zeros, of any size that holds its metadata, is a file system without files once its bitmap is written |
| Mkfs.Image.MapBlock | mkfs/mkfs.c:257-276 | the block of a mapped position, else the next free block is attached there, behind a new indirect block if there was none; stops iff the disk is full |
| Mkfs.Image.IAppend | mkfs/mkfs.c:245-285 | the file's bytes and the new ones, other files unchanged; stops iff the file gets too long or the disk full |
| Mkfs.Image.Fill | mkfs/mkfs.c:114-170 | stops iff the files do not fit; else every file has its contents, the root lists them all, and the image satisfies the inode layer's invariant iff the root's entries do not end at a block's end |
| Mkfs.FullRoot | mkfs/mkfs.c:160-165 | 62 empty files fit and break it |
| FsLimits.TruncLogBound | kernel/fs.c:372-397 | itrunc logs at most one block for every bitmap block of the disk and one more |
| FsLimits.TruncFitsIff | kernel/fs.c:303-327 | one iput stays within MAXOPBLOCKS for every file iff the disk has at most 9 * BPB blocks |
| ExitWaitTheorems.NoOrphans | kernel/proc.c:274-357 | in every interleaving each process but init has a parent that is in use and has not exited |
| ExitWaitTheorems.ExitsAccounted | kernel/proc.c:299-408 | each exit has been reported with its pid and status, or exactly one zombie still holds it |
| ExitWaitTheorems.ReapedOnceByParent | kernel/proc.c:361-408 | an exit is reported once, by the zombie's parent at that moment, which frees it |
| ExitWaitTheorems.NoMissedZombie | kernel/proc.c:299-408 | no process but init sleeps in wait while it has a zombie child |
| ExitWaitTheorems.WakesWithLock | kernel/proc.c:549-554 | wakeup1's panic is unreachable from exit |
| WaitTheorems.WaitReturns | kernel/proc.c:361-408 | wait returns only with a child reported, with a zombie child whose status cannot be copied out, killed, or without children: none when its last scan began and, unless it is init, none during it |
| WaitTheorems.SleeperHasChild | kernel/proc.c:361-408 | no process sleeps in wait without a child |
| WaitRun.SleepsThenReports | kernel/proc.c:299-408 | a run in which a process sleeps in wait while its child runs, and wait then reports the child's exit |
| PipeProof.WakeupReachesAll | kernel/proc.c:503-545 | when wakeup's loop over the processes is over, nobody waits on the channel, whatever processes on their way into sleep did meanwhile |
| PipeProof.NoLostWakeup | kernel/pipe.c:51-111 | whenever the pipe is unlocked a waiting writer means full and readable, a waiting reader empty and writable: in all states of a run iff no writer returns killed while a reader waits |
| PipeProof.FirstInFirstOut | kernel/pipe.c:67-111 | bytes received are a prefix of bytes sent, the rest is in the ring in order, and full and empty are told apart across 32-bit wrap |
| PipeTransfer.SentIsPut | kernel/pipe.c:67-90 | the bytes sent are those that writers put from their buffers, in the order they put them |
| PipeTransfer.WriteInOrder | kernel/pipe.c:67-90 | at every moment of a write, what its process has put and what is left to do are its buffer |
| PipeTransfer.OneWriter | kernel/pipe.c:67-111 | with one write, what readers have received is a prefix of its buffer |
| PipeTransfer.WriteReturns | kernel/pipe.c:67-90 | a write returns with its whole buffer sent, or killed, or full without a reader, or with a buffer that cannot be read |
| PipeTransfer.ReadReturns | kernel/pipe.c:92-111 | a read returns with all n bytes; or the pipe is empty, and it has some bytes or nobody can write; or killed; or its buffer cannot be written |
| PipeProof.WakeupLost | kernel/pipe.c:74-78 | a run that ends with a reader asleep on a full pipe |
| CpuProof.OneStack | kernel/proc.c:417-531 | at most one CPU executes on a process's kernel stack |
| CpuProof.UnlockedRunning | kernel/proc.c:417-531 | a process whose lock is free is RUNNING iff it is c->proc of a CPU; that CPU is unique and executes it |
| CpuProof.NeverPanics | kernel/proc.c:459-471 | the panics of sched, acquire, release and pop_off and the return of sched in exit are unreachable |
| CpuProof.Interruptible | kernel/trap.c:117-139 | noff counts the locks held and keeps interrupts off; an interrupt finds a scheduler without process or a RUNNING process |
| CpuProof.FlagRestored | kernel/spinlock.c:78-92 | giving up the last lock restores the interrupt flag the process had, on whichever CPU it is now |
| CpuYield.YieldedIsReady | kernel/proc.c:474-480 | from its call of yield until it returns a process is RUNNING or RUNNABLE, and RUNNABLE whenever no CPU executes it |
| CpuYield.SleepsUntilWoken | kernel/proc.c:503-531 | a process that called sleep does not return before it is woken, and is SLEEPING whenever no CPU executes it |
| FreeList.BlocksDisjoint | user/umalloc.c:24-80 | different blocks, free or handed out, have no unit in common |
| FreeList.FreeBlocksApart | user/umalloc.c:30-39 | no two free blocks are adjacent |
| Umalloc.Heap.Search | user/umalloc.c:28-29 | the circular search ends, at the block behind which bp belongs |
| Umalloc.Heap.Free | user/umalloc.c:24-41 | the block joins its free neighbours; no unit is lost; the list stays in address order with one wrap |
| Umalloc.Heap.Morecore | user/umalloc.c:43-54 | one call of sbrk, for at least 4096 units; what it yields becomes free, and a failing call changes nothing |
| Umalloc.Heap.Malloc | user/umalloc.c:56-80 | hands out a new block of the right size; asks sbrk, once, iff no free block is large enough; fails iff sbrk then does |
| Umalloc.Run | user/umalloc.c:24-80 | after any sequence of calls the units in the heap are exactly those that sbrk granted, with at most one call of sbrk for each of them; with everything freed all of it is on the list |
| ShellStrings.LineWords | user/sh.c:304-389 | every argument and file name in a parsed tree is a whole word of the input |
| ShellStrings.NulTerminate | user/sh.c:392-432 | writes NUL behind every argument and file name and nowhere else |
| ShellStrings.StillReads | user/sh.c:392-432 | afterwards each of them reads as the word it was |
| ShellStrings.ParseInPlace | user/sh.c:289-302 | parsecmd on the buffer: the tree of the input, or a syntax error and the buffer unchanged |
| ShellRoundTrip.ParsePrint | user/sh.c:237-389 | every command tree, printed in full parentheses, parses back to itself |
| ShellFlat.ExecFlat | user/sh.c:361-389 | words and redirections in any order parse to the command of the words inside the redirections, first innermost |
| ShellFlat.ParseFlat | user/sh.c:237-389 | every line of words, redirections, pipes, & and ; without parentheses parses to the command it stands for, the pipe binding tightest, then &, then ; |
| VirtioRing.AtMostTwo | kernel/virtio_disk.c:139-148 | never more than two requests hold descriptors |
| VirtioRing.BlockPlace | kernel/virtio_disk.c:151 | the disk offset of block b is 1024 * b iff b < 2^31 |
| VirtioRing.BlocksApart | kernel/virtio_disk.c:151 | the 1024 bytes of two blocks do not overlap iff their numbers differ modulo 2^31 |
| VirtioRing.ReportedTest | kernel/virtio_disk.c:234 | the test modulo NUM sees exactly whether a completion is unseen |
| VirtioDisk.Driver.AllocDesc | kernel/virtio_disk.c:109-117 | the lowest free descriptor, or none is free |
| VirtioDisk.Driver.Alloc3Desc | kernel/virtio_disk.c:139-148 | three different free descriptors iff there are three, else all are free as before |
| VirtioDisk.Driver.FreeChain | kernel/virtio_disk.c:129-137 | ends after freeing exactly the request's three descriptors; the panics of free_desc are unreachable |
| VirtioDisk.Driver.Submit | kernel/virtio_disk.c:150-218 | a request with a chain of its own is offered, iff three descriptors are free, for the 1024 bytes at disk offset 1024 * blockno if blockno < 2^31 |
| VirtioDisk.Driver.Serve | kernel/virtio_disk.c:168-204 | the device finds in the descriptors exactly the buffer, direction, disk offset and length asked for |
| VirtioDisk.Driver.Intr | kernel/virtio_disk.c:231-247 | every completion is seen once, in order, finds its buffer still marked, and unmarks it |
| VirtioDisk.Driver.Finish | kernel/virtio_disk.c:220-229 | the request's descriptors are free again and no other's |
| VirtioDisk.Run | kernel/virtio_disk.c:109-247 | any order of requests, device steps and rounds of the interrupt handler keeps all this and reaches no panic; every request that returns was moved exactly once, between its own buffer and the bytes of its block |

## Left out

- The kernel's assembly, boot code, traps other than the timer's, PLIC, UART, console and CSR access: hardware registers.
- Directories, path names, link counts, the inode cache's reference counts, `ialloc`: easy beside the block layer, or not true of the code in all runs.
- `runcmd` and the other user programs, `printf`, argument fetching, string helpers.
- Freedom from deadlock and from starvation: exit may lock a stale parent, and init may miss a wakeup, as the source says.
- Memory ordering below the granularity of locks and barriers.
- The page-table routines run one at a time per address space; kmem.lock's interleavings are not modelled. Pages have two views, table entries or bytes, and kfree's junk fill is one of them.
- LogTheorems.RecoveredIsCommittedGroups: requires nlog > LOGSIZE; LogLimits.RefinesIff proves that no smaller area but nlog = 1 will do.
- LogTheorems.ReadsSeeLastStore: requires nlog > LOGSIZE; LogLimits.ReadsIff proves that no smaller area but nlog = 1 will do.
- LogDurability.ReturnedIsOnDisk: requires nlog > LOGSIZE, as RecoveredIsCommittedGroups does; which stores are committed is LogDurability.EndedIsCommitted's, for every layout.
- LogCode.Log.WriteLog: requires that the blocks behind the header that the list needs are on the disk and are not announced themselves. For nlog > LOGSIZE this holds in every run (LogSize.FitsIff).
- LogCode.Log.InstallTrans: requires the same.
- LogCode.Log.Commit: requires the same.
- LogCode.Log.EndOp: requires the same of the last operation to end.
- CrashConsistency.RecoveredConsistent: that the operations of a run keep the invariant in such an order is a hypothesis. The inode layer proves it for one operation at a time. How blocks encode inodes and bitmaps is a parameter.
- FsCode.FileSystem.Bmap: like all methods of the inode layer, it runs alone. `Busy` lets one inode at a time be ahead of the disk, so operations on different inodes do not interleave.
- FsCode.FileSystem.Balloc: a bitmap block is a sequence of bits; that bit b is bit b % 8 of byte b / 8 is not modelled.
- Mkfs.Image.Fill: the stripping of `user/` and `_` from file names is not modelled. Requires fewer than 207 files, as more inodes would be written over the bitmap.
- RecoveryPins.InstallTrans: states reference counts; the contents of the blocks are LogCode.Log.InstallTrans's.
- Processes.ProcTable.Fork: memory only; pids, the copied registers, open files and the current directory are not modelled.
- Processes.ProcTable.Run: starts with every page free. The pages of kernel stacks and pipes, which the kernel also takes from kalloc, are not part of it.
- Processes.ProcTable.Exec: the ELF header, the file reads and the process name are not modelled; a segment brings the bytes that reading the file yields. The trapframe's saved registers are represented by the returned sp.
- ExecCode.PushArgs: requires arguments shorter than a page, which sys_exec guarantees by fetching them into pages.
- ExitWaitTheorems.NoMissedZombie: excludes init, which the source says may miss a wakeup.
- CpuProof.NeverPanics: ordinary callers acquire only locks that they do not hold and release only locks that they hold, so for them the panics of acquire and release are excluded by assumption; what is proved is that the scheduler's handoffs of p->lock keep it true. Processes are also assumed to call sleep holding only the lock they pass and yield holding none. uartputc, reached from consolewrite with cons.lock held, does not keep to this.
- PipeProof.NoLostWakeup: kfree of a pipe closed at both ends is not modelled.
- Umalloc.Heap.Malloc: requires that the request in bytes fits an int, as sbrk takes one.
- VirtioDisk.Driver.Serve: the device always reports success; a failing device makes the interrupt handler panic.
- ShellParser.ParseCmd: malloc of tree nodes is not modelled, and a panic ends the parse without its message.
