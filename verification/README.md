# Verified model of the xv6 kernel's core

This project models the parts of xv6 (RISC-V) where a small mistake loses data or memory, and proves what they are for:
the write-ahead log and the buffer cache under it, files and the block bitmap, physical pages and address spaces, the
process life cycle and sleep/wakeup, the virtio disk queue, and three user-side programs: the allocator, the shell's
parser and grep. `dafny verify dfyconfig.toml` checks everything.

How the code is rendered:

- Code that updates state is a class, or a method over an array, with the source's fields, branches and loops, proved
  against functions and predicates on values. Pure code is functions.
- Interleaving is a state machine: one step per critical section, or per lock acquisition and release where the order
  of those is the point. A theorem about "every run" ranges over every finite sequence of steps.
- A `panic` is a result (`ok` is false, or a constructor). It is proved unreachable, or the condition for it is exact;
  for `mappages` it is one of three stated causes.
- What may happen in between happens in between: the disk may take and complete requests before every access of the
  driver to shared memory, processes interleave at every lock, the machine may stop after every disk write.
- Ghost fields say who owns what (`owner`, `at`, `holder`, `own`): a block, buffer, page, descriptor or unit has one
  owner, and conservation is that no step breaks this.
- Constants of the source that only bound sizes are parameters (`logsize`, `maxop`, `nbuf`, the process count).

| file | models |
|---|---|
| `Blocks`, `BufferCache`, `CacheRuns` | blocks; `kernel/bio.c`; every interleaving of its callers |
| `LogDisk`, `LogCommit`, `Log`, `LogRuns`, `LogGuards` | `kernel/log.c`: the log on disk, the code, every run, the size guards |
| `Bitmap`, `FsState`, `FsSpace`, `FsFiles`, `FsInodes`, `FsJournal`, `Fs` | the block layer of `kernel/fs.c`: who owns a block, room on the disk, bytes, inodes, what a transaction commits |
| `File`, `FileCrash` | `filewrite` of `kernel/file.c`, and a crash anywhere in it: the file layer on top of the log |
| `Kalloc`, `Sv39`, `Vm`, `Uvm`, `Freewalk` | `kernel/kalloc.c`, `kernel/vm.c` |
| `ProcMemory`, `ProcTable` | the memory of one process, and of all of them at once |
| `SleepWakeup`, `Sleeplock`, `LogSleep` | sleep and wakeup of `kernel/proc.c` for any condition; two callers: `kernel/sleeplock.c`, and begin_op and end_op |
| `ExitWait` | fork, exit and wait of `kernel/proc.c` |
| `Virtio` | the queue protocol of `kernel/virtio_disk.c` |
| `Umalloc`, `Grep`, `Shell`, `ShellParser` | `user/umalloc.c`, `user/grep.c`, `user/sh.c` |
| `Sets` | one lemma on set sizes |

Some properties one would expect depend on a condition:

- `log_write` also compares the header's length with the size of the log area. Within their reservations operations can
  run into that guard exactly when the area has no more than LOGSIZE blocks (`LogGuards.AppendGuardExact`), and mkfs
  makes an area of exactly LOGSIZE. A write that would only be absorbed can be stopped too
  (`LogGuards.AbsorbCanPanic`).
- A process sees in the buffer cache what was last stored, unless a buffer was unlocked changed but neither written nor
  pinned, and recycled: the blocks that happened to are exactly those that read stale (`CacheRuns.TransparentExact`,
  `CacheRuns.CarelessLoses`). `writei` does this when the copy from the user fails half-way. Committed, such a write
  still changes exactly the bytes it reports (`FsJournal.WriteCommitted`).
- `morecore` passes `nu * sizeof(Header)` through an `int`. The number arrives unchanged exactly for requests of up to
  2^31 - 32 bytes (`Umalloc.SbrkArgument`); above that malloc's free list would describe memory that sbrk never gave.
- `growproc` adds in 32 bits: a size that would wrap leaves the process as it is and counts as success
  (`ProcTable.Table.Grow`).

grep stops at the first line that holds a NUL or does not fit its buffer, and ignores a last line without a newline.
`Grep.Selected` says which lines are left, and `Grep.Grep` equals it on every input, however the input arrives.

## Model

| member | source | states |
|---|---|---|
| `BufferCache.Cache.constructor` | kernel/bio.c:36-53 | binit leaves all buffers on one ring, in an order that is a permutation, with no block cached |
| `BufferCache.Cache.Lookup` | kernel/bio.c:66-73 | the forward walk finds the buffer of the block if there is one |
| `BufferCache.Cache.Victim` | kernel/bio.c:77-87 | the backward walk finds the least recently released unreferenced buffer; there is none exactly when all are referenced |
| `BufferCache.Cache.Bget` | kernel/bio.c:58-89 | the block's own buffer, locked, with one more reference and nobody's contents changed; the panic happens exactly when the block is not cached and every buffer is referenced |
| `BufferCache.Cache.Bread` | kernel/bio.c:92-103 | the data is what the plain map from blocks to contents says; contents of no block change |
| `BufferCache.Cache.Bwrite` | kernel/bio.c:106-112 | exactly one disk write, of that block, with the buffer's contents |
| `BufferCache.Cache.Brelse` | kernel/bio.c:116-137 | one reference and the lock go; with the last reference the buffer moves to the front of the list and the order of the others stays |
| `BufferCache.Cache.MoveToFront` | kernel/bio.c:128-133 | the six pointer assignments turn a ring in one order into the ring with that buffer first |
| `BufferCache.Cache.Bpin` | kernel/bio.c:139-144 | one more reference to that block and nothing else |
| `BufferCache.Cache.Bunpin` | kernel/bio.c:146-151 | one reference less to that block and nothing else |
| `BufferCache.LinkAll` | kernel/bio.c:46-52 | linking each buffer in front of the last gives the ring of all of them in descending order |
| `BufferCache.Unlink` | kernel/bio.c:128-129 | two assignments take a buffer out of the forward and the backward ring alike |
| `BufferCache.OneBufferPerBlock` | kernel/bio.c:55-89 | no two buffers carry the same block of a real device |
| `BufferCache.ChangeOne` | kernel/bio.c:92-137 | changing one referenced buffer is seen as a change of exactly its block |
| `BufferCache.RecycleOne` | kernel/bio.c:77-87 | recycling an unreferenced buffer changes no block's contents |
| `BufferCache.NoBuffers` | kernel/bio.c:77-88 | for a block nobody uses, "no buffers" is reached exactly when the blocks in use are as many as the buffers |
| `BufferCache.SomeFree` | kernel/bio.c:77-88 | "no buffers" needs as many blocks in use as there are buffers |
| `CacheRuns.RunInvariant` | kernel/bio.c:58-151 | every state of every interleaving, careless callers included: buffers where the index says, counts equal to users plus pin, one holder per locked buffer, contents current or known to be lost |
| `CacheRuns.Transparent` | kernel/bio.c:58-151 | cache transparency: in every run of careful callers a process with a filled buffer sees what a plain map updated at every store would show |
| `CacheRuns.TransparentExact` | kernel/bio.c:58-151 | in every run, of any callers, a process with a filled buffer sees what the plain map shows exactly when the block is not one whose changed, unwritten and unpinned buffer was recycled |
| `CacheRuns.UnlockExact` | kernel/bio.c:116-137 | an unlock leaves every unsaved change held or pinned if and only if the caller wrote or pinned what it changed |
| `CacheRuns.TidyRun` | kernel/bio.c:58-151 | in every run of careful callers every unsaved change is held or pinned |
| `CacheRuns.CarelessLoses` | kernel/fs.c:500-503 | a run in which a change is stored, unlocked unwritten, recycled and read back as the old contents |
| `CacheRuns.OneBufferPerBlock` | kernel/bio.c:58-89 | in every run no block is in two buffers |
| `CacheRuns.PinnedStays` | kernel/bio.c:139-151 | from the pin to the unpin a block stays in the same buffer, referenced |
| `LogDisk.HeaderReadsBack` | kernel/log.c:86-114 | the header write_head leaves is read by read_head as the same list |
| `LogDisk.InstallAgain` | kernel/log.c:68-83 | copying a prefix home and then everything again is copying everything home |
| `LogDisk.RecoveryPointSafe` | kernel/log.c:116-123 | a crash after any single write of recovery leaves a log with the same meaning |
| `LogDisk.RecoveryRestarts` | kernel/log.c:116-123 | recovery may crash and restart any number of times: when it ends, home blocks are what the first disk's log meant and the log is empty |
| `LogDisk.CommitAtomic` | kernel/log.c:178-203 | crash atomicity: at every write of commit the log means all old or all new, new exactly from the header write on, and no other block changes |
| `LogDisk.CommitCompletes` | kernel/log.c:193-203 | after the last write the new contents are home and the log is empty |
| `LogCommit.CommitTraceSplit` | kernel/log.c:193-203 | the writes of commit are those of write_log, write_head, install_trans, write_head, in this order |
| `LogCommit.RecoveryTraceSplit` | kernel/log.c:116-123 | the writes of recovery are those of install_trans and write_head |
| `LogCommit.FinishedClean` | kernel/log.c:193-203 | commit changes no home block in memory, and afterwards memory and disk differ only outside the transaction |
| `Log.LogState.WriteLog` | kernel/log.c:178-191 | its disk writes are exactly the log blocks, in order, with the cached contents |
| `Log.LogState.WriteHead` | kernel/log.c:102-114 | one disk write, after which the header lists the in-memory blocks |
| `Log.LogState.ReadHead` | kernel/log.c:86-97 | the in-memory header becomes the list on disk |
| `Log.LogState.InstallTrans` | kernel/log.c:68-83 | its disk writes are exactly the home blocks in order; every logged block is unpinned once, unless recovering |
| `Log.LogState.Commit` | kernel/log.c:193-203 | the cached code's disk writes are exactly the trace proved crash-atomic; memory contents are unchanged and the log is empty |
| `Log.LogState.RecoverFromLog` | kernel/log.c:116-123 | on a fresh cache its disk writes are exactly the trace proved restartable; home blocks become what the log meant |
| `Log.LogState.TryBegin` | kernel/log.c:126-142 | an operation that starts finds room for all it may add beside all that was promised, so the reservation is kept; one that does not start met a commit or a sum of budgets above LOGSIZE |
| `Log.LogState.EndOp` | kernel/log.c:146-175 | the last operation commits the group, others write nothing whatever buffers are held; contents in memory never change |
| `Log.LogState.CommitBuffers` | kernel/log.c:178-203 | a commit finds a buffer for a log block exactly when the logged blocks and those in use elsewhere are fewer than NBUF |
| `Log.LogState.LogWrite` | kernel/log.c:214-235 | the block ends up listed once and pinned; it takes a new entry exactly when it had none; it panics exactly on the two guards |
| `LogRuns.ReservedKept` | kernel/log.c:126-175 | every step keeps entries used plus entries promised within LOGSIZE |
| `LogRuns.RunInvariant` | kernel/log.c:126-235 | every state of every run, crashes and reboots included, satisfies the invariant |
| `LogRuns.RunSafe` | kernel/log.c:126-235 | whole-run safety: stopped anywhere, recovery yields exactly the committed groups; a group has all writes of its operations, in no other group; no operation runs during a commit |
| `LogRuns.DurableMeans` | kernel/log.c:116-203 | in each phase of a commit, what recovery would find is exactly the committed groups |
| `LogRuns.GroupsGrow` | kernel/log.c:193-203 | what was committed stays committed through every later step and crash |
| `LogRuns.AppendsFitLogsize` | kernel/log.c:126-142 | an operation within its budget always passes the LOGSIZE guard |
| `LogGuards.Reach` | kernel/log.c:126-235 | every header length up to the limits is reached by some run within budget |
| `LogGuards.AppendGuardExact` | kernel/log.c:220-221 | operations within budget can hit a guard when appending if and only if the log area has at most LOGSIZE blocks |
| `LogGuards.AbsorbCanPanic` | kernel/log.c:220-221 | some run within budget stops an operation that only rewrites a block already listed |
| `Bitmap.BitsIndependent` | kernel/fs.c:74-76 | setting or clearing one bit of a byte leaves the other seven |
| `FsState.NoSharing` | kernel/fs.c:377-405 | when ownership holds, no two slots of one file or of two files name the same block |
| `FsState.MarkPending` | kernel/fs.c:75-77 | marking a free block keeps every block owned, pending or free, exactly as the bitmap says |
| `FsState.LinkSlot` | kernel/fs.c:377-405 | storing a pending block in an empty slot makes that slot its only owner |
| `FsState.LinkEntry` | kernel/fs.c:394-400 | the same for an entry of an indirect block, which is nobody else's |
| `FsState.FreeOwned` | kernel/fs.c:89-103 | freeing an owned block keeps the bitmap and the owners in step |
| `FsState.DataWrite` | kernel/fs.c:497-506 | writing a data block changes no slot, no owner and no bit |
| `FsSpace.NeedsOne` | kernel/fs.c:377-405 | an unmapped block whose slot can be reached needs exactly one free block |
| `FsSpace.NeedsTwo` | kernel/fs.c:386-402 | one whose indirect block is missing needs exactly two |
| `FsSpace.FreeTaken` | kernel/fs.c:64-86 | a block that goes from the bitmap to a slot is one free block less |
| `FsSpace.PaidThen` | kernel/fs.c:497-506 | mapping two adjacent stretches fills exactly the slots of both, one free block each |
| `FsSpace.PaidShort` | kernel/fs.c:497-506 | no room for the rest means there was no room for the whole |
| `FsFiles.BytesAfter` | kernel/fs.c:497-506 | storing bytes in a block changes those bytes of that one file and no others |
| `FsFiles.Wrote` | kernel/fs.c:486-517 | the loop's progress is the old file overlaid with the bytes written, if nothing after them was touched |
| `FsInodes.EncodeReadsBack` | kernel/fs.c:221-237 | what iupdate stores is what ilock loads, and the block's other inodes are undisturbed |
| `FsInodes.InodeWrite` | kernel/fs.c:221-237 | writing an inode touches no file's data, no slot and no bitmap bit |
| `FsJournal.JournalAlloc` | kernel/fs.c:64-103 | taking a block logs every block it changes; none is an inode block, and no file's bytes are among them |
| `FsJournal.ProgressCommitted` | kernel/fs.c:497-506 | what commit leaves after writei's loop: the bytes logged, and none of a half-copied block's that were in the file, with slots, owners and bitmap in step |
| `FsJournal.WriteCommitted` | kernel/fs.c:486-517 | writei as a transaction: whatever it returns, its commit leaves a consistent disk on which exactly the bytes it reports have changed; the cache agrees with it if that is all |
| `Fs.FileSystem.FindBit` | kernel/fs.c:73-76 | the lowest clear bit of one bitmap block, or none |
| `Fs.FileSystem.Balloc` | kernel/fs.c:64-86 | the lowest free block, marked and zeroed; the panic happens exactly when there is none |
| `Fs.FileSystem.Bfree` | kernel/fs.c:89-103 | for an owned block the panic is not reached and exactly its bit is cleared |
| `Fs.FileSystem.Bmap` | kernel/fs.c:377-405 | the block of file block bn, mapped if it was not; it panics exactly out of range or with fewer free blocks than the none, one or two it needs; no other slot, file or byte moves; at most one bitmap block per allocation is logged |
| `Fs.FileSystem.Readi` | kernel/fs.c:455-477 | exactly the file's bytes [off, off+n) clipped to its size, nothing changes; -1 exactly when the user buffer is too small |
| `Fs.FileSystem.Iupdate` | kernel/fs.c:221-237 | the inode on disk becomes the one in memory; no other inode and no file changes |
| `Fs.FileSystem.WriteLoop` | kernel/fs.c:497-506 | how far the loop gets, what the file then is, which blocks were logged and how many; it panics exactly when the empty slots it reaches are more than the free blocks, and otherwise fills exactly those |
| `Fs.FileSystem.Writei` | kernel/fs.c:486-517 | refused requests change nothing; otherwise the file is the old one overlaid with what was read, exactly all of it if the source was readable; no other file changes; the inode is on disk; blocks logged are bounded; the panic is exactly lack of room; and its commit leaves a consistent disk with exactly those bytes changed |
| `Fs.FileSystem.Itrunc` | kernel/fs.c:409-437 | every block of the file goes back, none twice, so "freeing free block" is not reached; the file is empty and no other file changes |
| `File.ChunkFits` | kernel/file.c:149-155 | for every offset and every chunk filewrite makes, data, bitmap, indirect and inode blocks together fit MAXOPBLOCKS |
| `File.ChunkLargest` | kernel/file.c:149-155 | the proved bound on a chunk of c blocks is within MAXOPBLOCKS at every offset if and only if 2c + 4 is, and filewrite's chunk is the largest whole number of blocks with that |
| `File.OverlayTwice` | kernel/file.c:157-174 | writing two pieces one after the other is writing both at once |
| `File.OpenFile.WriteChunk` | kernel/file.c:158-173 | one transaction within MAXOPBLOCKS, whose effect in memory and, committed, on disk is that of writei on the piece; it panics exactly for lack of room |
| `File.OpenFile.Write` | kernel/file.c:134-181 | the file is the old one overlaid with the whole request, or -1, exactly when the request was refused or unreadable; it panics exactly when the empty slots it gets to are more than the free blocks; every transaction fits and, committed in turn, leaves a consistent disk with a whole number of pieces more; no other file changes |
| `FileCrash.CommitPoint` | kernel/log.c:193-203 | at each write of a transaction's commit the log means the file system before it or after it |
| `FileCrash.LogUnread` | kernel/fs.c:377-517 | what the file system finds on a disk does not depend on the log blocks |
| `FileCrash.FilewriteCrash` | kernel/file.c:149-175 | a crash anywhere in filewrite and any number in recovery: the disk then holds a consistent file system, the old one with a whole number of pieces written over the file (or, if the source was unreadable, some bytes that were not) and every other file as it was; finished transactions are always there |
| `Kalloc.ConservedWrite` | kernel/kalloc.c:46-82 | pages off the free list may hold anything without disturbing it |
| `Kalloc.Kmem.constructor` | kernel/kalloc.c:26-31 | after kinit every page of memory is on the list exactly once |
| `Kalloc.Kmem.FreeRange` | kernel/kalloc.c:33-40 | all pages of the range go on the list |
| `Kalloc.Kmem.Kfree` | kernel/kalloc.c:46-63 | the page moves from in use to the front of the list; it panics exactly outside memory; no other page changes |
| `Kalloc.Kmem.Kalloc` | kernel/kalloc.c:68-82 | the list's first page moves to in use; it fails exactly when the list is empty |
| `Sv39.RepFrame` | kernel/vm.c:68-98 | a page table depends on its own pages only |
| `Sv39.AddMidRep` | kernel/vm.c:86-96 | adding a level-1 table changes no translation |
| `Sv39.AddLowRep` | kernel/vm.c:86-96 | adding a level-0 table changes no translation |
| `Sv39.SetLeafRep` | kernel/vm.c:149-153 | writing one entry changes exactly one translation |
| `Sv39.SlotsDistinct` | kernel/vm.c:80-98 | different pages below MAXVA reach different entries |
| `Vm.TranslateIsMap` | kernel/vm.c:68-98 | the three-level lookup the hardware does is the plain map from page numbers to entries |
| `Vm.Walk` | kernel/vm.c:80-98 | the place of the entry, with no translation changed; it gives up exactly where a table is missing and may not be made or there are fewer free pages than missing tables, and else takes exactly those; it panics exactly past MAXVA |
| `Vm.Walkaddr` | kernel/vm.c:103-121 | exactly the plain map restricted to user pages; nothing changes |
| `Vm.Mappages` | kernel/vm.c:137-160 | success adds exactly the requested pages, failure a prefix; for one page the condition is exact; it panics only over an empty request, a mapped page or MAXVA; no other page in use changes |
| `Vm.SpaceKept` | kernel/vm.c:137-187 | an address space with other pages is unaffected by a change to this one |
| `Uvm.Uvmunmap` | kernel/vm.c:165-187 | panics exactly when unaligned or some page is not mapped; otherwise exactly those entries go, and with do_free exactly the pages behind them |
| `Uvm.Uvmcreate` | kernel/vm.c:191-200 | a page table with no entries, or nothing taken exactly when there is no free page |
| `Uvm.UserBound` | kernel/vm.c:220-244 | an address space has no more user pages than there is memory, so growing never reaches MAXVA or the trapframe |
| `Uvm.Uvmdealloc` | kernel/vm.c:250-262 | the user part ends at the new size, its pages are back, and nothing panics |
| `Uvm.Undone` | kernel/vm.c:220-262 | growing and then unmapping what was added leaves tables and nothing else |
| `Uvm.Uvmalloc` | kernel/vm.c:220-244 | success adds zeroed user pages up to the new size; failure leaves entries and user pages as they were and every page taken back except tables; no panic; no failure while three free pages per page asked for are there, no success with less than one |
| `Uvm.Uvmcopy` | kernel/vm.c:300-328 | success gives the child the same flags and contents in its own pages; failure leaves it as before but for tables; the parent is unchanged and nothing panics; the same bounds on free pages |
| `Freewalk.EntryMeans` | kernel/vm.c:268-280 | an entry of a well-formed tree is a lower table, a page or nothing, and freewalk's test tells them apart |
| `Freewalk.FreeTables` | kernel/vm.c:266-282 | panics exactly when a page is still mapped below; otherwise each table of the subtree is freed once and no other page in use changes |
| `ProcMemory.Uvmfree` | kernel/vm.c:286-292 | every user page and table goes back; it panics exactly when something above the user part is still mapped |
| `ProcMemory.ProcPagetable` | kernel/proc.c:171-200 | exactly the trampoline and trapframe are mapped; it succeeds exactly with three free pages and takes those; on each failure path every page is back |
| `ProcMemory.ProcFreepagetable` | kernel/proc.c:204-210 | every page of the address space goes back, trampoline and trapframe stay, nothing panics |
| `ProcMemory.Freeproc` | kernel/proc.c:150-167 | exactly the trapframe and address space that are set go back |
| `ProcMemory.Allocproc` | kernel/proc.c:119-145 | a trapframe and page table in pages that were free, exactly when there are four, or nothing taken |
| `ProcMemory.Fork` | kernel/proc.c:272-296 | the child has the parent's pages, flags and contents in pages that were free, and the parent's registers but for 0 in a0; on failure every page is back; no page that was in use changes; it succeeds with 4 + 3 per page free and never with less than 4 + 1 per page |
| `ProcMemory.ProcessDied` | kernel/proc.c:150-167 | freeing a process gives memory back exactly as it was before the process was made |
| `ProcTable.Table.constructor` | kernel/proc.c:47-57 | before there are processes every page in use is the kernel's |
| `ProcTable.TableStep` | kernel/proc.c:119-296 | a process that begins, changes or ends within its own and free pages leaves every page with one role and every other process as it was |
| `ProcTable.Table.OneRole` | kernel/kalloc.c:46-82 | every page of memory has exactly one role: free, one process's trapframe, page table or user page, or the kernel's |
| `ProcTable.Table.Take` | kernel/kalloc.c:68-82 | kalloc by another part of the kernel keeps the table |
| `ProcTable.Table.Give` | kernel/kalloc.c:46-63 | kfree of such a page keeps it |
| `ProcTable.Table.Alloc` | kernel/proc.c:119-145 | a new process exactly with four free pages; no page in use changes |
| `ProcTable.Table.Fork` | kernel/proc.c:272-296 | a child with the parent's size and memory in pages that were free; all other processes unchanged |
| `ProcTable.Table.Grow` | kernel/proc.c:252-268 | the size is the 32-bit sum, kept if it wraps; pages kept hold what they held, new ones are zero; failure only for lack of pages and without effect; no other process changes |
| `ProcTable.Table.Free` | kernel/proc.c:150-167 | exactly the process's pages go back; no other process changes |
| `SleepWakeup.InvKept` | kernel/proc.c:474-573 | for any condition on data under a lock, every step of its users, sleep, wakeup, sched, scheduler, yield and kill keeps the invariant |
| `SleepWakeup.NoLostWakeup` | kernel/proc.c:528-573 | for any condition: if whoever makes it true calls wakeup before releasing the lock, in every run with the condition true and the lock free nobody is asleep on it or about to be, and whoever waits is RUNNABLE |
| `SleepWakeup.SchedSafe` | kernel/proc.c:474-492 | in every run a process that calls sched holds its p->lock and no other lock and is not RUNNING |
| `SleepWakeup.GoSleepRelease` | kernel/proc.c:541-542 | releasing the condition's lock while holding p->lock leaves no window for a wakeup to be missed |
| `SleepWakeup.UnlockKept` | kernel/proc.c:560-573 | releasing the lock with no wakeup owed strands nobody |
| `Sleeplock.Obeys` | kernel/sleeplock.c:21-41 | every statement of acquiresleep and releasesleep keeps the rule for users of sleep and wakeup |
| `Sleeplock.Refines` | kernel/sleeplock.c:21-41 | every run of the two is a run of the sleep/wakeup machine |
| `Sleeplock.LockWakeup` | kernel/sleeplock.c:21-41 | in every run with the sleep lock and its spinlock free nobody is asleep waiting for it |
| `Sleeplock.MutualExclusion` | kernel/sleeplock.c:21-41 | in every run at most one process has the sleep lock, and the pid field names it |
| `LogSleep.Obeys` | kernel/log.c:126-175 | every statement of begin_op, log_write and end_op keeps the rule for the condition that an operation may start, and end_op never finds a commit under way |
| `LogSleep.Refines` | kernel/log.c:126-175 | every run of them is a run of the sleep/wakeup machine |
| `LogSleep.BeginWakeup` | kernel/log.c:126-175 | in every run: with log.lock free, no commit under way and room for an operation, nobody sleeps in begin_op |
| `ExitWait.InvKept` | kernel/proc.c:272-428 | every step of fork, exit, reparent and wait keeps the invariant |
| `ExitWait.NoLostChild` | kernel/proc.c:339-428 | in every run: while wait_lock is free no process sleeps in wait, or is about to, with a zombie child |
| `ExitWait.NoOrphans` | kernel/proc.c:323-379 | in every run each zombie has a living parent that has not given its children away |
| `ExitWait.ReapedOnce` | kernel/proc.c:383-428 | in every run each child is reaped at most once, with the status it exited with |
| `ExitWait.ReapedByParent` | kernel/proc.c:396-413 | a child is reaped only by its current parent and only after leaving its CPU and stack |
| `ExitWait.NoneLost` | kernel/proc.c:339-428 | in every run whoever exited is a zombie in its slot or has been reaped |
| `Virtio.Pigeons` | kernel/virtio_disk.c:259-265 | the counting argument for why the rings never overflow |
| `Virtio.Wrap` | kernel/virtio_disk.c:260-265 | 16-bit ring indices name the same slots as the running counts |
| `Virtio.Disk.AllocDesc` | kernel/virtio_disk.c:144-154 | the first free descriptor, or none exactly when none is free |
| `Virtio.Disk.FreeDesc` | kernel/virtio_disk.c:157-170 | panics exactly for an index out of range or a free descriptor |
| `Virtio.Disk.Alloc3Desc` | kernel/virtio_disk.c:189-201 | three different free descriptors exactly when there are three; otherwise the free set is as before |
| `Virtio.Disk.FreeChain` | kernel/virtio_disk.c:173-185 | the three descriptors of a chain are freed and no panic happens |
| `Virtio.Disk.Device` | kernel/virtio_disk.c:223-312 | any number of device steps at any moment keep everything in step |
| `Virtio.Disk.WriteDesc` | kernel/virtio_disk.c:232-253 | a reserved descriptor is written field by field under the device's eyes, with no request disturbed |
| `Virtio.Disk.Format` | kernel/virtio_disk.c:223-257 | the whole chain of the request is in place before anything refers to it |
| `Virtio.Disk.WriteRing` | kernel/virtio_disk.c:260 | the slot written is one the device does not look at yet |
| `Virtio.Disk.WriteIdx` | kernel/virtio_disk.c:265 | only a fully written chain in the ring becomes visible, as the next request sent |
| `Virtio.Disk.Submit` | kernel/virtio_disk.c:203-269 | exactly if three descriptors are free, a new request with its own three, the next one sent, whatever the device does between the driver's writes; nothing in flight is touched; otherwise nothing is sent |
| `Virtio.Disk.DeviceTake` | kernel/virtio_disk.c:223-265 | whenever the device looks, also between two writes of the driver, what it takes from ring and descriptors is the next request submitted, complete |
| `Virtio.Disk.DeviceComplete` | kernel/virtio_disk.c:297-302 | a completion at any moment goes into the used ring without overwriting one not yet seen, and an interrupt is then pending |
| `Virtio.Disk.Intr` | kernel/virtio_disk.c:282-315 | every completion reported before the last look at the used index, also those that arrive meanwhile, is seen once, in order, and its buffer let go; a later one has a new interrupt; it panics exactly on a failed one |
| `Virtio.Disk.SeeOne` | kernel/virtio_disk.c:297-312 | one turn handles exactly the oldest completion not yet seen |
| `Virtio.Disk.Finish` | kernel/virtio_disk.c:271-279 | only a completed request is freed, its three descriptors become free, no panic happens |
| `Virtio.Disk.InOrder` | kernel/virtio_disk.c:203-315 | at every moment the device has read exactly the first requests sent, in order, buffers were let go in order of successful completion, and neither ring overflows |
| `Virtio.Disk.WorkBusy` | kernel/virtio_disk.c:255-279 | at every moment the device works only on buffers marked busy, different ones for different requests |
| `Umalloc.SbrkArgument` | user/umalloc.c:52-54 | sbrk receives the number of bytes morecore meant if and only if the request is at most 2^31 - 32 bytes |
| `Umalloc.BlocksDisjoint` | user/umalloc.c:24-90 | blocks, free or handed out, share no memory |
| `Umalloc.Coalesced` | user/umalloc.c:33-42 | no free block ends where another begins |
| `Umalloc.FreeUp` | user/umalloc.c:33-37 | joining with the block above keeps the list, the tiling and the gaps |
| `Umalloc.FreeDown` | user/umalloc.c:38-42 | joining with the block below does too |
| `Umalloc.Heap.FindPlace` | user/umalloc.c:30-32 | the circular search ends, at the list block just below the one being freed |
| `Umalloc.Heap.JoinAbove` | user/umalloc.c:33-37 | the first half of free, with the link from below still the old one |
| `Umalloc.Heap.JoinBelow` | user/umalloc.c:38-43 | the second half: the block is on the list, alone or joined |
| `Umalloc.Heap.Free` | user/umalloc.c:24-44 | the block leaves the live set, the memory held is the same, no other live block changes, neighbours are joined |
| `Umalloc.Heap.Morecore` | user/umalloc.c:46-61 | sbrk's reply decides: refused, nothing changes; granted, exactly those units join the heap and enough are free at freep or right after it |
| `Umalloc.Heap.Malloc` | user/umalloc.c:63-90 | the loop ends; the result is a block of its own of exactly the units needed, disjoint from every live block; sbrk is asked only if no free block is large enough, and 0 means that it refused; memory held is always exactly what sbrk granted |
| `Shell.LineShown` | user/sh.c:344-446 | the grammar reads the canonical token printing of every command back as that command |
| `ShellParser.GetToken` | user/sh.c:265-308 | takes exactly the next token of the string's token sequence |
| `ShellParser.Peek` | user/sh.c:310-320 | says whether the next token is one of the symbols, taking none |
| `ShellParser.ParseRedirs` | user/sh.c:374-397 | agrees with the grammar over the token sequence, failures included |
| `ShellParser.ParseBlock` | user/sh.c:399-413 | agrees with the grammar over the token sequence |
| `ShellParser.ParseExec` | user/sh.c:415-446 | agrees with the grammar over the token sequence, including the limit on arguments |
| `ShellParser.ParsePipe` | user/sh.c:361-372 | agrees with the grammar over the token sequence |
| `ShellParser.ParseLine` | user/sh.c:344-359 | agrees with the grammar over the token sequence |
| `ShellParser.NulTerminate` | user/sh.c:449-493 | writes a NUL after every word of the command and changes nothing else |
| `ShellParser.WordReads` | user/sh.c:448-493 | after that every word reads as a C string exactly as its token |
| `ShellParser.ParseCmd` | user/sh.c:327-342 | accepts exactly the lines that are one command of the grammar; every argument and file name in the buffer then reads as its token |
| `ShellParser.RoundTrip` | user/sh.c:265-446 | every command with valid words and fewer than MAXARGS arguments comes back from parsing its parenthesised printing |
| `Grep.Match` | user/grep.c:70-80 | true exactly when some substring, a prefix under ^, is in the pattern's language |
| `Grep.MatchHere` | user/grep.c:83-94 | true exactly when a prefix of the text is in the language, all of it if the pattern ends in $ |
| `Grep.MatchStar` | user/grep.c:97-104 | true exactly when some run of c, then the rest, matches |
| `Grep.SelectedLines` | user/grep.c:10-34 | of ordinary lines that fit the buffer, exactly the matching ones are selected, in order |
| `Grep.GrepLines` | user/grep.c:20-28 | the complete lines in the buffer that match are written, and what is left has no complete line |
| `Grep.Grep` | user/grep.c:10-34 | on every input, for every way read may split it, the output is Selected of the input; after a read error a beginning of it |

## Left out

- kernel/start.c, kernel/main.c, kernel/trap.c, kernel/plic.c, kernel/uart.c, kernel/console.c and the assembly: boot, traps and devices, where there is little to state without a hardware model.
- kernel/spinlock.c: taking and releasing a spinlock is an atomic step. Memory fences have no counterpart of their own; writes reach memory in program order.
- Directories, path names, the inode table and its reference counts (the rest of kernel/fs.c), kernel/pipe.c, kernel/exec.c, kernel/sysfile.c.
- copyin, copyout, uvminit, uvmclear, the kernel's own page table and TLB flushes of kernel/vm.c.
- Liveness: that a RUNNABLE process is eventually scheduled, that a device eventually completes, that begin_op eventually returns.
- runcmd and the prompt of user/sh.c; main of user/grep.c.
- BufferCache.Cache.Bget: a block whose buffer another process holds, where bget sleeps, is excluded; the class is one process's view, and the interleavings are those of CacheRuns.
- BufferCache.Cache.Bread: the same, and a cache with no buffer left, where bget panics.
- BufferCache.Cache.Brelse: the last release of a changed, unpinned buffer is excluded; what it does is CacheRuns.TransparentExact.
- Log.LogState.ReadHead: a header whose count is above LOGSIZE, which no write_head makes and which would overrun the array in memory, is excluded.
- Log.LogState.RecoverFromLog: the same.
- Log.LogState.LogWrite: the caller holds the buffer and the block is not in the log area, as all callers do.
- LogRuns: a commit's disk writes are the trace of LogDisk, crash between any two; reads and cache eviction are CacheRuns.
- Fs.FileSystem.Writei: when the source becomes unreadable part-way, what the cache shows of the failed piece is not fixed, as in the code; what its commit leaves is.
- File.ChunkLargest: the bound on the blocks a chunk logs is proved but not shown to be reached, which takes every allocation to be in a bitmap block of its own.
- FileCrash.FilewriteCrash: filewrite's transactions are committed one by one; grouping with operations of other processes is LogRuns.
- Kalloc.Kmem.Kfree: pages are named by number, so the panic on an address inside a page has no counterpart.
- Vm.Mappages: permissions with none of R, W and X, which no caller passes, are excluded.
- Uvm.Uvmalloc: memory is smaller than the user address space, as PHYSTOP makes it; between one and three free pages per page asked for, what happens depends on the tables already there and is not fixed.
- ProcTable: the process states and locks are ExitWait; a process's kernel stack is a page of the kernel.
- SleepWakeup: one condition and any number of processes; sleeps on other channels count as running elsewhere.
- ExitWait: open files, the working directory, the parent's other sleeps and copyout's success are choices of the environment; pids are not reused because nextpid does not wrap.
- ExitWait.InvKept: a wakeup is the one visit of its loop that can change something; the whole loop is in SleepWakeup.
- Virtio.Disk.Submit: sleeping for descriptors is the caller trying again; the buffer is in no other request, as its sleep lock ensures.
- Umalloc.Heap.Malloc: requests above 2^31 - 32 bytes are excluded by the condition of SbrkArgument; header memory is a map, and a header inside a joined block is forgotten.
- ShellParser: nodes are values, so the parser's way of filling an EXEC node already wrapped in redirections is modelled by its result.
- 64-bit wrap-around of addresses and sizes, which the bounds on memory and files keep out of reach.
