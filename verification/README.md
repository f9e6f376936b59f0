# A verified model of xv6

xv6 is a small Unix for RISC-V multiprocessors. This project models the parts of its kernel, shell,
memory allocator and `grep` whose correctness is hardest to see from the code, and proves what they
are for.

* **Crash recovery.** The redo log of `kernel/log.c` as a sequence of single block writes
  (`Log.dfy`), as the imperative code that issues exactly those writes (`LogDevice.dfy`), and as one
  machine of any number of threads that interleave over the buffer cache and the log
  (`CacheLog.dfy`). A crash may come between any two steps, and any number of times; what has been
  logged is durable as soon as no operation and no commit is in progress.
* **The buffer cache** of `kernel/bio.c`: the linked list in arrays and its least-recently-used order
  (`BufferCache.dfy`).
* **The file system** of `kernel/fs.c` and `kernel/file.c`: bitmap, block map, truncation, reads and
  writes over bytes, with the ownership of every block and the number of blocks that an operation
  logs (`FsBytes.dfy`, `FsOwnership.dfy`, `FileSystem.dfy`, `FileIO.dfy`), and link counts
  (`Links.dfy`). `CrashSafety.dfy` puts this file system on the crash-safe disk: the boot after a
  crash at any moment finds it sound, with the contents of the last commit.
* **Processes** of `kernel/proc.c`: any number of CPUs, schedulers and processes that take one step at
  a time through `sleep`, `wakeup`, `yield`, `kfork`, `kexit`, `kwait` and `kkill`, and that a timer
  interrupt makes yield wherever they hold no lock (`Proc.dfy` is the machine, `ProcSafety.dfy` the
  proof, `ProcLaws.dfy` what the calls are for). The proof is rely/guarantee: each thread has a promise that
  holds at its program point, and every step of every other thread keeps it. No reachable state is a deadlock.
* **Address spaces** of `kernel/vm.c` and `kernel/kalloc.c`: three-level page tables in physical
  frames, and the free list threaded through the free frames (`PageTables.dfy`, `Vm.dfy`), and what the
  translation hardware makes of them for a user program (`Mmu.dfy`).
* **The disk driver** of `kernel/virtio_disk.c`: descriptors, the avail and used rings with 16-bit
  indices, and the device on the other side, which may fail any request (`Virtio.dfy`); **pipes**
  (`Pipe.dfy`).
* **User level:** `malloc` and `free` (`Umalloc.dfy`), the shell's parser (`Shell.dfy`) and the grammar
  that it decides (`ShellGrammar.dfy`), and the matcher of `grep` (`Grep.dfy`).

Modules carry the names of their files, except `Processes` (`Proc.dfy`), `ProcessSafety`
(`ProcSafety.dfy`), `ProcessLaws` (`ProcLaws.dfy`) and `Pipes` (`Pipe.dfy`). `Params.dfy` holds shared types and constants.

Code that updates state in place is a class, or a method with loops, that is proved against a
specification; protocols that interleave are state machines with an invariant over every run.
The clock, the device's choice of what to do next, the results of path lookup, of `sbrk` and of copies
from and to user memory are parameters.

What is false of the code, and where code and comments differ:

* *nlink equals the number of directory entries that name the inode.* False in a directory that was
  removed while it was somebody's current directory: `create` and `link` do not look at the
  directory's own `nlink`. `Links.FileInRemoved` is a run that breaks it. `Links.LinkedOutcome` proves
  that `link` keeps this law if and only if the directory has a link. For `create` there are two
  results. `Links.CreatedCounts` is about the law itself: it is kept if and only if the directory has
  a link, or the new inode is a directory whose name is not "." and the removed directory names no
  inode that is allocated, or is the new one, by an entry other than ".". `Links.CreatedOutcome` is
  about the law together with the tree that the directories form: both are kept if and only if the
  directory has a link. `Links.DirectoryInOrphan` is a run, with inode numbers as `ialloc` gives them
  out, in which the first holds and the second does not.
* *writei changes the bytes that it reports.* False when a copy from user memory fails in the middle of
  a block: the bytes copied until then are in the buffer, and `writei` releases it without
  `log_write`. `FileIO.UnreportedByte` is a run: of two bytes for a file of two, one can be copied; the
  result is 0 and the first byte has changed. `FileIO.WritesWhatItReports` and `FileIO.Writei` say
  exactly when the file holds the reported write and no more, in terms of the call's arguments and the
  old contents: if and only if every byte that can be copied after the last block boundary lies past
  the end of the file or was there before. This is also the one client of the buffer cache that does
  not log what it changed, as the cache-and-log machine takes its clients to do.
* *malloc returns memory that the process has.* False for requests above 2^31 - 32 bytes that no free
  block can hold: the int that `sbrk` takes cannot hold the size, `sbrk` succeeds and adds less than
  `morecore` goes on to use. `Umalloc.LargeRequest` is a run. `Umalloc.SbrkAsked` says for which
  requests it is asked for less, and for which for a negative number. `Umalloc.Heap.Malloc` says exactly
  when this happens, and that the returned block is all there in every other case.
* The comment on `uvmcopy` says that it frees any allocated pages on failure. The code frees the data
  pages; table pages that it added stay in the child's table until that is freed. The model follows
  the code, and so `Vm.Kernel.Uvmcopy` and `Vm.Kernel.Uvmalloc` state that the mappings are restored.
* `log_write` panics when the header is full even if the block is in it already. The model follows
  the code, and `CacheLog.LogHasRoom` covers that case.
* `piperead` takes a byte from the pipe before it copies it out, so a byte whose copy fails is lost
  and not counted in the result. `Pipes.Pipe.Read` states that this happens if and only if the copies
  stop before the bytes asked for, or those in the pipe, do.
* `kkill(0)` matches unused slots, whose pid is 0. The machine does the same.

## Model

| member | source | states |
|---|---|---|
| Log.ReplayAt | kernel/log.c:66-84 | after installing k logged blocks a home block holds the last log entry that names it, and what it held before if none does |
| Log.ReplayIsRedoable | kernel/log.c:66-84 | installing the whole log over any partial installation gives the same home blocks as installing it once |
| Log.CommitPlanInParts | kernel/log.c:194-204 | the writes of a commit are those of write_log, write_head, install_trans and write_head, in that order |
| Log.RecoveryPlanInParts | kernel/log.c:117-124 | the writes of recovery are those of install_trans over the on-disk header and then an empty header |
| Log.CommitPrefix | kernel/log.c:179-204 | after any k writes of a commit the disk is in the phase that k determines: logging with old home blocks, installing under a complete header, or erased |
| Log.CommitIsAtomic | kernel/log.c:194-204 | a crash after any number of a commit's writes recovers to the old home blocks if the header write is not among them and to all of the new ones if it is; the last write leaves an empty log |
| Log.RecoveryIsRedoable | kernel/log.c:117-124 | recovery cut short after any number of its writes recovers later to the same home blocks, and complete recovery shows them with an empty log |
| Log.NextConsistent | kernel/log.c:66-204 | a commit or boot that stops anywhere keeps "recovery yields the logical file system" |
| Log.RunsAreCrashAtomic | kernel/log.c:66-204 | over every sequence of commits and boots, each cut short anywhere, recovery yields exactly the state after the last header write that completed |
| LogDevice.RedoLog.constructor | kernel/log.c:53-64 | power-on: nothing in memory, the disk as it was found |
| LogDevice.RedoLog.Bwrite | kernel/bio.c:106-112 | the buffer and the disk agree on the block, and the write is the next in the history |
| LogDevice.RedoLog.LogWrite | kernel/log.c:215-236 | which of the two panics occurs and when; a logged block is in the header once, absorbed if it was there, and differs from the disk only in the cache |
| LogDevice.RedoLog.WriteHead | kernel/log.c:103-115 | one block write, whose image is the count and the block numbers over the old tail of the header |
| LogDevice.RedoLog.ReadHead | kernel/log.c:87-98 | the in-memory header is the on-disk one |
| LogDevice.RedoLog.WriteLog | kernel/log.c:179-191 | issues exactly the log writes of the plan; home blocks and header are as before and the log holds the transaction |
| LogDevice.RedoLog.InstallTrans | kernel/log.c:66-84 | issues exactly the install writes; cache and disk then agree on every logged block |
| LogDevice.RedoLog.Commit | kernel/log.c:194-204 | issues exactly the writes of the commit plan, which Log proves atomic; cache and disk then agree on what was cached before, with an empty log |
| LogDevice.RedoLog.RecoverFromLog | kernel/log.c:117-124 | issues exactly the writes of the recovery plan and leaves the recovered file system, an empty log and a clean cache |
| CacheLog.BgetMissStep | kernel/bio.c:75-88 | recycling keeps the invariant: the buffer taken is no logged block's, so no unwritten contents are lost |
| CacheLog.FillStep | kernel/bio.c:92-103 | reading a block from disk keeps the invariant: the disk has its logical contents whenever that can happen |
| CacheLog.LogBufStep | kernel/log.c:215-236 | log_write keeps the invariant: one pin per header entry, and the buffer shows the new logical contents |
| CacheLog.BeginOpStep | kernel/log.c:127-144 | begin_op keeps the invariant |
| CacheLog.EndOpStep | kernel/log.c:147-176 | end_op keeps the invariant |
| CacheLog.SettledStep | kernel/log.c:147-176 | the last end_op starts a commit and only its end lets operations begin again: whenever no operation and no commit is in progress, nothing is left in the log |
| CacheLog.WriteHeadStep | kernel/log.c:103-115 | the header write keeps the invariant, with the logical contents as the committed ones from then on |
| CacheLog.UnpinStep | kernel/log.c:79-80 | bunpin after an installation takes back the one pin that log_write added |
| CacheLog.CrashStep | kernel/log.c:66-124 | a crash in any state with the invariant leaves a disk that recovery can start from |
| CacheLog.StepKeepsInv | kernel/bio.c:58-151 | every step of every thread over the cache and the log, of a commit, a crash and a recovery keeps the invariant |
| CacheLog.RoomStep | kernel/log.c:127-144 | every step keeps logged plus reserved blocks within the log |
| CacheLog.RunKeepsInv | kernel/log.c:127-236 | every reachable state has the invariant and room in the log |
| CacheLog.BreadReturnsLatest | kernel/bio.c:58-103 | in every reachable state a thread that has read a block and not changed it holds the contents last logged, whatever was recycled or committed meanwhile |
| CacheLog.DifferenceIsPinned | kernel/bio.c:58-151 | in every reachable state an unlocked buffer that differs from the disk is in the log header with exactly one pin, and no bget can recycle it |
| CacheLog.CrashYieldsCommitted | kernel/log.c:66-124 | after a crash in any reachable state recovery yields the logical contents at the last completed header write |
| CacheLog.IdleIsDurable | kernel/log.c:147-204 | in every reachable state without an operation or a commit in progress, a crash yields the contents last logged of every block |
| CacheLog.LoggedIsDurable | kernel/log.c:147-236 | over every run: what a thread puts into a buffer and logs is what a crash yields for that block, as soon as no operation and no commit is in progress and until it is logged again |
| CacheLog.CommitAdvances | kernel/log.c:179-204 | every step of a commit brings it nearer to its end, no other step but a crash moves it, and it ends with operations allowed again |
| CacheLog.CommitIsEnabled | kernel/log.c:179-204 | a commit in progress can take its next step as soon as it has the buffers of the two blocks that the step reads and fills |
| CacheLog.BeginsExactly | kernel/log.c:127-143 | in every reachable state begin_op goes ahead if and only if no commit is in progress and the log has room for MAXOPBLOCKS for each operation, this one included |
| CacheLog.EndsAlways | kernel/log.c:147-171 | end_op never waits once the operation has logged what it changed; the commit is started by the last one out, and only by it |
| CacheLog.ClientsGoOn | kernel/bio.c:58-135 | in every reachable state: bget of a cached block, the read of a block that is not valid, log_write within the reservation, and brelse go ahead at once |
| CacheLog.RecoveryGoesOn | kernel/log.c:65-124 | recovery can always go on: a block to install or the header to erase, exactly one of them, and each block brings it nearer to the end |
| CacheLog.CommitsWholeOperations | kernel/log.c:147-204 | while a commit runs no operation is in progress and none can begin or log; what it makes durable is everything logged |
| CacheLog.LogHasRoom | kernel/log.c:127-144 | the header never overflows, and an operation that added fewer than MAXOPBLOCKS blocks cannot reach the "too big a transaction" panic |
| CacheLog.StepKeepsBetween | kernel/log.c:147-204 | no step but the end of the last operation can break a property of the committed contents and of the contents between operations |
| CacheLog.InvariantSurvives | kernel/log.c:66-236 | for every property of the home blocks: if it holds of the first disk and whenever the last operation in progress ends, then after a crash in any state of the run, inside operations or a commit, recovery yields the contents of the last commit, and they have the property; between operations they are all that was logged |
| BufferCache.Unlink | kernel/bio.c:128-129 | the two assignments take the node out of the ring and leave the order of the others |
| BufferCache.PushFront | kernel/bio.c:130-133 | the four assignments put the node right after the head and leave the order of the others |
| BufferCache.ReleaseKeepsRecency | kernel/bio.c:116-137 | moving a released buffer to the front keeps the list sorted by time of last release |
| BufferCache.Cache.constructor | kernel/bio.c:36-54 | binit makes one ring of all NBUF buffers, none in use and none valid |
| BufferCache.Cache.FindCached | kernel/bio.c:65-73 | the scan finds the buffer of the block, or there is none |
| BufferCache.Cache.FindUnused | kernel/bio.c:75-88 | the backward scan finds the least recently released of the buffers without users, or all have users |
| BufferCache.Cache.Bget | kernel/bio.c:58-89 | no buffer is returned if and only if every buffer is in use and none caches the block; a hit counts one user; a miss recycles the least recently used buffer; at most one buffer per block throughout, and no other buffer changes |
| BufferCache.Cache.TakeOut | kernel/bio.c:128-129 | the arrays form the ring without the buffer |
| BufferCache.Cache.PutFirst | kernel/bio.c:130-133 | the arrays form the ring with the buffer first |
| BufferCache.Cache.Brelse | kernel/bio.c:116-137 | one user fewer; the last one makes the buffer the most recently used, the order of the rest is kept |
| FsBytes.SetBit | kernel/fs.c:66-89 | of the 8192 bits of a bitmap block exactly this one is set |
| FsBytes.ClearBit | kernel/fs.c:92-106 | of the 8192 bits of a bitmap block exactly this one is cleared |
| FsBytes.BitIs | kernel/fs.c:76-79 | a bit of a byte is the one that the mask 1 << k tests |
| FsBytes.SetWord | kernel/fs.c:405-444 | of the 256 little-endian words of an indirect block exactly this one changes, to w |
| FsOwnership.MarkedBits | kernel/fs.c:66-106 | marking and clearing change the used bit of one block of the whole disk |
| FsOwnership.Allocate | kernel/fs.c:66-89 | a block that was free is owned by nobody, and ownership holds with it as a spare |
| FsOwnership.Release | kernel/fs.c:92-106 | a spare block is marked used, and freeing it keeps ownership |
| FsOwnership.AttachDirect | kernel/fs.c:411-419 | a spare block stored in an empty direct slot has that slot as its only owner |
| FsOwnership.AttachTable | kernel/fs.c:422-429 | a zeroed block as a new indirect table owns no entries |
| FsOwnership.AttachEntry | kernel/fs.c:430-440 | a spare block stored in an empty table entry has that entry as its only owner, and no other address moves |
| FsOwnership.DetachDirect | kernel/fs.c:455-460 | the block of a cleared slot has no owner and becomes spare |
| FsOwnership.DetachTable | kernel/fs.c:462-472 | clearing the table pointer makes exactly the table and its entries spare |
| FsOwnership.WriteContents | kernel/fs.c:528-562 | overwriting a data block moves no address and is visible through no other slot |
| FsOwnership.OthersKeepContents | kernel/fs.c:528-562 | what leaves another file's blocks alone leaves its contents alone |
| FsOwnership.GrowsKeepsBytes | kernel/fs.c:405-444 | mapping more blocks leaves every byte below the size alone |
| FsOwnership.WriteStep | kernel/fs.c:539-551 | writing m bytes into the block of byte off + tot extends the written prefix by m, and touches no other file |
| FsOwnership.DiskOffsets | kernel/fs.h:42-51 | the inodes stand one after the other, 64 bytes each, and so do the bits of the bitmap |
| FsOwnership.BitmapCount | kernel/fs.h:47-51 | the blocks that hold the bits of the disk are exactly one for every 8192 blocks or part of that |
| FsOwnership.SoundAfter | kernel/fs.c:337-562 | a change to one file that keeps ownership, and leaves that file mapped, keeps the whole file system sound and every other file its contents |
| FsOwnership.FreshIsSound | mkfs/mkfs.c:236-250 | free inodes under a bitmap that marks the blocks before the data are a sound file system |
| FileSystem.Fs.constructor | mkfs/mkfs.c:92-112 | an empty disk of any layout is sound: the blocks before the data are marked, every inode is free, and every block but those of the bitmap is zero |
| FileSystem.Fs.Mounted | kernel/fs.c:41-48 | a sound disk, with nothing logged |
| FileSystem.Fs.BeginOp | kernel/log.c:127-144 | an operation starts with nothing logged; only the count of logged blocks is kept here |
| FileSystem.Fs.EndOp | kernel/log.c:147-176 | the largest transaction so far is recorded; only the count of logged blocks is kept here |
| FileSystem.Fs.LogWrite | kernel/log.c:215-236 | at most one more distinct block is logged, and none if it was logged before |
| FileSystem.Fs.Take | kernel/fs.c:79-84 | the block is marked and zeroed, and both blocks that changed are logged |
| FileSystem.Fs.Balloc | kernel/fs.c:66-89 | the lowest free block, marked and zeroed, with the two blocks that changed logged; 0 if and only if the disk is full, and then nothing changed |
| FileSystem.Fs.Bfree | kernel/fs.c:92-106 | panics if and only if the block is free; otherwise clears this block's bit alone and logs one bitmap block |
| FileSystem.Fs.Iupdate | kernel/fs.c:226-243 | the disk has the inode in memory, in one logged block |
| FileSystem.Fs.AllocDirect | kernel/fs.c:411-419 | a new direct block of the file and two logged blocks, or a full disk and no change; every other file as before; every block that changed is logged |
| FileSystem.Fs.AllocTable | kernel/fs.c:422-429 | a new, empty indirect table, or a full disk and no change; every block that changed is logged |
| FileSystem.Fs.AllocEntry | kernel/fs.c:430-440 | a new block in the indirect table and three logged blocks, or a full disk and no change; every block that changed is logged |
| FileSystem.Fs.Bmap | kernel/fs.c:405-444 | panics exactly past MAXFILE and then changes nothing; otherwise the address is that of the block afterwards, 0 only on a full disk, and for a direct block then nothing changed; a mapped block changes nothing; file contents and other files are kept; every block that changed is logged, and what may be logged is bounded |
| FileSystem.Fs.FreeDirect | kernel/fs.c:455-460 | exactly the direct blocks are freed, exactly their bitmap blocks are logged, and no bfree panics |
| FileSystem.Fs.FreeTable | kernel/fs.c:462-472 | exactly the indirect table and its blocks are freed, exactly their bitmap blocks are logged, and no bfree panics |
| FileSystem.Fs.Itrunc | kernel/fs.c:448-476 | every block of the file is freed once, no other block is, all other files keep blocks and contents, and the disk inode is empty; logs exactly the bitmap blocks that hold the bits of its blocks, and the inode's block, and so every block that changed; a sound file system stays sound |
| FileIO.ReadOne | kernel/fs.c:505-520 | one turn of the loop: exactly m bytes of the contents from o, and nothing changes |
| FileIO.Readi | kernel/fs.c:494-523 | copies out exactly the bytes of the contents from off, cut at the size and at the first byte that cannot be written; -1 exactly when one could not, 0 when off is past the end or off + n wraps, else their number; changes nothing |
| FileIO.WriteOne | kernel/fs.c:539-551 | one turn of the loop: a success extends the written prefix by a piece that could all be copied, and logs its block; a failure is a block past the end of the file on a full disk, with nothing written, or a piece that cannot be copied whole, with exactly its readable bytes in the buffer; every block that changed is logged, but that one |
| FileIO.MapOne | kernel/fs.c:540-542 | bmap in the loop: nothing written so far is lost, and 0 only on a full disk |
| FileIO.CopyOne | kernel/fs.c:543-548 | the copy, as far as it gets, extends the bytes in the buffers by exactly its length |
| FileIO.WriteTurn | kernel/fs.c:539-551 | one turn goes on, at a block boundary or the end, or the write has ended as Ended says; what changed is logged as in WriteOne, and what is logged stays within the blocks written, the bitmap blocks of the new ones, the table and its bitmap block |
| FileIO.WriteLoop | kernel/fs.c:539-551 | the loop reports, and leaves in the buffers, exactly what the readable bytes determine, unless the disk is full at a block past the end of the file; every block that changed is logged, but for the block of unreported bytes; it stays within the blocks it may log |
| FileIO.Writei | kernel/fs.c:528-562 | -1 exactly when off is past the end, the sum wraps or the file would be too large, and then nothing changed; otherwise, unless the disk is full, r is all bytes or those up to the last block boundary that the readable ones reach, q is the readable ones, and the contents are the old ones with q bytes written at off and cut at the new size; the file holds the reported write and no more if and only if the condition of WritesWhatItReports holds; every block that changed is logged, with the inode, but for the block of unreported bytes; all other files are as before; at most WriteCost blocks are logged; a sound file system stays sound |
| FileIO.UnreportedBytes | kernel/fs.c:545-547 | the contents are those of the reported write if and only if each byte copied beyond it lies past the end of the file or was there before |
| FileIO.WritesWhatItReports | kernel/fs.c:528-562 | however the write ends, the file holds the reported write and no more if and only if the readable bytes after the last block boundary they reach lie past the end of the file or were there before: a condition on the arguments and the old contents |
| FileIO.UnreportedByte | kernel/fs.c:528-562 | a run from an empty disk: a write of which one byte can be copied returns 0 and changes that byte of the file |
| FileIO.FileOfTwo | kernel/fs.c:199-562 | the start of that run: a file of two bytes on an empty disk |
| FileIO.Ialloc | kernel/fs.c:199-220 | the lowest free inode gets the type and is otherwise blank, in one logged block; 0 if and only if there is none; a sound file system stays sound |
| FileIO.ChunkFits | kernel/file.c:149-165 | a chunk of filewrite at any offset costs at most MAXOPBLOCKS blocks |
| FileIO.WriteChunk | kernel/file.c:156-165 | one transaction, which is refused or ends as Ended says, logs what it changed as writei does, appends its result to the contents and offset and never calls log_write with MAXOPBLOCKS blocks logged already |
| FileIO.FileWrite | kernel/file.c:134-179 | the contents are the old ones with q bytes at the offset, which moves by done; the result is n if done is n and -1 otherwise; unless the disk is full, done and q are determined by the offset, the size and the readable bytes: whole chunks as long as the size limit accepts them, and in the last one what writei reports; no transaction exceeds its reservation; a sound file system stays sound |
| FileIO.Iput | kernel/fs.c:337-363 | the last reference to an inode without links frees it and exactly its blocks, logging exactly the bitmap blocks that hold their bits and the inode's block, and so every block that changed; any other call changes nothing on disk; a sound file system stays sound |
| FileIO.Ireclaim | kernel/fs.c:373-393 | at boot every inode with a type and no links is freed with its blocks, and every other file keeps its inode and contents; no transaction logs more than the bitmap and one inode block |
| FileIO.ReclaimLogs | kernel/fs.c:373-393 | freeing an inode logs one block for each bitmap block that holds a bit of its blocks, and its own, which is none of these |
| FileIO.ReclaimFits | kernel/fs.c:373-393 | freeing an inode fits the reservation of an operation if and only if the bits of its blocks lie in at most nine bitmap blocks, which is so on every disk of up to nine |
| CrashSafety.TableWords | kernel/fs.c:405-444 | the entries of an indirect table, read from bytes, are the words of the logged block |
| CrashSafety.BytesRoundTrip | kernel/fs.c:405-444 | every block of bytes is the reading of some block of words |
| CrashSafety.DinodeBytes | kernel/fs.h:32-39 | an inode is read from the bytes of struct dinode: type, nlink, size and each address at its offset, lowest byte first |
| CrashSafety.DinodeReadBack | kernel/fs.c:226-243 | what iupdate puts in one of the sixteen places of a block is read back from there, and the other fifteen inodes are as before |
| CrashSafety.UpdateOnDisk | kernel/fs.c:226-243 | iupdate on the disk of words changes exactly that inode of the file system, and no other block |
| CrashSafety.WriteOnDisk | kernel/log.c:215-236 | logging the words of a block changes exactly that block of the file system |
| CrashSafety.SameFiles | kernel/log.c:66-124 | disks with the same home blocks hold the same files |
| CrashSafety.SoundSurvives | kernel/log.c:66-236 | if the first disk holds a sound file system and every state in which the last operation ends does, then after a crash in any state recovery yields the contents of the last commit, and they are a sound file system; between operations they are all that was logged |
| CrashSafety.FreshDisk | mkfs/mkfs.c:92-112 | for every layout there is such a first disk: zeroes but for the bitmap are a sound file system with an empty log |
| CrashSafety.BootAfterCrash | kernel/fs.c:41-48 | the boot after any such crash: a sound file system in which every file that is not an orphan has its inode and contents as of the last commit, and every orphan is free; after a crash between operations that is everything they did |
| ProcessSafety.Exclusive | kernel/spinlock.c:21-72 | two threads that run never hold the same lock |
| ProcessSafety.WrittenGuarantee | kernel/proc.c:256-608 | each action of a thread writes only what the locks it holds allow |
| ProcessSafety.MoveRely | kernel/proc.c:256-608 | every action of a thread keeps the rely condition of all others |
| ProcessSafety.StepRely | kernel/proc.c:256-608 | every step changes another process only as its locks allow, and in the ways that the other threads rely on |
| ProcessSafety.OthersKeepPromises | kernel/proc.c:256-608 | a step of one thread leaves the promise at every other thread's program point true |
| ProcessSafety.MoveKeepsPromise | kernel/proc.c:256-608 | each action of a thread establishes the promise at its next program point |
| ProcessSafety.TickKeepsInv | kernel/trap.c:135-163 | a timer interrupt at any point where a process holds no lock, inside kfork, kexit, kwait, kkill, sleep or wakeup, keeps the invariant |
| ProcessSafety.StepKeepsInv | kernel/proc.c:109-608 | every acquire, release, interrupt, dispatch, switch and action on any CPU keeps the invariant |
| ProcessSafety.RunKeepsInv | kernel/proc.c:109-608 | every state of every run from boot has the invariant |
| ProcessSafety.NoLostWakeup | kernel/proc.c:539-584 | when wakeup(chan) has finished its scan under the sleepers' lock lk, no other process is asleep on chan under lk |
| ProcessSafety.NoMissedExit | kernel/proc.c:307-412 | whenever wait_lock is free, no process asleep in kwait has a zombie child |
| ProcessSafety.ReportedOnce | kernel/proc.c:323-412 | every report of kwait is of a process that exited, with its exit status, to its parent at that time, and no exit is reported twice |
| ProcessSafety.NotForgotten | kernel/proc.c:307-412 | every exit has been reported or waits as a zombie, with its status, for a parent that is alive, also after its parent exited |
| ProcessSafety.NoPanics | kernel/proc.c:469-487 | the panics of sched, acquire, release and pop_off are unreachable in every run, and no process runs on two CPUs |
| ProcessLaws.NoDeadlock | kernel/proc.c:22-26 | in every reachable state: follow the lock that a thread inside these calls waits for to the CPU that holds it, at most twice, and there is a thread that can go on |
| ProcessLaws.LocksInOrder | kernel/proc.c:22-26 | inside these calls a process lock is acquired last: no thread that holds one acquires another lock, and wait_lock is acquired by threads that hold no lock |
| ProcessLaws.NoThreadIsStuck | kernel/proc.c:110-609 | in every reachable state the thread on each CPU can take a step, or is inside a call and spins for a lock that a CPU holds |
| ProcessLaws.CallsAllowed | kernel/proc.c:256-609 | a running process that holds no lock can be interrupted, but where it yields already, and can fork, kill and wait; one that holds its condition lock can sleep; any thread can wake sleepers |
| ProcessLaws.ScanOutcome | kernel/proc.c:376-410 | in every reachable state: at the end of a scan kwait gives up if and only if no process has the caller as its parent |
| ProcessLaws.KilledOutcome | kernel/proc.c:404-413 | when kwait has children and has read the killed flag, it gives up if and only if the caller is killed; otherwise it goes on to sleep on its own slot under wait_lock, with no child a zombie |
| ProcessLaws.GivesUp | kernel/proc.c:367-415 | kwait returns only if the caller has no child, is killed, or a zombie was found |
| ProcessLaws.WaitReaps | kernel/proc.c:385-400 | what kwait frees is a zombie child, reported by the pid and status it has, and its slot is free afterwards; nothing else is reported |
| ProcessLaws.WaitFinds | kernel/proc.c:378-402 | kwait frees every zombie child that it looks at, unless the copy of the status fails |
| ProcessLaws.KillTakesEffect | kernel/proc.c:589-609 | when kkill returns 0 the process it found is killed and not asleep |
| ProcessLaws.KilledByKill | kernel/proc.c:589-609 | a process becomes killed only by a kkill of its pid, and stays so until its slot is freed |
| ProcessLaws.SleepsUntilWoken | kernel/proc.c:539-609 | a sleeper stays asleep unless a wakeup on its channel or a kkill of its pid makes it runnable |
| ProcessLaws.ForkStarts | kernel/proc.c:256-302 | when kfork returns, the child is runnable and has the caller as its parent |
| ProcessLaws.LoopCovers | kernel/proc.c:421-609 | the loops of kkill, allocproc and the scheduler look at every slot that they pass, over every run |
| ProcessLaws.LoopEnds | kernel/proc.c:110-609 | kkill returns -1 only after it has seen another pid in every slot, allocproc finds nothing only after it has seen every slot in use, and a pass of the scheduler ends only after it has looked at every slot |
| ProcessLaws.LoopBegins | kernel/proc.c:110-609 | these loops begin at the first slot |
| ProcessLaws.ScansAdvance | kernel/proc.c:307-609 | in every scan of the table, those of wakeup, kkill, allocproc, kwait, reparent and the scheduler, each step of the thread but an interrupt brings it nearer to the end |
| ProcessLaws.RunsTheRunnable | kernel/proc.c:421-460 | the scheduler runs the process in the slot it looks at if and only if that is runnable |
| PageTables.PteFields | kernel/riscv.h:371-389 | frame number and flags are read back from a page-table entry |
| PageTables.Split | kernel/riscv.h:391-394 | the three indices determine the page number |
| PageTables.Joined | kernel/riscv.h:391-394 | every triple of indices is that of one page |
| PageTables.Distinct | kernel/vm.c:97-115 | different pages lead to different entries of the tree |
| PageTables.Path | kernel/vm.c:97-115 | the walk from a root goes through table frames of that root alone |
| PageTables.Outside | kernel/kalloc.c:46-82 | a frame in no tree may change hands and contents, and every tree stays a tree |
| PageTables.AttachMid | kernel/vm.c:108-111 | a zeroed frame becomes an interior table, and the trees stay trees |
| PageTables.AttachLow | kernel/vm.c:108-111 | a zeroed frame becomes a lowest-level table, and the trees stay trees |
| PageTables.EnterLeaf | kernel/vm.c:162-172 | a leaf for a frame nobody uses keeps every tree and gives the frame its only owner |
| PageTables.LeafLookup | kernel/vm.c:162-172 | writing one leaf changes the translation of that page of that root and no other |
| PageTables.OpenTable | kernel/vm.c:262-278 | an empty table can be given up with one entry left open |
| PageTables.CloseEntry | kernel/vm.c:192-212 | clearing the open entry restores the trees |
| Vm.LeafOwner | kernel/vm.c:145-174 | the frame a valid leaf leads to belongs to that page of that table |
| Vm.NoSharing | kernel/vm.c:145-324 | no frame is mapped at two user pages of any two tables, and none that is mapped is free, a table or otherwise in use |
| Vm.Kernel.constructor | kernel/kalloc.c:26-41 | freeing the managed pages one by one, whatever is in them, gives a valid memory in which every frame is free |
| Vm.Kernel.Kalloc | kernel/kalloc.c:68-82 | 0 if and only if no frame is free; otherwise the head of the list leaves it, filled with junk |
| Vm.Kernel.Kfree | kernel/kalloc.c:46-62 | the frame is first on the list and no other frame changes |
| Vm.Kernel.Extend | kernel/vm.c:108-111 | a missing table is added and no translation changes; 0 only without free frames |
| Vm.Kernel.Walk | kernel/vm.c:97-115 | leads to the entry that translates the page, creates tables only if asked, changes no translation, and fails only for a missing table or without free frames |
| Vm.Kernel.MapPage | kernel/vm.c:162-172 | one more page is mapped, or no frame is free |
| Vm.Kernel.Mappages | kernel/vm.c:145-174 | exactly the pages of the range, or a prefix of it when frames run out, translate to the given frames and flags; every other translation and all data are kept |
| Vm.Kernel.RemovePage | kernel/vm.c:202-211 | the page has no translation and its frame is free, or with the caller |
| Vm.Kernel.Uvmunmap | kernel/vm.c:192-212 | exactly the pages of the range lose their translation; the frames that were mapped there, and no others, are freed if asked; holes are allowed |
| Vm.Kernel.AddPage | kernel/vm.c:227-237 | a page with the given contents is added, or nothing is mapped, no frame is lost and at most one is free |
| Vm.Kernel.Uvmdealloc | kernel/vm.c:246-258 | exactly the pages between the two sizes are freed |
| Vm.Kernel.Uvmalloc | kernel/vm.c:216-240 | the new pages are zeroed and mapped with the given permission and nothing else changes; on failure all mappings and data are as before, and memory was short |
| Vm.Kernel.Vmfault | kernel/vm.c:452-473 | a first touch below sz maps a zeroed frame at that page alone; 0 means past sz, already mapped or out of frames, and then no mapping changed |
| Vm.Kernel.Uvmcopy | kernel/vm.c:296-324 | the child has, in frames of its own, a copy of contents and flags of exactly the parent's mapped pages below sz; on failure no mapping is left, and memory was short; the parent never changes |
| Vm.Kernel.Freewalk | kernel/vm.c:262-278 | frees the table and every table below it, and no other frame; its panic on a leaf is unreachable |
| Vm.Kernel.GiveUp | kernel/vm.c:277 | freeing the swept table leaves the parent's entry open |
| Vm.Kernel.Uvmfree | kernel/vm.c:282-288 | every frame of the address space is free and every other frame and translation is as before |
| Vm.Kernel.Uvmcreate | kernel/vm.c:178-187 | an empty table, which uses one frame; 0 if and only if none is free |
| Vm.Kernel.ProcPagetable | kernel/proc.c:176-206 | a table that translates the trampoline and the trapframe and nothing else; on failure every frame is where it was, and fewer than six were free |
| Vm.Kernel.ProcFreepagetable | kernel/proc.c:210-216 | every frame of the address space is free, the lent trampoline and trapframe are not, and all others are as before |
| Mmu.HardwareWalk | kernel/riscv.h:371-395 | for every address below MAXVA the three-level translation of Sv39, over address and permission bits, finds exactly what walk finds |
| Mmu.LentUnreachable | kernel/proc.c:174-204 | a user program cannot read, write or execute the trampoline or the trapframe |
| Mmu.Isolation | kernel/vm.c:81-330 | what two user addresses reach in one frame they reach in the same process and page, and that frame is neither free nor a table |
| Mmu.GrownIsUsable | kernel/vm.c:214-240 | after uvmalloc a program can read zeroes in every new page, and write and execute there exactly as xperm says |
| Mmu.ForkedMemory | kernel/vm.c:290-330 | after uvmcopy the child may do at each address exactly what the parent may, finds the same contents, and has them in another frame |
| Links.DirLookup | kernel/fs.c:574-598 | finds the first used entry with the name, or there is none |
| Links.ReachedFromRoot | kernel/fs.c:574-598 | in a tree every directory with a link is reached from the root by entries that name it, so there are no detached cycles |
| Links.DirLink | kernel/fs.c:602-629 | succeeds if and only if the name is absent and there is an empty slot or room to grow; writes one entry, over an empty one or at the end |
| Links.IsDirEmpty | kernel/sysfile.c:173-186 | true if and only if every entry after the first two is empty |
| Links.LinkBegins | kernel/sysfile.c:145-147 | the increment, with the link under way, keeps the counts |
| Links.LinkSucceeds | kernel/sysfile.c:151-161 | the entry settles the count of the link under way, in a directory with links |
| Links.LinkFails | kernel/sysfile.c:163-169 | the decrement after a failure restores the counts, whatever happened in between |
| Links.LinkedOutcome | kernel/sysfile.c:151-161 | a successful link keeps the counts, and the counts with the tree, if and only if the directory still has a link |
| Links.LinkIntoRemoved | kernel/sysfile.c:151-161 | in a removed directory the count of the inode is wrong afterwards |
| Links.UnlinkFile | kernel/sysfile.c:188-242 | clearing a file's entry and decrementing its count keeps the law |
| Links.UnlinkDirectory | kernel/sysfile.c:188-242 | an empty directory has one link and its parent at least two; removing it keeps the law and the tree |
| Links.CreateSucceeds | kernel/sysfile.c:245-302 | a new file, device or directory with its dots and its parent's count keeps the law and the tree, in a directory with links |
| Links.CreateFails | kernel/sysfile.c:295-302 | the failure path leaves a consistent inode without links |
| Links.CreatedOutcome | kernel/sysfile.c:245-302 | a successful create keeps the counts together with the tree if and only if the directory still has a link |
| Links.CreatedCounts | kernel/sysfile.c:245-302 | a successful create keeps the counts if and only if the directory has a link, or makes a directory under a name other than "." in a removed one that names, but for its ".", no allocated inode and not the new one |
| Links.CreateInRemoved | kernel/sysfile.c:245-302 | in a removed directory the link of a new file is counted nowhere |
| Links.DirectoryInRemoved | kernel/sysfile.c:245-302 | a new directory in a removed one makes that count as linked outside the tree, so the tree is broken |
| Links.Freed | kernel/fs.c:337-363 | freeing an inode without links keeps the law for all others |
| Links.FileTree.constructor | mkfs/mkfs.c:117-128 | the root directory alone satisfies the law, for any number of inodes |
| Links.FileTree.LinkBegin | kernel/sysfile.c:123-147 | refuses directories; otherwise counts the link ahead and keeps the law |
| Links.FileTree.LinkEnd | kernel/sysfile.c:149-170 | succeeds exactly when the parent is found, the name is absent and there is room; enters this entry or takes the count back; the counts, and the counts with the tree, hold afterwards if and only if it failed or the directory has a link |
| Links.FileTree.Enter | kernel/sysfile.c:151-155 | when dirlink succeeds, and what the entry does to the law |
| Links.FileTree.Unlink | kernel/sysfile.c:188-242 | succeeds exactly for a present name other than the dots that is not a directory with entries; clears that entry, takes one link from the inode and, for a directory, one from its parent, and changes no other inode; keeps the law, and its panic is unreachable |
| Links.FileTree.Create | kernel/sysfile.c:245-302 | when it creates, under the lowest free number, and when it fails, with the new state; for a name that exists it returns the inode of the first entry if a file was asked for and that is a file or a device, and otherwise 0, and changes nothing; a failure changes no inode that existed; afterwards the counts with the tree hold if and only if it did not create or the directory has a link, and the counts alone if and only if that holds or it made a directory in the case of CreatedCounts |
| Links.FileTree.Ialloc | kernel/fs.c:199-220 | the lowest number that is not allocated, 0 if and only if all are |
| Links.FileTree.Dots | kernel/sysfile.c:276-280 | succeeds exactly when both entries have room, and then the directory starts with its dots |
| Links.FileTree.Fail | kernel/sysfile.c:295-302 | the failed inode has no links and every other inode is as before |
| Links.FileTree.Free | kernel/fs.c:337-363 | the inode is free and the law is kept |
| Links.Make | kernel/sysfile.c:245-302 | a new file or directory in a linked directory gets the lowest free number, with the stated state |
| Links.Remove | kernel/sysfile.c:188-242 | unlink of a file or an empty directory succeeds with the stated state |
| Links.FileInRemoved | kernel/sysfile.c:188-302 | a run: mkdir a, somebody enters it, a is removed, and a file created in it has a link that no entry counts |
| Links.Orphan | kernel/sysfile.c:188-302 | the run up to the last mkdir: a removed directory in use whose parent is free |
| Links.DirectoryInOrphan | kernel/sysfile.c:188-302 | a run: a file f, mkdir a and a/b, somebody enters b, b and a are removed and a is freed, f is removed and freed; a directory made in b gets the number of f, keeps the counts and breaks the tree |
| Virtio.RingRoom | kernel/virtio_disk.c:271-277 | no ring ever holds more than NUM entries, so no entry is overwritten before it is read |
| Virtio.Disk.constructor | kernel/virtio_disk.c:61-153 | all descriptors free, the rings empty, over a disk with any contents |
| Virtio.Disk.Modify | kernel/bio.c:107-113 | a caller may change a buffer that has no request in flight |
| Virtio.Disk.AllocDesc | kernel/virtio_disk.c:156-166 | the first free descriptor, or -1 if there is none |
| Virtio.Disk.FreeDesc | kernel/virtio_disk.c:169-182 | panics exactly for a number out of range or a free descriptor; otherwise clears and frees it |
| Virtio.Disk.FreeChain | kernel/virtio_disk.c:185-197 | frees exactly the three descriptors of the chain, without a panic |
| Virtio.Disk.Alloc3Desc | kernel/virtio_disk.c:201-213 | three different free descriptors, or fewer than three are free and everything is as before |
| Virtio.Disk.GiveBack | kernel/virtio_disk.c:206-210 | the roll-back restores the free list and cannot panic |
| Virtio.Disk.Submit | kernel/virtio_disk.c:215-283 | a request for this buffer, direction and sector is in flight under a head of its own, next in the avail ring, and every other request is untouched; it waits only when fewer than three descriptors are free |
| Virtio.Disk.Format | kernel/virtio_disk.c:238-265 | the chain says what the request asks, with the lengths of the header, the block and the status, and no other descriptor changes |
| Virtio.Disk.Publish | kernel/virtio_disk.c:267-277 | the request enters the avail ring, whose 16-bit index may wrap |
| Virtio.Disk.DeviceTake | kernel/virtio_disk.c:271-277 | the device takes requests in the order they were published, each once |
| Virtio.Disk.Transfer | kernel/virtio_disk.c:238-265 | the device, following the descriptors and their lengths, moves the right block, whole, in the right direction and writes its status; when it fails, any block may be at the destination and nothing else changes |
| Virtio.Disk.DeviceComplete | kernel/virtio_disk.c:294-327 | the request is carried out or failed, and reported with its status; no other buffer or sector changes; requests may complete in any order |
| Virtio.Disk.Report | kernel/virtio_disk.c:309-314 | the report enters the used ring, whose 16-bit index may wrap |
| Virtio.Disk.IntrOne | kernel/virtio_disk.c:294-327 | panics if and only if the oldest report carries a status other than 0, and then changes nothing; otherwise that report releases exactly the buffer of its own request, once; it stops exactly when every report has been seen |
| Virtio.Disk.Finish | kernel/virtio_disk.c:283-292 | returns only for a request that the device carried out with status 0; the buffer of a read still holds the block that was read; frees exactly the request's own descriptors, without a panic |
| Virtio.Serve | kernel/virtio_disk.c:271-327 | the device serves the only request and the driver sees its report: the block has moved in the right direction |
| Virtio.Rw | kernel/virtio_disk.c:215-292 | virtio_disk_rw from call to return on an idle disk: a write changes exactly this block of the disk, a read exactly this buffer, and the disk is idle again |
| Virtio.WriteThenRead | kernel/virtio_disk.c:215-327 | a run: a block written from one buffer is what a read leaves in any other, and no other block of the disk changes |
| Pipes.Slot | kernel/pipe.c:94-119 | the slot of a byte is the same before and after the counter wraps |
| Pipes.Pipe.constructor | kernel/pipe.c:33-37 | an empty pipe, open at both ends |
| Pipes.Pipe.Occupancy | kernel/pipe.c:87-110 | the two counter tests mean full and empty, also across a wrap |
| Pipes.Pipe.Write | kernel/pipe.c:76-103 | the stream grows by exactly the next bytes of the source, as many as the source, the room, the copies and the killing allow; it returns the count when all are written or a copy fails, -1 exactly when it stops with no reader or killed, and sleeps exactly when it stops for want of room |
| Pipes.Pipe.Append | kernel/pipe.c:95 | the stream grows by this byte and no unread byte is overwritten |
| Pipes.Pipe.Read | kernel/pipe.c:105-130 | the bytes are the next of the stream, in order, each once, as many as asked for, present and copied, and the byte whose copy fails; it sleeps exactly when the pipe is empty with a writer and it is not killed, and returns -1 exactly when it is; the result is less than what is taken if and only if the copies stop first |
| Umalloc.FreedGood | user/umalloc.c:24-44 | returning a block, with all four ways of joining neighbours, keeps the ring ordered, joined and disjoint, and frees exactly its units |
| Umalloc.UnlinkedGood | user/umalloc.c:76-77 | taking a block of the exact size off the ring keeps the heap good |
| Umalloc.SplitGood | user/umalloc.c:78-82 | giving away the tail of a larger block keeps the heap good |
| Umalloc.ExtendedGood | user/umalloc.c:46-61 | new memory above the old, as a live block, keeps the heap good |
| Umalloc.LiveDisjoint | user/umalloc.c:63-90 | two live blocks never overlap |
| Umalloc.EachUnitOnce | user/umalloc.c:24-90 | every unit obtained is in exactly one block, live or on the ring, and no other unit is in any |
| Umalloc.RoomForBytes | user/umalloc.c:69 | the units for a request hold a header and its bytes, and one unit fewer does not |
| Umalloc.SbrkAsked | user/umalloc.c:46-61 | for every request: sbrk is asked for what morecore goes on to use if and only if it is at most 2^31 - 32 bytes, beyond that for less, and up to 2^32 - 32 for a negative number |
| Umalloc.Heap.constructor | user/umalloc.c:21-22 | nothing obtained and nothing live |
| Umalloc.Heap.Free | user/umalloc.c:24-44 | exactly the block's units become free, no other live block is touched, and a request of the same size then fits; freep is the last listed block before it |
| Umalloc.Heap.Splice | user/umalloc.c:33-42 | the links and sizes after joining on both sides |
| Umalloc.Heap.Morecore | user/umalloc.c:46-61 | exactly the new units, at least 4096, become free and the request fits; 0 if and only if sbrk failed or was asked for less than is used, and then nothing changed |
| Umalloc.Heap.Take | user/umalloc.c:75-84 | the block, or its tail, is live with exactly the units asked for, and freep is the block before it |
| Umalloc.Heap.TakeWhole | user/umalloc.c:75-77 | a block of the exact size is live, with all its units, and freep is the block before it |
| Umalloc.Heap.TakeTail | user/umalloc.c:78-82 | the last units of a larger block are live, the rest of it is still free, and freep is the block before it |
| Umalloc.Heap.Init | user/umalloc.c:70-73 | the first call sets up an empty ring and later ones change nothing |
| Umalloc.Heap.Start | user/umalloc.c:70-74 | the scan starts after freep |
| Umalloc.Heap.Onward | user/umalloc.c:74-89 | each turn leaves fewer blocks to see |
| Umalloc.Heap.CameRound | user/umalloc.c:86-88 | back at freep, no free block is large enough |
| Umalloc.Heap.Malloc | user/umalloc.c:63-90 | for every request: a block of exactly the needed units, with room for the bytes, that were all free or new, apart from every live block, all other free units still free; without sbrk it is the end of the first block after freep that is large enough, and freep is the block before that; sbrk is called only when nothing fits and at most once; 0 if and only if nothing fits and sbrk fails, or, as short, nothing fits and the request is above 2^31 - 32 bytes; where the heap ends afterwards; it terminates |
| Umalloc.LargeRequest | user/umalloc.c:46-90 | a run: a first request of 2^31 - 31 bytes asks sbrk for -2^31 bytes, and is short when that succeeds |
| Shell.GetToken | user/sh.c:271-314 | the scan agrees with the token function: kind, extent and the white space after it |
| Shell.Peek | user/sh.c:316-325 | skips white space and says whether one of the characters follows |
| Shell.GetRedirs | user/sh.c:380-403 | the loop agrees with the recursive reading of redirections, and its panic |
| Shell.ExecParses | user/sh.c:405-451 | a printed simple command or block, followed by what may follow it, is read back with its redirections in order |
| Shell.PipeParses | user/sh.c:367-378 | a printed pipeline is read back with the same nesting |
| Shell.BackParses | user/sh.c:350-365 | a printed command with its background marks is read back |
| Shell.LineParses | user/sh.c:350-365 | a printed list is read back with the same nesting |
| Shell.RoundTrip | user/sh.c:271-451 | parsing what was printed gives back the same command tree, for every tree of legal words with fewer than MAXARGS arguments a command |
| Shell.WholeIsLegal | user/sh.c:380-451 | what the parser accepts is within its own limits and made of legal words |
| Shell.AcceptedRoundTrip | user/sh.c:271-451 | for every accepted line, printing the command it means and parsing that gives the same command |
| Shell.LineWhole | user/sh.c:271-451 | every argument and file name of any accepted line is a whole word of it, so its end can be overwritten |
| Shell.PutNul | user/sh.c:471-478 | the word's pointer is a C string with exactly the word, and no character of another word is lost |
| Shell.NulTerminate | user/sh.c:455-499 | every argument and file pointer of the tree is a C string with exactly its word, none cut short by another's NUL |
| Shell.ParseCommand | user/sh.c:333-348 | the tree is that of the parser on the line, and the buffer afterwards holds each of its words as a C string |
| ShellGrammar.TokensSpellTheLine | user/sh.c:268-318 | the tokens of a line, in order, spell it without its white space; no word has white space or a symbol in it, and every other token is a symbol |
| ShellGrammar.LineRead | user/sh.c:350-453 | tokens that the grammar derives are read as the command that the derivation stands for |
| ShellGrammar.LineDerive | user/sh.c:350-453 | what the parser reads, the grammar derives, as the same command |
| ShellGrammar.ParserIsGrammar | user/sh.c:333-453 | for every line and command: the parser takes the line for the command if and only if the grammar derives its tokens as that command |
| ShellGrammar.TokensDecide | user/sh.c:271-453 | lines with the same tokens mean the same |
| ShellGrammar.WhiteSpaceIsOne | user/sh.c:268-318 | replacing a space, tab, return, newline or vertical tab by another leaves what a line means unchanged |
| ShellGrammar.TrailingWhiteSpace | user/sh.c:268-318 | white space at the end of a line, such as its newline, changes nothing |
| ShellGrammar.LeadingWhiteSpace | user/sh.c:268-318 | white space at the start of a line changes nothing |
| ShellGrammar.AcceptedIsPlain | user/sh.c:268-453 | no argument or file name of an accepted line is empty or has white space or a symbol in it, and no command has ten arguments |
| Grep.HereOne | user/grep.c:85-96 | a literal or dot covers one character and the rest of the pattern the rest |
| Grep.HereStar | user/grep.c:99-106 | a star is a choice of how many characters it covers |
| Grep.HereIsOccurrence | user/grep.c:72-82 | a match at the start of some suffix is an occurrence in the text |
| Grep.Match | user/grep.c:72-82 | true if and only if the text has an occurrence in the language of the pattern, with its anchors |
| Grep.MatchHere | user/grep.c:85-96 | true if and only if some prefix is in the language of the pattern, or the whole text under a final $ |
| Grep.MatchStar | user/grep.c:99-106 | true if and only if some number of characters that c accepts is followed by a match of the rest |

## Left out

- Boot, traps and interrupts other than the timer's `yield`, the console, UART, PLIC, `exec` and the system-call plumbing.
- User programs other than the shell's parser, `malloc` and `grep`'s matcher: `runcmd`, the line buffer of `grep`, `mkfs` beyond the root directory.
- Fairness and liveness of the scheduler, memory ordering weaker than sequential consistency, and spinning inside `acquire`.
- ProcessSafety.NoPanics: not the two panics that ask whether interrupts are enabled ("sched interruptible", "pop_off - interruptible"): `noff` is modelled and `intena` is not; interrupts are taken to be enabled exactly where a process holds no lock. Device interrupt handlers are client code of some thread.
- Process ids do not wrap: `nextpid` is unbounded, so pids are never reused.
- `bpin` and `bunpin` appear as steps of the cache-and-log machine, not as methods of the buffer cache.
- The cache-and-log machine writes home blocks straight to disk during recovery, since no thread runs then; `LogDevice.RedoLog.RecoverFromLog` goes through the cache.
- CrashSafety.SoundSurvives: that each end of the last operation leaves the file system sound is a hypothesis on the run; each operation of the file system is proved to keep it so, on the blocks and inodes of its own state.
- FileSystem.Fs.Iupdate: inodes on disk are records without `major` and `minor`; their layout within the block is in `CrashSafety.dfy`.
- FileSystem.Fs.constructor: the disk before `mkfs` writes the root directory and the programs, for a bitmap of any number of blocks; `mkfs` requires that the blocks it marks lie in the first.
- FileSystem.Fs.BeginOp: the wait and the reservation are in the cache-and-log machine.
- FileSystem.Fs.EndOp: the commit is in the cache-and-log machine and in `LogDevice`.
- FileSystem.Fs.LogWrite: the panics are in `LogDevice` and the pin in the cache-and-log machine.
- The inode table: `iget`, `idup`, `ilock`, and path lookup (`namex`), whose results are parameters; also `ilock`'s panic when `create` follows the ".." of a removed directory to a parent that has been freed as well.
- Overflow of the 16-bit `nlink`.
- FileIO.FileWrite: the count is a length, so a negative count, for which the code returns -1, is not modelled; neither are pipes and devices behind the descriptor, nor the checks of `writable`.
- FileIO.Ireclaim: inodes are taken one after the other, without other threads, as at boot.
- Links.FileTree.Unlink: one step under the locks that it holds, as is create; link gives its locks up in between and is two steps.
- Vm.Kernel.Mappages: addresses are page numbers, so the panics for unaligned addresses cannot arise; the remap panic and an empty range are excluded by the precondition, and every caller is shown to respect it.
- Vm.Kernel.Uvmunmap: the panic for unaligned addresses cannot arise, as addresses are page numbers.
- Vm.Kernel.Vmfault: the table passed in and the process's own table are the same, as in every call, and the process size is at most TRAPFRAME, as for Uvmalloc.
- Vm.Kernel.Kfree: an unaligned address or one outside the managed range, for which the code panics, is excluded, as is a frame in use; every caller is shown to respect this.
- Vm.Kernel.Walk: addresses from MAXVA on, for which the code panics, are excluded; every caller is shown to respect this.
- Vm.Kernel.Uvmalloc: sizes above TRAPFRAME, where user pages would meet the trapframe and the trampoline, are excluded; the callers do not check this bound.
- Vm.Kernel.Uvmdealloc: sizes above TRAPFRAME are excluded, as for Uvmalloc.
- Vm.Kernel.Uvmcopy: sizes above TRAPFRAME are excluded, as for Uvmalloc.
- Vm.Kernel.Uvmfree: sizes above TRAPFRAME are excluded, as for Uvmalloc.
- `copyin`, `copyout`, `copyinstr`, `uvmclear`, `walkaddr`, the kernel's own page table and lazy `sbrk`.
- Virtio.Serve: one order of events, for a device that does not fail; `DeviceTake`, `DeviceComplete` and `IntrOne` cover every order and failure.
- Virtio.Disk.constructor: the negotiation with the device in `virtio_disk_init`, memory barriers, and the wait of a sleeping caller, which is a later call of `Finish` or `Submit`.
- Mmu.HardwareWalk: user mode only; the accessed and dirty bits, which the hardware sets, and the kernel's own table are not modelled.
- `pipeclose`; waking and sleeping in pipes are outcomes of `Write` and `Read`, not steps.
- Umalloc.Heap.Morecore: `sbrk` returns memory above what it returned before, as long as the program does not give memory back itself.
- Umalloc.Heap.Malloc: when it is short the model stops at `sbrk`; what the program does with a header over memory that it does not have is not modelled. Header sizes do not wrap.
