# A verified model of the xv6 kernel with a window manager

This project models the parts of the kernel that are state machines or data-structure algorithms and proves what
they are for. Each module stands for one source file or one part of it.

| part | modules | main results |
|---|---|---|
| Crash-safe log (`log.c`, `bio.c`, `memide.c`) | `Disk`, `CrashRecovery`, `BufferCache`, `Reservation`, `Log`, `GroupCommit`, `Admission`, `CommitProgress` | a crash at any step of any interleaving, and any number of crashed recoveries after it, leaves each operation's updates all or none, and all of those whose group has ended; a commit under way can always be finished; reads show what was last logged, commit under way or not; when log space and buffers can run out, exactly |
| Files (`fs.c`, `file.c`) | `BlockData`, `FsState`, `FileSystem`, `FileWrite`, `FileConsistency` | files are byte sequences under `readi`, `writei`, `itrunc`; every call of a run does what it is to do and nothing else, and the bitmap is exactly what allocated inodes own; a crash leaves the file system as it was between two calls; a chunk of `filewrite` fits one transaction |
| Directories (`sysfile.c`, `fs.c`, `mkfs.c`) | `LinkCount`, `Directories`, `Sysfile`, `Mkfs` | link counts equal the number of names after any run of create, link and unlink, and exactly when they would not; what each name means after each call; the bytes of directories follow, on the disk too, no other file loses a byte, and a crash leaves it right; which of the calls' panics can happen |
| Processes (`proc.c`, `sleeplock.c`) | `ProcTable`, `Scheduling`, `Lifecycle`, `ProcessCalls`, `SleepLock` | one CPU per running process, kernel stacks never freed under a CPU, every process leads to init, wait sleeps only with a living child and with no zombie, no pid twice, no lost wakeup; the whole effect of each call |
| Memory (`kalloc.c`, `vm.c`, `umalloc.c`) | `PageState`, `Vm`, `FreeList`, `Malloc` | every page has one owner through allocation, mapping, failure and unwinding; the user heap stays ordered, coalesced and conserved |
| Pipes (`pipe.c`) | `Pipe` | first in, first out across counter wrap-around; each call's bytes once and in order, however long it sleeps in between; when a reader can be left asleep, exactly |
| Languages (`sh.c`, `grep.c`) | `ShellSyntax`, `ShellRoundTrip`, `ShellGrammar`, `ShellParser`, `Grep` | the parser accepts exactly the texts of a grammar and gives their meaning, whatever their layout; terminating words in place destroys none; the matcher decides its pattern language |
| Windows and text (`window_manager.c`, `user_handler.c`, `user_window.c`) | `WindowManager`, `TextCursor` | the linked arrays are a sequence under append, remove and move-to-end; which box of a title bar a press hits; the click-to-offset walk inverts the offset-to-cursor walk |

`Basics` and `Sequences` hold what several modules share. A predicate written `P(x) == true` in a contract says no
more than `P(x)`; it keeps the predicate one obligation for the verifier instead of one for each of its conjuncts.

Code that updates things in place is modelled by classes whose methods have the source's loops and stores, each
proved against a function of its old state; what matters is then proved of these functions. Code that blocks is
modelled as a state machine over single statements or critical sections, and the results hold after every schedule.
A `panic` is shown not to happen by the precondition of the caller, or it is an outcome whose exact condition is
stated.

## What the proofs found

- `mkfs` gives the log `LOGSIZE` blocks including the header, so one less than `begin_op` counts on. The size
  panic of `log_write` can happen exactly when an operation may log its full `MAXOPBLOCKS`
  (`Reservation.PanicNeedsFullBudget`). Every chunk of `filewrite` logs at most seven blocks, which is below that.
- A writer that is killed while the pipe is full returns without waking the reader. That step, and no other,
  can leave a reader asleep on a pipe that holds data (`Pipe.SleepersKept`, `Pipe.KillStrandsReader`).
- `closeWindow` never moves the head of the window list. Closing any other window is right; after closing the
  head no sequence of windows matches the links (`WindowManager.Windows.CloseWindow`).
- A click just behind the last character may mean that character; when it does and when it does not is
  `TextCursor.EndRoundTrip`.
- A new entry in a directory that is itself no longer linked, or a count at its largest value, breaks the link
  counts; nothing else does (`LinkCount.CreateIsExact`, `LinkCount.LinkIsExact`). For each of the two a run gets there
  (`LinkCount.UnlinkedParentMiscounts`, `LinkCount.CountOverflows`).
- The ".." of a directory that has been removed while a process is in it can name an inode that is free, although
  every count is right (`LinkCount.ParentIsGone`), and `ilock` panics on such an inode. No other name leads to one
  (`LinkCount.FoundIsInUse`), and the panic of `unlink` about link counts never comes (`Sysfile.Serve`).
- `mkfs` rounds the size of the root up by a block even when its last block is full. The image is sound exactly when
  that block is not full (`Mkfs.PaddingIsExact`), so not with 62 files, or 126.
- The log pins up to `NBUF` - 1 buffers. `bget` panics exactly as `GroupCommit.BgetPanics` says, and it can: three
  operations within their budgets and three readers with a buffer each are enough (`GroupCommit.BgetCanPanic`).
- A press on the title bar is answered by the box that is painted under the mouse, but for two columns of the minimise
  box, where it closes the window, and four of the bar, where it minimises it (`WindowManager.PressedIsPainted`).
- `>>` opens its file just as `>` does, so it does not append (`ShellGrammar.RedirectAnywhere`).
- A row of an input field takes one character more than fit its width (`TextCursor.RowsAreFilled`).
- For a request of more than 2^32 - 8 bytes the unit arithmetic of `malloc` wraps and the block is too small
  (`Malloc.UnitsSuffice`).
- The directory skip of `deallocuvm` moves forward in every directory entry but the last, which user memory never
  reaches (`Vm.SkipAdvances`).

The comment above `filewrite` speaks of blocks, while its divisor is 512 and a block is 2048 bytes, so a chunk is
smaller than that comment suggests; the model follows the code.

## Model

| member | source | states |
|---|---|---|
| CrashRecovery.LogPhase | log.c:177-190 | copying any number of blocks into the log changes no home block and not the header, and each copied slot holds its new contents |
| CrashRecovery.HeadPhase | log.c:101-113 | the header write makes the whole transaction readable from the log while every home block is still old |
| CrashRecovery.InstallPhase | log.c:69-82 | after any prefix of the installation exactly that prefix is home, and the log can still be replayed in full |
| CrashRecovery.RecoverApplies | log.c:85-122 | recovery from a disk whose log holds a transaction leaves all of it home and the log empty |
| CrashRecovery.RecoverRestarts | log.c:115-122 | recovery stopped after any of its writes and started again ends with the same home blocks |
| CrashRecovery.RecoveryIsIdempotent | log.c:115-122 | the same for any number of crashed recoveries in a row; the log ends up empty |
| CrashRecovery.BeforeHeader | log.c:192-202 | commit stopped before its header write: the log is empty and every home block old |
| CrashRecovery.AfterHeader | log.c:192-202 | commit stopped after its header write and before the clearing one: the log still holds the transaction |
| CrashRecovery.CommitFinishes | log.c:192-202 | a commit run to its end leaves every home block new and the log empty |
| CrashRecovery.RecoverAfterCrash | log.c:115-122 | one recovery after a crash at any write of commit: all blocks new if the header was written, all old if not |
| CrashRecovery.CrashAtomicity | log.c:69-202 | the same for any crash point of commit followed by any number of crashed recoveries |
| CrashRecovery.HistoriesAreSerial | log.c:69-202 | over any history of finished and crashed commits the disk is what the transactions whose header was written make of it, one after the other |
| BufferCache.UnlinkKeepsRing | bio.c:132-133 | taking a buffer out of the doubly linked list leaves the ring without it |
| BufferCache.PushFrontKeepsRing | bio.c:134-137 | linking it in at the head gives a ring with it in front |
| BufferCache.Cache.constructor | bio.c:38-56 | the ring holds every buffer once and none has a block |
| BufferCache.Cache.FindCached | bio.c:68-76 | a buffer of the block is found exactly when there is one |
| BufferCache.Cache.FindVictim | bio.c:78-91 | the least recently used buffer that is neither in use nor dirty; none only if all are |
| BufferCache.Cache.Reserve | bio.c:61-93 | a cached block keeps its buffer, whoever has it locked, and one reference is added; otherwise the least recently used buffer that is neither used nor pinned is recycled, and nothing else changes; the panic happens exactly when the block is uncached and every buffer is busy |
| BufferCache.Cache.Lock | sleeplock.c:22-32 | the buffer's lock is taken once nobody has it, and nothing else changes |
| BufferCache.Cache.Iderw | memide.c:38-60 | a dirty buffer is the one block written; an invalid one gets the disk's contents |
| BufferCache.Cache.Bread | bio.c:96-106 | once no other process has the block locked, its one buffer is locked, with its cached bytes if it was valid and the disk's if not; the disk does not change |
| BufferCache.Cache.Bwrite | bio.c:109-116 | exactly the held block is written, and it is no longer pinned |
| BufferCache.Cache.MoveToFront | bio.c:132-137 | the buffer comes first, the others keep their order, no buffer's contents change |
| BufferCache.Cache.Brelse | bio.c:120-141 | one reference and the lock are dropped; the last reference moves the buffer to the front of the ring |
| Reservation.StepAccounts | log.c:125-233 | every logged block was logged within some running or finished operation's budget, step by step |
| Reservation.StepKeepsSum | log.c:213-233 | no step but begin_op raises logged blocks plus unused budgets |
| Reservation.ReservationHolds | log.c:125-174 | after every run logged blocks plus unused budgets stay within LOGSIZE, and nothing is active during a commit |
| Reservation.NeverFull | log.c:213-233 | with mkfs's log and one block less per operation the panic never happens and two blocks of LOGSIZE stay free |
| Reservation.PanicNeedsFullBudget | log.c:218-219 | with mkfs's log some run reaches the size panic if and only if an operation may log MAXOPBLOCKS blocks |
| Log.BreadSeesOverlay | bio.c:96-106 | whether it hits a pinned buffer, hits a clean one or misses, bread hands out the disk overlaid with the pending updates |
| Log.OverlayUpdatedAt | log.c:213-233 | logging a held buffer changes what is read for its block, and for no other block |
| Log.AppliedIsOverlay | log.c:192-202 | the disk after a transaction is applied is what readers saw before |
| Log.CommitIsAtomicForReaders | log.c:192-202 | after a crash anywhere in commit and any recoveries, each block is as readers saw it before commit, or, before the header write, as it was before the transaction; without a crash commit changes nothing for readers |
| Log.Log.WriteLog | log.c:177-190 | its writes are the pinned blocks into the log area, in order; no pin is lost, and what other processes hold meanwhile stays with them |
| Log.Log.FillHead | log.c:107-110 | the header's words spell the logged home blocks and their number |
| Log.Log.WriteHead | log.c:101-113 | one write, to the header block, that encodes what is logged; what other processes hold stays with them |
| Log.Log.InstallTrans | log.c:69-82 | its writes take the log blocks home in order, afterwards nothing is pinned, and what other processes hold stays with them |
| Log.Log.Commit | log.c:192-202 | its block writes are, one by one, the sequence whose crash points are analysed; the log is empty after it; readers may hold buffers all the while |
| Log.Log.DecodeHeadBlock | log.c:91-94 | the list read from a header block is the one write_head encoded |
| Log.Log.ReadHead | log.c:85-96 | the header of the disk becomes the log in memory; the disk does not change |
| Log.Log.RecoverFromLog | log.c:115-122 | its block writes are, one by one, the recovery that is analysed |
| Log.Log.FindEntry | log.c:224-227 | the entry of a block that is logged, or the end when it is not |
| Log.Log.LogWrite | log.c:213-233 | the held block is logged once and its buffer pinned, or one of the two panics is met and nothing changes, exactly on the source's conditions |
| Log.Log.Bread | bio.c:96-106 | whatever others hold, the caller gets the disk overlaid with the pending updates; no pinned buffer is recycled; the panic comes exactly when the block is uncached and every buffer is held or pinned |
| Log.Log.Brelse | bio.c:120-141 | letting go of a buffer loses no pin and changes nothing that is pending |
| Log.Log.UpdateBlock | log.c:204-233 | a read, modify, log_write, release cycle, whatever else the caller and others hold, changes what is read for that block only, disturbs no held buffer, and writes nothing to the disk |
| Log.Log.BeginOp | log.c:125-141 | an operation is admitted exactly when nobody commits and the log could take the budgets of all |
| Log.Log.EndOp | log.c:145-174 | only the last operation commits, and it commits what the whole group logged; an operation that is not the last changes nothing, whatever is held |
| GroupCommit.StepKeepsInv | log.c:125-233 | every critical section and every use of a buffer by any process, commit's own included, keeps uses, pins, cached data and the progress of commit in step |
| GroupCommit.InvHolds | log.c:125-233 | the same after every interleaving of any number of processes that hold buffers, inside operations and outside |
| GroupCommit.HeldOrPinnedStays | bio.c:61-93 | in every run no buffer that is held or pinned is given to another block |
| GroupCommit.BgetPanics | bio.c:77-92 | in every run bget panics exactly when the block is uncached and every buffer is pinned by the log or referenced by a process |
| GroupCommit.BgetCanPanic | bio.c:77-92 | some run gets there with three operations that each log fewer than MAXOPBLOCKS blocks and three processes that each hold one buffer |
| GroupCommit.BreadGivesLogged | bio.c:96-106 | in every run, commit under way or not, whoever has locked and read a buffer has what log_write last recorded for its block |
| GroupCommit.LoggedIsOverlay | log.c:204-233 | between commits that is the disk overlaid with the pinned buffers |
| GroupCommit.WriteAhead | log.c:192-202 | in every run a file-system block changes on the disk only in commit, when the log on the disk already names and holds the whole transaction |
| GroupCommit.CrashLeavesDurable | log.c:69-233 | a crash between any two steps of any run, and any number of crashed recoveries, leave exactly the updates that were logged before the last header write |
| GroupCommit.OperationsAreAtomic | log.c:125-202 | of each operation's updates all are among those or none, and none while it still runs |
| GroupCommit.EndedIsDurable | log.c:145-174 | whenever no operation runs and no commit is under way, the log in memory is empty and every update logged since the boot is durable: a crash then, with any number of crashed recoveries, leaves all of them |
| GroupCommit.LivesAreSerial | log.c:115-202 | through any number of boots, runs and crashes the disk holds the durable updates of all of them in order, and no others |
| Admission.StepIsReserved | log.c:125-233 | every step of group commit is one step of the reservation machine, enabled there, or changes nothing that it has |
| Admission.RunsAreReserved | log.c:125-174 | every run of group commit is a run of the reservation machine in which each operation logs the same blocks |
| Admission.LogNeverFull | log.c:213-219 | so in every interleaving log_write finds room, if each operation stays one block below what begin_op reserves for it |
| CommitProgress.OneWrite | log.c:177-202 | whenever commit has a block to write and nobody holds a buffer, there are steps that read what it needs, write it and release the buffers |
| CommitProgress.CommitCanFinish | log.c:145-202 | a commit under way can then be brought to its end, and all that was logged is durable |
| CommitProgress.WriteReachesDisk | log.c:125-233 | any block outside the log can be given any contents: an operation that logs it, by itself, has a run that ends with them on the disk, with every other block as it was |
| SleepLock.StepKeepsInv | sleeplock.c:22-53 | every statement of any process keeps the locking and sleeping invariant |
| SleepLock.InvHolds | proc.c:417-474 | the invariant after every interleaving of any number of processes |
| SleepLock.MutualExclusion | sleeplock.c:22-42 | at most one process holds the lock, and it is marked with that process's pid |
| SleepLock.NoLostWakeup | proc.c:417-468 | a sleeping process waits for a lock that is held, or the wakeup that will reach it is on its way |
| SleepLock.HoldingsleepIsExact | sleeplock.c:44-53 | holdingsleep answers true to the holder and to nobody else, at any moment |
| SleepLock.AcquireTakes | sleeplock.c:22-32 | acquiresleep of a free lock, undisturbed, takes it and marks it with the pid |
| SleepLock.AcquireSleeps | proc.c:417-450 | of a lock that is taken it goes to sleep on it, with the spin lock given up |
| SleepLock.WokenRetries | proc.c:446-453 | a process that is woken tries again |
| SleepLock.ReleaseFrees | sleeplock.c:34-42 | releasesleep frees the lock and makes runnable exactly those who sleep on it |
| FileSystem.FileSystem.FindClear | fs.c:64-74 | the lowest clear bit of one bitmap block, or none only when all its bits are set |
| FileSystem.FileSystem.Balloc | fs.c:56-78 | the lowest free block of the disk, marked and zeroed, or the panic only when every block is in use |
| FileSystem.FileSystem.Bfree | fs.c:81-95 | exactly that block's bit is cleared; all callers meet the condition that excludes its panic |
| BlockData.WordOfSet | fs.c:389-394 | storing a word of an indirect block changes that word and no other |
| BlockData.BitOfSet | fs.c:66-68 | setting a bitmap bit through its byte changes that bit and no other |
| BlockData.BitOfClear | fs.c:88-92 | the same for clearing a bit |
| FsState.AddrAllocates | fs.c:378-388 | hanging a fresh block on an inode address keeps bitmap and ownership in step and changes the bytes of no file |
| FsState.EntryAllocates | fs.c:389-394 | the same for an entry of the indirect block |
| FsState.HungIsInvisible | fs.c:372-400 | allocation by itself is invisible in every byte of every file |
| FsState.PatchWrites | fs.c:498-504 | writing part of one block changes those bytes of that file and nothing in any other |
| FsState.TouchedIsSmall | fs.c:481-511 | a write across k blocks passes at most 2k + 2 distinct blocks to log_write besides the inode |
| FsState.ClearedIsConserved | fs.c:407-435 | freeing a range of an inode's blocks and emptying its addresses keeps the bitmap equal to what is owned |
| FsState.DinodeOfPut | fs.c:220-236 | an inode stored among the sixteen-word places of its block is read back as it was, and the other inodes of the block stay |
| FsState.NodesOfStored | fs.c:220-236 | storing an inode changes that one in the table that the inode blocks spell out |
| FsState.MetaWriteIsInvisible | fs.c:220-236 | writing inode blocks moves no block and changes no byte of any file |
| FileSystem.FileSystem.Iupdate | fs.c:220-236 | the inode on the disk becomes the one in memory, all others on the disk and all files stay, and one block is logged |
| FileSystem.FileSystem.Ialloc | fs.c:194-214 | the lowest free inode is cleared, typed and stored, without a block to its name and with every other file unchanged; the panic exactly when all are in use |
| FileSystem.FileSystem.SetNlink | sysfile.c:142-144 | only the link count of that inode changes, in memory and on the disk |
| FileSystem.FileSystem.Iput | fs.c:331-352 | the last reference to an inode without links frees its blocks and the inode; any other changes nothing |
| FileSystem.FileSystem.Bmap | fs.c:372-400 | the block of a file position, allocated if it was missing; ownership stays exact, no file's bytes change, and a block that was there is returned without any change |
| FileSystem.FileSystem.Writei | fs.c:481-511 | on success the content is the old one with src spliced in at off and no other file changes; -1 exactly for an offset past the end or a result past the largest file |
| FileSystem.FileSystem.Readi | fs.c:452-476 | exactly content[off..min(off+n, size)], and nothing changes; -1 exactly for an offset past the end or wrap-around |
| FileSystem.FileSystem.Itrunc | fs.c:407-435 | the inode owns nothing afterwards, each of its blocks is freed once, no other file changes |
| FileConsistency.BitmapIsExact | fs.c:56-95 | the set bits are exactly the metadata blocks and the blocks of allocated inodes, and no block hangs in two places |
| FileConsistency.MkfsIsOk | mkfs.c:94-111 | that holds of the disk on which mkfs has marked its metadata |
| FileConsistency.Serve | fs.c:194-511 | any one call has its effect on the inode it names, as the whole content and the whole inode, and changes no other; it keeps the file system sound, panics only on a full disk or when every inode is in use, and changes no block that it does not pass to log_write |
| FileConsistency.Run | fs.c:194-511 | so does every call of a run, from one call to the next; the panic "freeing free block" is in none of them |
| FileConsistency.LoggedCarriesOut | fs.c:208-235 | the log_writes of such a call, seen as disk blocks, take the file system before the call to the one after it |
| FileConsistency.CallsAreShown | log.c:16-24 | the updates of the first m calls, applied to the disk, show the file system after m calls |
| FileConsistency.OneAtATimeIsInOrder | log.c:8-24 | when operations run one at a time, what is logged whenever none runs is the whole of the first calls, however commits, readers and the steps of each operation are interleaved |
| FileConsistency.CallsSurviveCrashes | log.c:8-24 | after a crash at any moment and any number of crashed recoveries the disk shows the file system exactly as it was between two calls, so it is sound if it was sound between calls |
| FileConsistency.ShowsOne | fs.c:220-236 | a disk shows one file system only |
| FileWrite.ChunkBlocks | file.c:135-141 | a chunk spans at most two blocks |
| FileWrite.TransactionFits | file.c:126-153 | a chunk logs at most seven distinct blocks, a budget with which log_write cannot panic |
| FileWrite.DeliveredTwice | file.c:136-153 | chunks delivered one behind the other are the whole delivered at once |
| FileWrite.File.WriteChunk | file.c:141-146 | one transaction: the chunk is in the file at the offset, the offset moves behind it, at most seven blocks are logged |
| FileWrite.File.Filewrite | file.c:117-156 | the bytes reach the file in order and without a gap; the call fails exactly when the whole would pass the largest file size, and then what was written are the whole chunks before the first that does not fit |
| LinkCount.EmptyHasOneLink | sysfile.c:168-239 | the entry being removed is the only name of an empty directory |
| LinkCount.ParentStays | sysfile.c:221-224 | the parent of an empty directory has a link left when it loses that of ".." |
| LinkCount.CreateIsExact | sysfile.c:241-283 | create keeps link counts, unique names and the tree if and only if its directory is still linked and no count is at its limit |
| LinkCount.CreateOfOld | sysfile.c:251-259 | create of a name whose first entry names an inode answers with that inode if and only if a file is asked for and the inode is a regular file, and fails otherwise; nothing changes either way |
| LinkCount.CreateMakes | sysfile.c:251-263 | an inode is made exactly when the name is new and an inode is free, and it is the lowest free one |
| LinkCount.CreateNames | sysfile.c:257-282 | then the name means the new inode, with one link, a new directory has its two dots, and every other name in every directory means what it meant |
| LinkCount.CreateTwice | sysfile.c:241-283 | a second create of the name gives the inode back when both are for regular files, and fails otherwise |
| LinkCount.LinkIsExact | sysfile.c:118-165 | the same for link; a link that fails leaves every inode as it was |
| LinkCount.LinkNames | sysfile.c:118-165 | link fails exactly for a directory and for a name that is there; otherwise the name means the inode and every other name means what it meant |
| LinkCount.UnlinkKeepsCounts | sysfile.c:184-239 | unlink always keeps them; whatever the lookup finds has a link, so the panic about nlink is never met; it fails on what it finds exactly for a directory that is not empty |
| LinkCount.UnlinkNames | sysfile.c:184-239 | unlink fails exactly for a dot, a name that is not there and a directory that is not empty; otherwise the name means nothing any more and every other name means what it meant |
| LinkCount.ReapKeepsCounts | fs.c:331-352 | freeing an inode without links keeps them |
| LinkCount.CallKeepsInv | sysfile.c:118-283 | a call keeps all of this exactly when it is not one of the two exceptions |
| LinkCount.CountsHold | sysfile.c:118-283 | after every run of calls from a fresh file system, each inode's count is the number of entries naming it, "." apart, and names are unique |
| LinkCount.UnlinkedParentMiscounts | sysfile.c:257-278 | a run from a fresh file system that breaks the counts: mkdir d, unlink d, create x in d |
| LinkCount.CountOverflows | sysfile.c:118-165 | a run that makes as many links to a file as its count can hold, after which one more is made and breaks the counts |
| LinkCount.FoundIsInUse | fs.c:524-548 | while counts and tree are right dirlookup finds inodes in use only, but for the ".." of a directory that has left the tree |
| LinkCount.ParentIsGone | fs.c:524-548 | that exception happens: mkdir d, mkdir d/b, unlink d/b and unlink d from within b, and the ".." of b names a free inode |
| Directories.EntryOfEncode | fs.h:54-57 | an entry laid out in 32 bytes is read back as it was, with a name of DIRSIZ characters and no zero too |
| Directories.EntriesSpliced | fs.c:551-578 | writing 32 bytes at the place of an entry, or at the end, changes that entry or adds one, and no other |
| Directories.Dirlookup | fs.c:524-548 | on the bytes of the directory: the offset and inode of the first entry with that name as far as DIRSIZ characters, or none |
| Directories.Isdirempty | sysfile.c:168-181 | on the bytes: true exactly when there is no entry besides the first two |
| Directories.Dirlink | fs.c:551-578 | in the file's bytes the entry goes to the first empty place or the end, or -1 and no change when the name is there; the panic only when the directory is at the largest size |
| Directories.NewInode | sysfile.c:257-263 | the lowest free inode is typed, given its device numbers and linked once on the disk, or none is free; no other inode changes |
| Directories.Create | sysfile.c:241-283 | what the inodes and directories on the disk spell out goes to the table that create is to give; an existing name is answered with the inode that its first entry in the bytes names if and only if that is a regular file and one is asked for, and nothing changes; a new inode has the type and the device numbers asked for; no other file loses a byte; a panic only for want of a block or of room in the directory, or on a name of a free inode |
| Directories.Link | sysfile.c:118-165 | the same for sys_link; no file changes but for a count, and a link that fails leaves everything as it was |
| Directories.Unlink | sysfile.c:184-239 | the same for sys_unlink; no file changes but for a count |
| Directories.Drop | fs.c:331-352 | the last iput of an inode without links takes it out of the table and leaves every other inode, and any other iput changes nothing |
| Sysfile.Serve | sysfile.c:118-283 | while the counts on the disk are right, a call either carries out what it is to do, and does nothing to any other file, or panics on a full disk, a full directory, without a free inode, or when it creates ".." in a removed directory; unlink never meets an inode without links |
| Sysfile.WriteData | fs.c:481-511 | writing to a regular file splices the bytes into its content, or is refused and changes nothing; no name, no count and no other file changes |
| Sysfile.Step | sysfile.c:118-283 | after a call that returns the counts on the disk are right exactly when it is not one of the two exceptions |
| Sysfile.Run | sysfile.c:118-283 | over every run of such calls and writes, each call has made the next disk of the one before as it is to, and at every moment between two calls the bitmap is what the inodes own and the counts are those of the entries in the directories' bytes |
| Sysfile.NamesSurviveCrashes | log.c:8-24 | when such a run is cut off by a crash at any moment of any interleaving with commits and readers, recovery leaves a disk where all of this holds, and it is one from between two calls |
| Mkfs.MakeRoot | mkfs.c:117-128 | on a disk without files, inode 1 becomes a directory with the two dots and one link |
| Mkfs.Format | mkfs.c:94-128 | the disk with that root has sound blocks, right counts, and is one from which every run of calls can start |
| Mkfs.PaddingIsExact | mkfs.c:158-163 | after the root's size has been rounded up the image is sound if and only if the old size was not a whole number of blocks |
| FreeList.InsertKeepsOrder | umalloc.c:24-44 | the list stays ordered and without adjacent blocks, whichever neighbours are merged |
| FreeList.InsertCovers | umalloc.c:24-44 | the free units are the old ones and those of the freed block |
| FreeList.TakeKeepsOrder | umalloc.c:76-83 | unlinking or cutting a block keeps the order, and the taken part is apart from the rest |
| FreeList.TakeCovers | umalloc.c:76-83 | the free units are the old ones without those taken |
| FreeList.CoverDeterminesList | umalloc.c:24-44 | two such lists with the same free units are the same list |
| Malloc.FreeKeepsHeap | umalloc.c:24-44 | free's pointer stores, at any place of the ring, give the ring of the merged list with blocks in use still apart |
| Malloc.FreeConserves | umalloc.c:24-44 | granted units are free or in use before and after free |
| Malloc.TakeKeepsHeap | umalloc.c:76-83 | the same ring and separation for malloc's stores |
| Malloc.TakeConserves | umalloc.c:76-83 | granted units are free or in use before and after |
| Malloc.UnitsSuffice | umalloc.c:69 | the block has room for the request if and only if the request is at most 2^32 - 8 bytes, and it wastes less than a unit |
| Malloc.FreeIsTheRest | umalloc.c:24-90 | a unit is free exactly when it was granted and no block in use has it |
| Malloc.HistoryDoesNotMatter | umalloc.c:24-90 | two heaps with the same grants and the same blocks in use have the same free list, whatever order of calls led there |
| Malloc.Heap.FindPlace | umalloc.c:30-32 | free's search ends from any start, at the one block behind which the freed block belongs |
| Malloc.Heap.Free | umalloc.c:24-44 | the block leaves those in use and its units become free; all other blocks and free units stay |
| Malloc.Heap.Scan | umalloc.c:74-86 | the first block from freep on that is large enough, or none exactly when every block is too small |
| Malloc.Heap.Carve | umalloc.c:76-84 | a new block of the asked size at the found block's upper end, disjoint from every other |
| Malloc.Heap.Morecore | umalloc.c:46-61 | it fails only when sbrk does; otherwise the region joins the free list and the request fits |
| Malloc.Heap.TakeFit | umalloc.c:74-86 | a block is taken exactly when one fits |
| Malloc.Heap.GrowAndTake | umalloc.c:86-89 | after one call of morecore the walk finds a block |
| Malloc.Heap.Malloc | umalloc.c:63-90 | a new block apart from all in use, or null exactly when none fits and sbrk fails; at most one call of morecore, and one only when none fits |
| PageState.NoSharing | vm.c:35-80 | no frame is mapped at two places of one or two directories, and none is free, a directory or a page table |
| PageState.StoreIsLocal | vm.c:73 | storing a page table entry changes what is mapped at one place of one directory |
| PageState.NewTable | vm.c:45-52 | a zeroed page hung in a directory changes no mapping anywhere |
| PageState.MapUser | vm.c:60-80 | an unused page mapped at an empty place has that place as its one owner |
| PageState.UnmapUser | vm.c:269-276 | the frame behind an entry is owned by that place, and is free afterwards |
| PageState.GrewKeepsOthers | vm.c:35-80 | growing one directory leaves every mapping of every other |
| PageState.Retire | vm.c:283-298 | freeing the tables of an emptied directory leaves it owning nothing |
| Vm.SkipAdvances | vm.c:267-268 | the skip of an absent page table moves on, to the start of the next directory entry, exactly when the page is not under the last directory entry |
| Vm.KernelPtes | vm.c:105-136 | the rows of kmap, in order, spell out the kernel's map page by page |
| Vm.TornDown | vm.c:129-134 | a directory that was begun and freed again leaves every page with its former owner |
| Vm.Unwound | vm.c:235-246 | deallocating what an unfinished allocation mapped gives back all but its page tables |
| Vm.Machine.Kalloc | kalloc.c:82-95 | the first free page, or null exactly when there is none |
| Vm.Machine.Kfree | kalloc.c:59-77 | the page becomes the first free one, and its old contents are gone |
| Vm.Machine.Freerange | kalloc.c:46-53 | exactly the whole pages between the two addresses become free |
| Vm.Machine.Walkpgdir | vm.c:35-55 | the entry's place; null exactly when there is no table and none is wanted or no page is left; no mapping changes |
| Vm.Machine.Mappages | vm.c:60-80 | exactly the range is mapped, in order; on failure a prefix is, and memory is exhausted |
| Vm.Machine.Deallocuvm | vm.c:255-279 | exactly the frames of the range become free and unmapped, whatever holes it has; other directories stay |
| Vm.Machine.Freevm | vm.c:283-298 | every page the directory owned becomes free, once, and every other keeps its owner and contents |
| Vm.Machine.Setupkvm | vm.c:118-136 | a new directory with exactly the kernel's mappings; it fails exactly when a page is refused, and every owner is then as before |
| Vm.Machine.Allocuvm | vm.c:221-249 | zeroed writable user frames for exactly the new pages; it fails exactly when a page is refused, and every mapping is then as before |
| Vm.Machine.Copyuvm | vm.c:315-345 | fresh frames with equal bytes and flags for every page; it fails exactly when a page is refused, and the free set is then restored |
| ProcTable.PTable.Wakeup1 | proc.c:457-465 | exactly the processes asleep on the channel become runnable |
| ProcTable.PTable.PassChildren | proc.c:255-262 | exactly the exiting process's children go to init, which is woken if one of them is a zombie |
| ProcTable.PTable.ScanChildren | proc.c:281-301 | the first zombie child, and whether there is any child |
| ProcTable.PTable.FindSlot | proc.c:81-90 | the first unused entry becomes an embryo with the next pid; no other entry changes |
| ProcTable.PTable.KillPid | proc.c:479-497 | exactly the first entry with the pid is marked, and woken if asleep |
| Scheduling.StepKeepsInv | proc.c:180-497 | every statement of any CPU keeps the invariant of processes, CPUs and ptable.lock |
| Scheduling.InvHolds | proc.c:322-468 | the invariant after every schedule, from the state that userinit leaves |
| Scheduling.RunningIsOnOneCpu | proc.c:322-392 | no process is on two CPUs, and when ptable.lock is free a process is RUNNING exactly when one CPU has it and executes on its stack |
| Scheduling.StackIsNotFreedUnderCpu | proc.c:227-312 | the stack a CPU executes on is never freed, and a zombie never runs again |
| Scheduling.EveryProcessHasLivingParent | proc.c:180-268 | every process but init has a parent that is neither dead nor a zombie and has a lower pid, and the parent links lead to init |
| Scheduling.NoZombieUnderSleepingParent | proc.c:227-312 | a parent is never asleep in wait, nor on the way there, with a zombie child |
| Scheduling.InitLives | proc.c:120-154 | init is never a zombie |
| Lifecycle.WaitingHasChild | proc.c:272-312 | whoever sleeps in wait, or is on the way there, has a child, has not been killed, and each of its children is alive or being made |
| Lifecycle.WaitDecides | proc.c:277-310 | the scan of wait reaps if and only if some child is a zombie, and returns -1 if and only if none is and the process has no child or has been killed |
| Lifecycle.ReapEmpties | proc.c:285-299 | the reaped child leaves its entry as one that was never used, and no other entry changes |
| Lifecycle.EmbryoHasMaker | proc.c:73-118 | no entry is lost in fork: a living process is filling it in |
| Lifecycle.ForkEnds | proc.c:180-222 | fork ends with a runnable child with a stack and a pid of its own, or with its entry unused again |
| Lifecycle.PidsAreUnique | proc.c:87-90 | in every run no two processes have the same pid |
| Lifecycle.KillIsExact | proc.c:479-497 | kill marks exactly the process with the pid, and it is then not asleep |
| Lifecycle.WakeupIsExact | proc.c:457-474 | wakeup makes runnable exactly those who sleep on the channel |
| Lifecycle.ExitIsForGood | proc.c:227-268 | who has called exit goes nowhere else until its entry is reaped |
| Lifecycle.RoundRobin | proc.c:322-356 | a CPU in scheduler takes the next runnable process in the order of the table, or lets go of the lock when there is none |
| ProcessCalls.SleepSleeps | proc.c:417-454 | what sleep comes to undisturbed: asleep on its channel, off the CPU, nothing else changed |
| ProcessCalls.YieldYields | proc.c:385-392 | yield: runnable, off the CPU, to go on where it was |
| ProcessCalls.WakeupWakes | proc.c:468-474 | wakeup: all sleepers on the channel runnable, nothing else changed |
| ProcessCalls.KillKills | proc.c:479-497 | kill: the process with the pid marked and not asleep |
| ProcessCalls.ExitExits | proc.c:227-268 | exit: a zombie off the CPU; every child with init; the parent, and init if it gets a zombie, woken from wait; every other process as it was |
| ProcessCalls.WaitReturns | proc.c:304-307 | wait without a zombie child, and without any child or killed: nothing changes |
| ProcessCalls.WaitSleeps | proc.c:309-310 | wait with children none of which is a zombie: asleep on itself, off the CPU |
| ProcessCalls.WaitReaps | proc.c:281-301 | wait with a zombie child: the first one's entry is unused again |
| ProcessCalls.ForkForks | proc.c:180-222 | fork with memory and an unused entry: the first such entry is a runnable child with the next pid and a stack |
| ProcessCalls.ForkFindsNone | proc.c:80-86 | fork with every entry in use: nothing changes |
| Pipe.PipeBuffer.PipewriteRun | pipe.c:77-98 | from lock to sleep or return: as many bytes as the ring takes; it fails exactly when bytes are left and the reader has gone or it was killed, and only then wakes nobody |
| Pipe.PipeBuffer.PipereadRun | pipe.c:100-121 | it sleeps exactly on an empty pipe with a writer left; otherwise it takes what is there up to n |
| Pipe.WrapKeepsSlot | pipe.c:93-94 | the slot of a counter survives its wrap at 32 bits |
| Pipe.FillKeeps | pipe.c:84-94 | the bytes stored are the next ones of the caller's, as many as 512 allows |
| Pipe.DrainKeeps | pipe.c:113-117 | the bytes taken are the oldest in the pipe, as many as there are or are asked for |
| Pipe.FirstInFirstOut | pipe.c:77-121 | in every run what was read is a prefix of what was written, at most 512 bytes behind |
| Pipe.CallsStoreInOrder | pipe.c:78-98 | in every run, whoever else reads and writes: a call of pipewrite under way has stored the bytes before i, in order; one that returned n has stored all of its bytes, and one that failed a beginning of them |
| Pipe.WriterTurn | pipe.c:78-98 | a turn of a writer stores the next bytes as far as there is room, and returns, fails or sleeps to go on behind them |
| Pipe.ReaderTurn | pipe.c:100-121 | a turn of a reader sleeps, fails or returns the oldest bytes, as many as there are up to n |
| Pipe.OneWriterInOrder | pipe.c:78-98 | with one writer, what was stored is the concatenation of its calls' bytes, with a beginning for each that failed and for the one under way |
| Pipe.SleepersKept | pipe.c:77-121 | a step leaves sleeping readers on an empty pipe and sleeping writers on a full one if and only if it is not a killed writer overfilling the pipe of a sleeping reader |
| Pipe.NeverBothAsleep | pipe.c:77-121 | without kill, a sleeping reader means an empty pipe and no sleeping writer |
| Pipe.KillStrandsReader | pipe.c:85-89 | with a kill, a run in which a reader sleeps on a pipe with data |
| ShellSyntax.GetToken | sh.c:295-339 | a token starts and ends inside the text and is not empty unless the text has ended |
| ShellSyntax.TokenIsWhole | sh.c:326-330 | a word token is followed by a space, a symbol or the end |
| ShellSyntax.LineIsParsed | sh.c:375-392 | every argument and file name of an accepted tree is a whole word of the text, with at most MAXARGS - 1 to a command |
| ShellRoundTrip.LineSeesTokens | sh.c:375-392 | the parser depends on the text through its tokens only |
| ShellRoundTrip.LexUndoesRender | sh.c:295-339 | tokens that are written out are read back |
| ShellGrammar.LineReads | sh.c:375-483 | on the tokens of any tree of the grammar the parser gives its meaning and stops behind it |
| ShellGrammar.LineComes | sh.c:375-483 | whatever the parser accepts is such a tree, with the meaning that it gives |
| ShellGrammar.AcceptsTheGrammar | sh.c:357-373 | parsecmd gives a command for a text if and only if the text spells a tree of the grammar that means it, and it panics exactly when the text spells none |
| ShellGrammar.Unambiguous | sh.c:375-483 | texts with the same tokens mean the same |
| ShellGrammar.ParseUndoesWriting | sh.c:408-483 | any tree written out, with > or >> and with redirections before, among or behind the words, is read as the command that it means |
| ShellGrammar.RedirectAnywhere | sh.c:408-433 | a redirection at any place of a simple command is one more redirection and changes no argument; >> opens what > opens |
| ShellGrammar.ParseUndoesPrint | sh.c:357-373 | parsing the printed form of any well-formed command gives it back, with no leftovers |
| ShellGrammar.AcceptedIsWellFormed | sh.c:357-483 | the well-formed commands are exactly those that some text makes the parser return |
| ShellParser.Parser.Gettoken | sh.c:295-339 | the cursor code reads the specified token and moves behind it and the spaces |
| ShellParser.Parser.Peek | sh.c:341-350 | true exactly when the next character that is no space is one of those asked for |
| ShellParser.Parser.Parseredirs | sh.c:408-433 | the cursor code follows the specified parser, whose meaning is that of the grammar, errors included |
| ShellParser.Parser.Parseexec | sh.c:451-483 | the same |
| ShellParser.Parser.Parseargs | sh.c:465-482 | the same for the loop that fills the argument arrays, which stay in bounds |
| ShellParser.Parser.Parseblock | sh.c:435-449 | the same |
| ShellParser.Parser.Parsepipe | sh.c:394-406 | the same |
| ShellParser.Parser.Parseline | sh.c:375-392 | the same; the recursion ends on every text |
| ShellParser.Parser.Parsecmd | sh.c:357-370 | a command, or an error exactly when the grammar has one or something is left over |
| ShellParser.Nulterminate | sh.c:486-531 | exactly the characters at the ends of words become zero bytes |
| ShellParser.WordsSurvive | sh.c:486-531 | afterwards every word pointer is the C string that its slice spelled before |
| ShellParser.ParseBuffer | sh.c:357-373 | the whole of parsecmd on a buffer: every argv and file string is intact, and on an error the buffer is as it was |
| Grep.MatchText | grep.c:72-82 | the do-while loop is the search over every suffix, the empty one included |
| Grep.MatchHereAt | grep.c:84-96 | the pointer code is the matcher on the two rests |
| Grep.MatchStarAt | grep.c:98-106 | the same for a starred character |
| Grep.HereIsHit | grep.c:84-96 | matchhere answers whether some prefix of the text is in the language of the pattern |
| Grep.StarIsHit | grep.c:98-106 | the same for a starred item followed by a pattern |
| Grep.MatchIsExact | grep.c:72-106 | for every pattern and text match is 1 exactly when a substring, anchored by a leading ^ or a final $, is in the pattern's language |
| WindowManager.MessageQueue.Clear | window_manager.c:121-124 | the ring is empty |
| WindowManager.MessageQueue.Dispatch | window_manager.c:126-135 | the message goes to the end, or a full ring stays as it is |
| WindowManager.MessageQueue.Get | window_manager.c:138-150 | the oldest message leaves, or the ring is empty |
| WindowManager.Append | window_manager.c:102-109 | the stores link a window behind the last |
| WindowManager.Remove | window_manager.c:111-119 | the stores spell the list without the window, if the two ends are moved as needed |
| WindowManager.LoopSpellsNothing | window_manager.c:111-119 | a head that is linked to itself is the start of no list |
| WindowManager.Windows.FindNextAvailableWindowId | window_manager.c:90-100 | the lowest free place, or -1 exactly when all are used |
| WindowManager.Windows.AddToWindowList | window_manager.c:102-109 | the window comes last, all others stay in order |
| WindowManager.Windows.FocusWindow | window_manager.c:220-238 | the window moves to the end and the others keep their order |
| WindowManager.Windows.CreateWindow | window_manager.c:592-652 | the lowest free place is appended with an empty ring, placed as asked or in the middle, and no other window changes; or there is none and nothing changes; the first window is the desktop |
| WindowManager.PlacedOnScreen | window_manager.c:617-632 | a window no larger than the screen is placed on it, whatever position it asks for |
| WindowManager.PlacedAsAsked | window_manager.c:617-632 | a window that asks for a place of its own size on the screen gets exactly it, and any other is put in the middle |
| WindowManager.PressedIsPainted | window_manager.c:390-405 | a press on the title bar does what the box painted under the mouse stands for, if and only if it is off six columns beside the boxes |
| WindowManager.Windows.CloseWindow | window_manager.c:705-728 | the window's ring is emptied; for a window that is not the head, the list without it; for the head, links that match no list |
| WindowManager.Windows.MinimizeWindow | window_manager.c:730-746 | the window is marked, and if it was in front the one behind it comes to the front |
| WindowManager.Windows.FocusTopmost | window_manager.c:375-387 | the topmost window under the pointer that is not minimised comes to the front, and the desktop when there is none |
| WindowManager.Windows.MouseDown | window_manager.c:362-420 | a press on the popup changes no window; any other one does the above, closes the popup, and puts into that window's ring, and no other, the messages its place calls for |
| TextCursor.GetMouseX | user_handler.c:56-82 | the column of an offset |
| TextCursor.GetMouseY | user_handler.c:84-110 | the row of an offset |
| TextCursor.RowsAreFilled | user_handler.c:56-110 | from the start of a line on, the character after row times (width + 1) plus column others stands at that column and row |
| TextCursor.GetInputOffset | user_handler.c:10-54 | the character that stands at the row and column; else the last one of the row unless it is the first of all; else the end; a row above the text means the start |
| TextCursor.OffsetRoundTrip | user_handler.c:10-110 | from an offset to its row and column and back is the identity for every offset below the length |
| TextCursor.EndRoundTrip | user_handler.c:49-53 | from the end back: the length exactly when the last character is in another row or there is at most one, and the last character otherwise |
| TextCursor.OffsetIsUnique | user_handler.c:10-54 | a row and column mean one offset |
| TextCursor.CursorWalk | user_window.c:597-630 | the cursor is drawn at (9 column, 18 row) while its row is within the field, and is drawn at all exactly then |
| TextCursor.InputField.KeyHandler | user_handler.c:153-198 | insertion and deletion at the cursor, arrows, and up and down as a click one row away; no other key changes anything |
| TextCursor.InputField.TypeAndErase | user_handler.c:153-198 | typing a character and erasing it changes nothing |

## Left out

Log and buffers
- Log.Log.Commit: it runs without a pause here, while others hold what they hold; a block that it must copy is locked by nobody and a buffer is left for it, since it would otherwise wait or panic. `GroupCommit` has commit take turns with everybody else, waiting and panicking included.
- Log.Log.WriteLog: the same.
- Log.Log.WriteHead: the same.
- Log.Log.InstallTrans: the same.
- Log.Log.EndOp: the same, when it commits.
- Log.Log.Bread: it waits for the buffer's lock in the source, and is modelled from when nobody has it.
- Log.Log.UpdateBlock: the same, and its operation is within its budget, so that `log_write` does not panic; `Log.Log.LogWrite` has the panics.
- BufferCache.Cache.Lock: it waits in the source, and is modelled from when nobody has the lock.
- BufferCache.Cache.Bread: it waits for the buffer's lock in the source, and is modelled from when nobody has it; `Reserve` is the part before.
- A buffer's sleep lock is a flag here; the lock itself is the subject of `SleepLock`. Which of the buffers that may be recycled is taken is left open in `GroupCommit` and is the least recently used one in `BufferCache`.
- One block write is atomic, as in `memide.c`; the unlocked reads of `log.outstanding` count as one step.

Files and directories
- The inode cache (`iget`, `ilock`) is not modelled but for the number of references that `iput` looks at, nor is the walk along a path (`skipelem`, `namex`).
- FileSystem.FileSystem.Writei: the branch for devices is left out.
- FileSystem.FileSystem.Readi: the branch for devices is left out.
- FileWrite.File.WriteChunk: the transaction is the record of what the chunk logs; the inode lock, `begin_op` and `end_op` are the subjects of `SleepLock` and `Log`.
- FileWrite.File.Filewrite: the test of `writable`, the pipe branch, and other writers between two chunks are left out.
- FileConsistency.CallsSurviveCrashes: the calls run one at a time, or so that what is logged between them is the same; that inode locks make concurrent calls serial is not modelled.
- Sysfile.NamesSurviveCrashes: the same; how the blocks of a call are spread over its log_writes is left open but for the last write of each.
- Directories.Create: the directory and the last element of the path are given, and an entry that the lookup finds is below the number of inodes.
- Directories.Unlink: the same.
- Sysfile.Run: it stops before a call that is one of the two exceptions, since the counts are wrong after it.
- Mkfs.MakeRoot: the bytes are written by the kernel's `writei`; `iappend` is not modelled, nor are the files that mkfs copies.
- Mkfs.PaddingIsExact: that mkfs has given the root blocks for its bytes only, and zeros behind them, is its condition.
- Each of create, link and unlink is one atomic step, which is what the log makes of it; looking up the paths is left out.

Processes
- SleepLock.NoLostWakeup: a process that is preempted is one that takes no step for a while; fairness is not modelled, so this says that a wakeup is under way and not when it comes.
- Scheduling.StepKeepsInv: a loop over the table is one statement, since it runs under ptable.lock; each loop is proved on its own in `ProcTable`. Other locks given up in sleep, interrupt counts, files and memory of a process, and pid wrap-around are left out.
- Lifecycle.ForkEnds: the pid that fork and wait return is left out, and so are the open files and the name of a process.
- ProcessCalls.ForkForks: both allocations succeed; the other ends of fork are in `Lifecycle.ForkEnds`.
- That init never exits is a condition on schedules, as it is a panic in the source.

Memory
- Vm.Machine.Copyuvm: the parent's pages below the size must be present; the source's two panics are its precondition. `inituvm`, `loaduvm`, `clearpteu`, `uva2ka`, `copyout`, `kmem.lock` and the accessed and dirty bits are left out.
- A word is a page number and 12 flags, and kernel pointers are physical page numbers.
- Malloc.Heap.Malloc: `sbrk` is a parameter that gives memory above all earlier memory, or fails; the overflow of its byte count for requests of 2^31 bytes or more, and calls to `sbrk` from elsewhere, are left out.

Pipes, shell, grep
- What a process does on a pipe from taking `p->lock` to sleeping or returning is one step; `sleep` and `wakeup` are atomic there. An end is not closed while a call is using it.
- The nodes of a command are values, so the arrays of an exec node are filled before redirections are wrapped round it; running commands is left out.
- The buffering of lines in `grep` is left out.

Windows
- Drawing, dragging, the dock, clicks other than the press, and the creation of popups are left out. In `Windows` a ring is the sequence of its messages; `MessageQueue` is the ring itself.
- WindowManager.Windows.CreateWindow: the title and the window's drawing buffer are left out.
- WindowManager.Windows.CloseWindow: clearing the title is left out.
- TextCursor.InputField.KeyHandler: a text that fills its buffer is excluded, since the source writes past it.
- TextCursor.InputField.TypeAndErase: the same.
- `removeFromWidgetList` and the widgets of a window are left out.

Hardware, booting, traps, `exec.c`, `console.c`, system-call dispatch and the applications are not part of this model.
