# Proofs about the xv6 kernel of CS333

A Dafny model of the storage stack, the scheduler, the allocators, pipes, the
shell's parser and grep's matcher of this xv6, built as `CS333_PROJECT=5`
builds it (the `CS333_P3P4` and `CS333_P5` branches), and proofs of what they
promise.  `dafny verify dfyconfig.toml` checks all of it.

| files | what they model |
|---|---|
| RedoLog, LogProtocol, LogPanics, LogDriver | the redo log: block writes and crashes, concurrent operations, when it panics, the code of log.c |
| BufferCache, Ide | the buffer cache over a block map, the disk queue against the synchronous driver |
| Bitmap, Inode, FileWrite | block allocation, block maps, reading, writing and truncating files, chunked writes |
| Durability | the files under the log: what every recovered disk keeps |
| LinkCount, Paths, Sysfile | directories, link counts, path elements, link, unlink and create |
| StateLists, Scheduler, Accounts, Misplaced, ProcTable, BootRuns | the linked state lists, what the operations do to them, time and identifiers over runs, a process on a wrong list, the code of proc.c, runs from boot |
| Umalloc | the user-level allocator |
| Vm, Growth | the page allocator and two-level page tables, growing and shrinking a process |
| Pipe | the pipe protocol and its ring buffer |
| ShellGrammar, Shell | the shell's grammar and its parser |
| Grep | the pattern matcher |
| Params, Sequences, CStrings | sizes and notions that several of them share |

Code that updates things in place is a class whose fields are those of the
source; pointers are indices.  A panic is an out-parameter or a result, so a
contract can say exactly when it happens.  Disks and files are sequences of
blocks and bytes, and one block write is atomic.

Some properties one would expect do not hold of the code.  Each has a lemma
that says exactly when it holds and one that shows it fail:

- Operations that stay within the MAXOPBLOCKS blocks `begin_op` reserves for
  them can still make the log panic.  With the log and the cache as built,
  panics in `log_write` and in the copy to the log are unreachable exactly if
  twice the blocks an operation may log plus the buffers held by others, such
  as readers, who need no `begin_op`, stay below twice MAXOPBLOCKS
  (`LogPanics.AsBuilt`); for any sizes see `LogPanics.PanicFreeIff`, with the
  failing runs in `LogPanics.CrampedPanics`, `LogPanics.PeakReached` and
  `LogPanics.ReadersStopCommit`.  A block logged again costs no room, but
  `log_write` asks for it before it looks.
- `log_write` looks for room before it takes the lock, so two calls can both
  find the last place and one of them writes behind the end of the log
  (`LogPanics.OverrunFreeIff`, `LogPanics.OverrunReached`).  Group commit is
  proved for all runs short of that.
- A chunk of `filewrite` can log more blocks than that: `FileWrite.ChunkLogCount`
  gives the number, `FileWrite.ChunkWithinIff` the largest chunk that would fit,
  `FileWrite.FirstChunk` one that does not.
- `kill` of the first sleeper puts it on level 0 whatever its priority
  (`Scheduler.KillInvIff`).  Nothing takes it away again, `setpriority`
  included, and the kernel panics at the latest when the scheduler comes to it
  (`Misplaced.UnsafeKillStops`, `BootRuns.KillPanicsAfterBoot`).
- `wakeup1` wakes one sleeper only (`Scheduler.WakeupAgreesIff`,
  `BootRuns.SecondSleeperAfterBoot`); `exit` leaves children behind when there
  are zombies and several children (`Scheduler.ReparentsAllIff`,
  `BootRuns.ChildLeftAfterBoot`).
- `malloc` can give a block that is too small or not in the memory of the
  process: the rounding wraps, or `sbrk`, which takes an int, is asked for
  nothing or for less than nothing, or a page of the heap was lost.
  `Umalloc.Heap.Malloc` has the exact condition, `Umalloc.HugeRequest`,
  `Umalloc.PhantomBlock` and `Umalloc.LostBlockReused` the sizes.
- A killed writer can leave a reader asleep beside a full pipe
  (`Pipe.RunSafeIff`, `Pipe.StrandedReader`).
- `deallocuvm` can jump over present pages of a sparse space
  (`Vm.DeallocExactIff`, `Vm.SparseSpaceMissed`).  No process has such a space
  unless `allocuvm` lost pages of it (`Growth.ImageNothingMissed`,
  `Growth.Growproc`); after enough losses one can (`Growth.OnePageLost`,
  `Growth.LostRegionMissed`).
- `allocuvm` can report success with its last page unmapped
  (`Vm.LastPageUnmappedIff`, `Vm.LastPageLost`); when a process that lost a page
  so forks, the kernel panics unless memory runs out first
  (`Growth.PresentIff`, `Vm.Kernel.CopyUvm`).
- A directory made in an unlinked directory spoils a link count at once
  (`Sysfile.System.Create`, `Sysfile.OrphanShown`), and a file named there when
  the directory is released (`LinkCount.ReleaseCountsIff`,
  `Sysfile.LostFileShown`).

Link counts are 16-bit numbers on disk; `Sysfile.System.SysLink` and
`Sysfile.System.Create` say exactly when they still fit.

## Model

| member | source | states |
|---|---|---|
| RedoLog.PutHead | log.c:100-112 | The header block that is written holds the count and the block numbers, and reading the header gives exactly them back. |
| RedoLog.CommitWrites | log.c:174-199 | The block writes of a commit: how many they are, which one is the i-th, and that all fall on the disk. |
| RedoLog.CommitPrefix | log.c:174-199 | After any number k of those writes the disk is in the state described for k: which log slots, header and home blocks hold what. |
| RedoLog.CommitStateDenotes | log.c:189-199 | Up to the header write the disk stands for the contents before the transaction, from it on for the contents after it; log empty at both ends. |
| RedoLog.RecoveryWrites | log.c:68-81 | The block writes of a recovery: one per logged block, then the emptied header, all on the disk. |
| RedoLog.RecoveryPrefix | log.c:114-121 | After any number of those writes the log and the home blocks are as described; the header is cleared only by the last. |
| RedoLog.RecoveryStateDenotes | log.c:114-121 | A recovery stopped anywhere leaves a disk that stands for the same contents as before. |
| RedoLog.Interrupted | log.c:114-121 | Any number of recoveries, each stopped anywhere, keep what the disk stands for. |
| RedoLog.RecoveredIs | log.c:114-121 | One completed recovery puts in place what the disk stands for and empties the log. |
| RedoLog.DenotesUnique | log.c:68-81 | A disk with its log stands for one file system content only. |
| RedoLog.CrashAtomicity | log.c:174-199 | Stop a commit after any block write, then any number of recoveries after any block write each: one completed recovery leaves all home blocks as before the transaction, or all as after it, and the latter exactly if the header write had landed. |
| LogProtocol.Absorb | log.c:220-227 | Logging a block twice keeps one slot for it: the set of logged blocks grows by that block only. |
| LogProtocol.BeginKeeps | log.c:124-140 | begin_op keeps the whole invariant (disk, cache, operations, history). |
| LogProtocol.LogWriteKeeps | log.c:215-218 | The tests of log_write, made before it takes the lock, keep it: the call then waits for the lock while others go on. |
| LogProtocol.AppendKeeps | log.c:220-229 | So does the rest of log_write, whatever happened in between, however often an operation calls it. |
| LogProtocol.EndKeeps | log.c:144-171 | end_op keeps it, also when it starts the commit. |
| LogProtocol.CommitWriteKeeps | log.c:174-199 | Every single block write of a commit keeps it; the header write makes the group committed. |
| LogProtocol.CrashKeeps | log.c:114-121 | A crash at any moment keeps it. |
| LogProtocol.RecoveryWriteKeeps | log.c:114-121 | Every single block write of a recovery keeps it. |
| LogProtocol.StepKeeps | log.c:124-230 | Every event of every interleaving, also between the tests of a log_write and its append, keeps the invariant short of a panic or an overrun of the log; operations of any length. |
| LogProtocol.StepExtends | log.c:144-171 | Committed groups stay committed; only a crash loses operations. |
| LogProtocol.Run | log.c:124-230 | Every finite run without a panic or an overrun ends in a state with the invariant, with the same initial disk and at least the groups committed before. |
| LogProtocol.GroupCommit | log.c:124-199 | In every run without an overrun of the log, with crashes anywhere and any number of log_writes per operation: the recovered disk is the initial disk plus whole commit groups in order; groups are disjoint and hold all log_writes of their operations; outstanding counts the live operations; no operation is live during a commit; the header on disk is empty outside one. |
| LogPanics.StepReserved | log.c:131-137 | What begin_op admits keeps a bound: logged blocks, plus what the calls under way may still append, plus what the live operations may still spend, stay within MAXOPBLOCKS + 2m, if no operation spends more than m calls (or m different blocks). |
| LogPanics.StepCannotPanic | log.c:210-218 | Under that bound and with room for it no event panics. |
| LogPanics.StepCannotOverrun | log.c:220-227 | ... and no append finds the log full, although its test was made earlier. |
| LogPanics.NeverPanics | log.c:124-230 | Nor does any run panic. |
| LogPanics.NeverOverruns | log.c:124-230 | No run puts a block behind the end of the log, and no commit starts with more blocks than the bound. |
| LogPanics.CrampedPanics | log.c:215-216 | Without that room some run of admitted operations, each within its m, reaches "too big a transaction". |
| LogPanics.PeakReached | log.c:144-171 | With it some run commits exactly as many blocks as the bound. |
| LogPanics.CopyPanicsIff | log.c:174-187 | At every block of the copy to the log: its read finds no buffer if and only if the blocks of the commit and the buffers held by others, such as readers outside the log, are NBUF or more together. |
| LogPanics.PanicFreeIff | log.c:124-230 | With up to `held` buffers held by others: no run of operations spending at most m each panics in log.c, overruns the log, or starts a commit whose copy finds no buffer, if and only if the log takes MAXOPBLOCKS + 2m blocks (one more when blocks may be logged again) and MAXOPBLOCKS + 2m + held is less than nbuf. |
| LogPanics.AsBuilt | mkfs.c:25-25 | With LOGSIZE log blocks and NBUF buffers as built: no such panic if and only if 2m + held is less than 2 MAXOPBLOCKS, for m counted per call or per block. |
| LogPanics.OverrunReached | log.c:215-227 | Without room for the bound some run of admitted operations, each within its m, has two log_write calls that both find the last place free, and the second appends behind the end of the log. |
| LogPanics.OverrunFreeIff | log.c:215-227 | No run of operations spending at most m each overruns the log if and only if it takes MAXOPBLOCKS + 2m blocks, or none at all. |
| LogPanics.AsBuiltOverrun | mkfs.c:25-25 | With the log as built: if and only if they spend less than the MAXOPBLOCKS that begin_op reserves. |
| LogPanics.OverrunHits | mkfs.c:101-102 | The log copy of such a block would go to the first block behind the log, which as built is an inode block. |
| LogPanics.ReadersStopCommit | file.c:96-112 | Operations of nine blocks each, and a run of them to a commit of 28 blocks; with two buffers held by readers, who need no begin_op, the copy to the log finds no buffer. |
| LogDriver.CommitStages | log.c:189-199 | write_log, write_head, install_trans and write_head one after the other issue exactly the writes of CommitWrites. |
| LogDriver.CommitSyncs | log.c:189-199 | After a whole commit cache and disk agree on every block and the log is empty. |
| LogDriver.RecoveryStages | log.c:114-121 | install_trans and the header write are exactly the writes of RecoveryWrites. |
| LogDriver.Log.WriteHead | log.c:100-112 | Word by word, the loop writes PutHead of the cached header: one block write. |
| LogDriver.Log.ReadHead | log.c:84-95 | The loop loads exactly the block numbers in the header block. |
| LogDriver.Log.WriteLog | log.c:174-187 | Block writes, cache and disk after copying the logged blocks to the log. |
| LogDriver.Log.InstallTrans | log.c:68-81 | Block writes, cache and disk after copying the log home. |
| LogDriver.Log.Commit | log.c:189-199 | commit() issues exactly CommitWrites, empties the log and leaves the home blocks of disk and cache equal to the cache before. |
| LogDriver.Log.RecoverFromLog | log.c:114-121 | recover_from_log() issues exactly RecoveryWrites. |
| LogDriver.Log.BeginOp | log.c:124-140 | Admits the caller if and only if no commit runs and the reservation fits. |
| LogDriver.Log.LogWrite | log.c:210-230 | Panics exactly under the three tests; otherwise absorbs the block and keeps unlogged blocks equal to the disk. |
| LogDriver.Log.EndOp | log.c:144-171 | Panics exactly when committing; the last operation commits everything logged, the others change no block. |
| BufferCache.Unlink | bio.c:128-135 | Taking a buffer out of the circular list leaves the ring of the others, in order. |
| BufferCache.PushFront | bio.c:45-56 | Putting a buffer behind the head leaves a ring with it first. |
| BufferCache.OnRing | bio.c:30-37 | A ring of NBUF distinct buffers holds every buffer. |
| BufferCache.Recycle | bio.c:83-95 | Reusing a clean unused buffer for a block no buffer holds loses nothing of the block map. |
| BufferCache.Transfer | memide.c:37-59 | A transfer in either direction keeps the block map and makes disk and map agree on that block. |
| BufferCache.Cache.constructor | bio.c:38-57 | binit(): a ring of all buffers, none in use, over the given disk. |
| BufferCache.Cache.Find | bio.c:71-81 | The forward walk finds the buffer of the block if there is one, and only then. |
| BufferCache.Cache.FindIdle | bio.c:86-94 | The backward walk finds the least recently used buffer that is neither busy nor dirty. |
| BufferCache.Cache.Bget | bio.c:62-96 | bget(): sleeps if and only if the buffer of the block is busy, panics if and only if the block has no buffer and all are busy or dirty; else takes the buffer of the block, or if there is none the least recently used clean unused one; without a buffer got nothing changes. |
| BufferCache.Cache.Iderw | memide.c:37-59 | The disk driver panics exactly on requests it does not accept, changing nothing, and else does the transfer. |
| BufferCache.Cache.Bread | bio.c:99-109 | bread(): sleeps if and only if the buffer of the block is busy, panics if and only if no buffer can be had or the block has none and is not on the disk; in every other case it returns the block, busy, valid and with its latest contents, in its buffer or in the least recently used clean unused one, and no other buffer changes. |
| BufferCache.Cache.Pin | log.c:228-229 | A logged buffer is dirty and the cache still holds the block map. |
| BufferCache.Cache.Bwrite | bio.c:112-119 | bwrite() panics exactly on a buffer that is not busy; else the disk gets the latest contents of that block and of no other. |
| BufferCache.Cache.Brelse | bio.c:123-142 | brelse() panics exactly on a buffer that is not busy; else the buffer becomes the most recently used and the others keep their order; the cache still holds the block map if and only if the buffer was read and what its holder changed is pinned or written. |
| BufferCache.NoBuffersIff | bio.c:83-96 | bget() of a block panics if and only if no pinned or held buffer is its own and pinned and held buffers are NBUF together; any number of buffers may be held. |
| Ide.Sync | memide.c:37-59 | One synchronous request: buffer valid and clean afterwards, no other buffer touched. |
| Ide.SyncAllFirst | ide.c:99-127 | Carrying out the first queued request and then the rest is carrying out all of them. |
| Ide.StartedEarly | ide.c:71-96 | That idestart() sends the data of a write before its turn is over changes no outcome. |
| Ide.SyncAllOther | ide.c:134-163 | Work on a buffer that is not queued commutes with the queued requests. |
| Ide.DoneIsSynchronous | ide.c:158-160 | A buffer that has left the queue has the contents and flags the synchronous driver gives it; the wait ends only for such buffers. |
| Ide.Driver.Append | ide.c:147-151 | The walk to the end of the queue appends the request. |
| Ide.Driver.Submit | ide.c:134-155 | iderw() up to its wait: panics if and only if the buffer is not busy, is in sync, is for a disk that is not there, or is for a block outside the disk with nothing queued before it.  Else the request is last in the queue, and unless it or one before it is for a block outside the disk the outcome is that of the synchronous driver. |
| Ide.Driver.Interrupt | ide.c:99-127 | ideintr() completes exactly the first request and starts the next, which panics if and only if that is for a block outside the disk; a spurious interrupt does nothing; the outcome of all requests before the first bad one stays that of the synchronous driver. |
| Ide.Driver.Change | ide.c:134-163 | Meanwhile unqueued buffers may change in any way. |
| Bitmap.SetBitAt | fs.c:63-67 | Marking a block sets its bit and no other. |
| Bitmap.ClearBitAt | fs.c:84-90 | Freeing a block clears its bit and no other. |
| Inode.PutWordAt | fs.c:388-393 | Storing a word in the indirect block changes that entry only. |
| Inode.AssignedOwned | fs.c:371-399 | Giving a fresh block to an empty slot keeps "bit set exactly for metadata and for blocks owned by one slot". |
| Inode.AssignedBytes | fs.c:371-399 | ... and changes no byte of any file. |
| Inode.WithEntryAssigned | fs.c:386-393 | Filling an entry of the indirect block is such an assignment, whatever other indirect blocks hold. |
| Inode.WithDataBytes | fs.c:500-504 | Writing into the block of one file changes exactly those bytes of that file. |
| Inode.FreeSlot | fs.c:413-418 | A direct block can be freed (its bit is set) and ownership holds for the rest. |
| Inode.FreeEntry | fs.c:423-426 | So can a block listed in the indirect block, with the entries before it freed already. |
| Inode.WriteDone | fs.c:506-511 | The written blocks and the new size give the file overwritten and extended; all other files as before. |
| Inode.WriteLogStep | fs.c:499-505 | One more block written adds exactly what bmap logged for it and the block itself. |
| Inode.FileSystem.constructor | mkfs.c:242-256 | The image before files are added: metadata blocks marked, no block owned. |
| Inode.FileSystem.Balloc | fs.c:53-75 | The first unowned block, zeroed, its bit set; panics if and only if every data block is owned. |
| Inode.FileSystem.Bfree | fs.c:78-93 | Panics exactly on a block that is free; else clears its bit. |
| Inode.FullIff | fs.c:53-75 | No data block is free if and only if the data blocks are as many as the owned ones. |
| Inode.FileSystem.Bmap | fs.c:371-399 | The block of the bn-th block of a file; if missing it, and the indirect block if needed, are allocated and nothing else is mapped; no file changes; logs exactly the allocated blocks, their bitmap blocks and the indirect block it fills; panics if and only if bn is out of range or fewer blocks are free than are missing (none, one or two), and ownership is intact then too. |
| Inode.FileSystem.Readi | fs.c:454-478 | The slice of the file, cut at its end; -1 exactly for an offset behind the end or a range that wraps; nothing is allocated or changed. |
| Inode.FileSystem.WriteBlock | fs.c:499-505 | One iteration of the write loop: the next bytes are in place, and the logged blocks are exactly those of the blocks written so far. |
| Inode.AllocatedSplit | file.c:133-150 | A write in two parts allocates as many blocks as one write of both. |
| Inode.FileSystem.Writei | fs.c:482-512 | The file overwritten at the offset and extended, mapped exactly up to its size, other files unchanged; -1 exactly for an offset behind the end or a range past the largest file; panics if and only if fewer blocks are free than the blocks of the range behind the old end, with the indirect block if it is the first there, and on success takes exactly that many; inode on disk equal to the one in memory; exactly which blocks are logged: the data blocks, the bitmap blocks of new ones, the indirect block if an entry was filled, the inode block if the file grew; whatever changes on the disk is in one of those. |
| Inode.FileSystem.FreeEntries | fs.c:420-427 | All blocks listed in the indirect block are freed, none twice. |
| Inode.FileSystem.Itrunc | fs.c:406-434 | Exactly the blocks of the inode are released, "freeing free block" is unreachable, the file is empty and no other file changes; whatever changes on the disk is in a logged block. |
| FileWrite.OverwriteReads | fs.c:454-512 | Reading back a write gives the bytes written, the old bytes before and behind them, and the larger length. |
| FileWrite.OverwriteTwice | file.c:133-150 | Two writes one behind the other are one write. |
| FileWrite.ChunkLogCount | file.c:139-144 | How many blocks a chunk logs, exactly, from its offset, its length and the size of the file before it. |
| FileWrite.ChunkFits | file.c:132-141 | A chunk logs at most 17 blocks, so alone it fits an empty log. |
| FileWrite.FullChunkOverBudget | file.c:132-141 | Every full chunk, wherever it is written, logs at least 13 blocks, more than the MAXOPBLOCKS that begin_op reserves. |
| FileWrite.FirstChunk | file.c:132-141 | The first full chunk of an empty file logs 16 blocks. |
| FileWrite.ChunkWithinIff | file.c:132-141 | Chunks of n bytes stay within the reservation at every offset of every file if and only if n is at most 3073. |
| FileWrite.File.WriteChunk | file.c:139-144 | One chunk: the outcome of writei, the new offset, how many blocks it allocates or lacks, exactly which blocks and how many it logs, and that nothing else on the disk changes. |
| FileWrite.File.FileWrite | file.c:117-155 | All of the bytes exactly when the offset is within the file and the end within the largest file, as one unbounded write would; else nothing, or the whole chunks that fit; panics if and only if the free blocks are fewer than one write of those bytes allocates; every chunk logs at most 17 blocks. |
| Durability.Survives | log.c:124-230 | If each committed operation, in some serial order of its group, takes a disk with a property of the blocks outside the log to another such disk, then the recovered disk of every run has the property, wherever the run stops. |
| Durability.SeparateSerial | log.c:144-171 | Operations of a group that log different blocks come to the same in every order, however their log_writes are interleaved. |
| Durability.OperationStores | fs.h:51-63 | An operation that logs every block it changes takes a disk that stores the files before it, in inode, bitmap and data blocks, to one that stores the files after it. |
| Durability.WriteOperation | file.c:139-144 | Each chunk of filewrite, from begin_op to end_op, is such an operation, and leaves files with every block owned once, mapped up to their size. |
| Durability.TruncateOperation | fs.c:406-434 | So is itrunc. |
| Durability.FilesSurvive | log.c:114-121 | Wherever a run of such operations stops, the disk that recovery leaves stores files with every block owned once, marked in the bitmap exactly if owned, and mapped exactly up to their size. |
| StateLists.ListAppend | proc.c:1513-1526 | Appending at the tail gives the list with the process last. |
| StateLists.ListUnlink | proc.c:1529-1569 | Unlinking gives the list without the process. |
| Scheduler.MoveInv | proc.c:1491-1510 | Moving a process between lists keeps the partition of the process table. |
| Scheduler.PromoteInv | proc.c:914-946 | Promotion keeps partition and levels. |
| Scheduler.KillInvIff | proc.c:1166-1205 | kill keeps the partition always, also when some process is on a wrong level, and the levels if and only if it does not move a sleeper of non-zero priority. |
| Scheduler.StepInv | proc.c:131-1228 | Every operation keeps each process on exactly one list with list and state agreeing; every one other than such a kill also that ready[i] holds priority i. |
| Scheduler.StepRank | proc.c:857-946 | For a waiting process (level, position) never increases; a promotion lowers a level above 0, a dispatch a position at level 0. |
| Scheduler.LevelFalls | proc.c:914-946 | Over any run n promotions lower the level by n or to 0. |
| Scheduler.PositionFalls | proc.c:857-900 | At level 0 a process sees at most as many dispatches as its position before it runs. |
| Scheduler.NoStarvation | proc.c:857-946 | No run with MAXPRIO promotions and then NPROC dispatches leaves a runnable process waiting throughout. |
| Misplaced.StuckStep | proc.c:242-296 | A process of non-zero priority on ready[0] stays there with that priority, whatever operation comes next short of a panic: a setpriority naming it does nothing or panics, a promotion passes it over; each iteration of the scheduler brings it forward. |
| Misplaced.StuckPanics | proc.c:843-911 | So every run, with whatever kills, promotions and calls of setpriority, panics before the scheduler has gone through more iterations than processes were in front of it. |
| Misplaced.UnsafeKillStops | proc.c:1196-1201 | After a kill that moves a sleeper of non-zero priority, no run gets through more iterations of the scheduler than ready[0] had processes. |
| Misplaced.UnsafeKillPanics | proc.c:1196-1201 | With ready[0] empty before that kill, the very next dispatch panics. |
| Misplaced.InvRuns | proc.c:1484-1489 | As long as no kill was of that kind, neither a dispatch nor a setpriority panics. |
| Scheduler.WakeupAgreesIff | proc.c:1108-1129 | The list-based wakeup agrees with the table scan if and only if at most one process sleeps on the channel. |
| Scheduler.ReparentsAllIff | proc.c:550-637 | exit reparents all children if and only if the zombie list is empty or there is at most one child. |
| Accounts.BudgetKept | proc.c:988-993 | In every run budget and ticks used in all slices since the last refill (demotion, promotion, setpriority, allocation) are MAX_BUDGET together; the slices are read off the times of the events. |
| Accounts.DemotedIff | proc.c:1082-1087 | In every run a yield or sleep raises the level by one, capped at MAXPRIO, and refills the budget if and only if those ticks reach MAX_BUDGET. |
| Accounts.SinceIs | proc.c:862-900 | In every run the start of the slice is the time of the iteration that made the process run. |
| Accounts.PromotionDue | proc.c:858-861 | In every run the promotion after one at tick t is due at t + TICKS_TO_PROMOTE, so promotions are at least that far apart. |
| Accounts.StepProc | proc.c:131-1228 | What each operation does to budget, level, start of slice and identifier of any one process; whatever is not named stays. |
| Accounts.StepClocks | proc.c:131-1228 | Only an allocation takes an identifier, and only a promotion sets the time of the next. |
| Accounts.StepFit | proc.c:131-1228 | No two processes in use ever have the same identifier. |
| Accounts.ScheduleProc | proc.c:842-911 | If a promotion is due every process but the ready ones of level 0 gains a level and a full budget; the process that runs is the first of the first non-empty level, and its slice starts now. |
| Accounts.PromoteNext | proc.c:913-946 | A promotion does not change whose turn it is. |
| Accounts.SetPriorityIs | proc.c:241-296 | -1 if and only if no ready, sleeping or running process has the identifier; else that process and no other has the new priority, with a full budget if it is a new one. |
| Accounts.AllocIs | proc.c:130-186 | Fails if and only if no slot is unused, and else takes one. |
| Accounts.ReapIs | proc.c:684-784 | -1 if and only if the caller has no zombie child; else one such child is freed, its identifier returned, and no other process changes. |
| Accounts.KillIs | proc.c:1165-1228 | The process in use with the identifier is marked and no other; 0 if and only if there is one and some process sleeps; woken if and only if it heads the sleep list. |
| Accounts.WakeupProc | proc.c:1118-1129 | The process that has slept longest on the channel is woken and no other changes. |
| Accounts.ReparentProc | proc.c:595-637 | Handing over children wakes init if and only if the child found first heads the zombie list; nothing else changes but parents. |
| Accounts.ExitWakes | proc.c:549-592 | The process that has slept longest on the parent's channel is woken, and the exiting one is a zombie. |
| Accounts.ForkProc | proc.c:452-500 | The child is runnable with its parent set, last on level 0; a fork that fails gives the slot back; no other process changes. |
| Accounts.YieldProc | proc.c:984-999 | A yield charges the process and puts it last on its level, and no other process changes. |
| Accounts.SleepProc | proc.c:1061-1101 | A sleep charges the process and puts it last on the sleep list, and no other process changes. |
| BootRuns.KillPanicsAfterBoot | proc.c:1196-1201 | A run from boot, each call made by a running process: one uses up its budget and sleeps, another runs and kills it, and the next dispatch panics. |
| BootRuns.SecondSleeperAfterBoot | proc.c:1118-1129 | A run from boot, each call made by a running process, after which wakeup1 leaves a second sleeper on the channel asleep. |
| BootRuns.ChildLeftAfterBoot | proc.c:594-637 | A run from boot, each call made by a running process, after which an exiting process remains the parent of a zombie child. |
| ProcTable.PTable.constructor | proc.c:1572-1602 | All processes unused and on the free list, in slot order. |
| ProcTable.PTable.StateListAdd | proc.c:1513-1526 | The list with the process appended, all twelve lists linked through the one next field. |
| ProcTable.PTable.StateListRemove | proc.c:1529-1569 | The list without the process; -1 exactly if it is not there. |
| ProcTable.PTable.Locate | proc.c:1543-1550 | The walk along the list ends at the process with the one before it, or at the end if it is not there. |
| ProcTable.PTable.Unlink | proc.c:1557-1567 | The process found is taken out, the tail moves back if it was the last, and its link is cleared. |
| ProcTable.PTable.ChangeState | proc.c:1491-1510 | Panics exactly if the process is not on the list or not in its state; else moves it. |
| ProcTable.PTable.AllocProc | proc.c:130-186 | The first unused process becomes an embryo; without memory it goes to the end of the free list with only its pid changed, and with no process free nothing changes; no panic. |
| ProcTable.PTable.UserInit | proc.c:334-379 | The first process is runnable at level 0. |
| ProcTable.PTable.ForkDone | proc.c:452-500 | The child is last on ready[0]; no panic. |
| ProcTable.PTable.SetPriority | proc.c:241-296 | Moves a ready process to its new level, sets a sleeping or running one, -1 exactly if there is none; no panic. |
| ProcTable.PTable.Exit | proc.c:549-592 | Panics exactly for init; else what Scheduler.Exit says, with the early return in the zombie loop. |
| ProcTable.PTable.WaitPass | proc.c:684-784 | Reaps the first zombie child in list order if there is one and returns its pid; havekids if and only if some process is a child. |
| ProcTable.PTable.ScheduleOnce | proc.c:842-911 | Promotes when due and runs the first process of the first non-empty level; no panic. |
| ProcTable.PTable.PromoteProcs | proc.c:913-946 | Level by level every ready process goes to the end of the level below; sleeping and running ones gain a level; no panic. |
| ProcTable.PTable.Yield | proc.c:984-999 | The ticks since dispatch are taken off the budget; if that uses it up the budget is refilled and the level goes up by one, capped at MAXPRIO.  The process is last on its level, no other process changes, and no panic. |
| ProcTable.PTable.Sleep | proc.c:1061-1101 | The same charge; the process sleeps on the channel, last on the sleep list, no other process changes, and no panic. |
| ProcTable.PTable.Wakeup1 | proc.c:1118-1129 | Wakes the first sleeper on the channel, and only it; no panic. |
| ProcTable.PTable.Kill | proc.c:1165-1228 | What Scheduler.Kill says, with the early return in the sleep loop; the invariant holds afterwards exactly if the kill is safe. |
| Umalloc.ReleaseSorted | umalloc.c:24-44 | Freeing keeps the list ordered with gaps between its blocks. |
| Umalloc.ReleaseCovers | umalloc.c:24-44 | ... and adds exactly the units of the block. |
| Umalloc.TakeSorted | umalloc.c:75-83 | So does taking the end of a block. |
| Umalloc.TakeCovers | umalloc.c:75-83 | ... which removes exactly the units given out. |
| Umalloc.Canonical | umalloc.c:24-44 | Two such lists with the same free units are the same list. |
| Umalloc.FreeUndoesMalloc | umalloc.c:24-90 | Freeing what was just taken restores the list. |
| Umalloc.UnitsEnoughIff | umalloc.c:69-69 | The units computed for a request hold its bytes if and only if the rounding does not wrap at 2^32, and are never one too many. |
| Umalloc.HugeRequest | umalloc.c:69-69 | A request for 2^32 - 1 bytes is rounded to a block with no payload. |
| Umalloc.WrappedRequests | umalloc.c:54-54 | For 2^32 - 8 bytes morecore asks sbrk for 0 bytes, for 2^31 for a negative number, for 2^32 - 4104 to take 4096 bytes away. |
| Umalloc.AnswerMapsIff | umalloc.c:46-61 | When sbrk answers, the last u units of the region morecore takes it for are mapped if and only if its byte count is below 2^31, every page was found and the page they begin in had not been lost before. |
| Umalloc.AnswerKeeps | umalloc.c:46-61 | If the byte count is below 2^31 the process then is sz bytes, or those and the region, and covers it. |
| Umalloc.NewBlockOnly | umalloc.c:75-88 | After morecore the block given out is the end of the new region. |
| Umalloc.Heap.constructor | umalloc.c:70-73 | The empty circular list. |
| Umalloc.Heap.FindGap | umalloc.c:30-32 | The search from freep ends at the one gap where the block belongs. |
| Umalloc.Heap.Free | umalloc.c:24-44 | The list with the block released and merged; units conserved; live and free blocks disjoint. |
| Umalloc.Heap.MoreCore | umalloc.c:46-61 | The list is the old one with the new region released into it, and the heap ends with it, or, exactly if sbrk fails, nothing changes; the region is mapped if and only if the byte count is below 2^31, every page was found and the page it begins in had not been lost. |
| Umalloc.Heap.Search | umalloc.c:74-89 | The loop: the end of the first large enough block from freep on; without one, the region from sbrk released into the list and the end of a block of that, with the end of the heap where that region ends; terminates also when the new region merges into the block before it. |
| Umalloc.Heap.Malloc | umalloc.c:63-90 | What the loop does, for the list it starts or finds; 0 if and only if no block is large enough and sbrk fails; where the heap ends afterwards; the block given out is mapped and holds the bytes asked for if and only if the rounding does not wrap and: its pages had not been lost, if it is cut from a free block; else max(4096, units) * 8 is below 2^31, every page was found and the page it begins in had not been lost. |
| Umalloc.PhantomBlock | umalloc.c:63-90 | malloc of 2^32 - 8 or 2^31 bytes in a process of 16384 bytes: the answer is not null, the process has not grown, and the block is not in its memory. |
| Umalloc.LostBlockReused | umalloc.c:24-90 | A process of 1017 pages with 8 free: malloc(20000) loses the last page of its region; freed and asked for again, the block is given out again without that page and without a call of sbrk. |
| Umalloc.Serve | umalloc.c:24-90 | One call of malloc, free or sbrk keeps the heap, keeps it within the process, and keeps the blocks handed out those that the program holds. |
| Umalloc.Session | umalloc.c:24-90 | Any sequence of malloc, free and sbrk with byte counts below 2^31: the heap stays one within the process, so that the next call can be made; the program holds exactly what was handed out and not freed, no two blocks overlap, and without lost pages each holds its bytes in mapped memory. |
| Pipe.StepSafeIff | pipe.c:76-120 | A step keeps "sleeping reader: empty, sleeping writer: full" if and only if it is not a killed writer giving up beside a sleeping reader. |
| Pipe.KilledWriterStrandsReader | pipe.c:83-88 | That step leaves the reader asleep beside a full pipe. |
| Pipe.StrandedReader | pipe.c:83-88 | A run from the start that ends there: a read that sleeps, then a killed write of 513 bytes. |
| Pipe.RunSafeIff | pipe.c:58-120 | A run is safe throughout if and only if it has no such step; then reader and writer never both sleep. |
| Pipe.BytesInOrder | pipe.c:76-120 | In every run the bytes all reads returned are a prefix of the bytes all writes stored, at most PIPESIZE behind. |
| Pipe.ReadWaitsIff | pipe.c:104-110 | A read waits or gives up if and only if the pipe is empty and its write end open; killed decides which. |
| Pipe.ReadReturns | pipe.c:111-119 | A read that is done takes the oldest bytes: exactly n, or fewer and then the pipe is empty. |
| Pipe.EndOfFileIff | pipe.c:111-119 | A read of n > 0 that is done returns no byte if and only if the pipe was empty and its write end closed. |
| Pipe.EndOfFileStays | pipe.c:58-120 | From then on the pipe stays empty and its write end closed. |
| Pipe.WriteAccepts | pipe.c:81-95 | A write stores a prefix of its bytes, all of them or so many that the pipe is full, and gives up if and only if some are left and the read end is closed or the writer killed. |
| Pipe.WriteGoesOn | pipe.c:81-95 | What a write stored and what it goes on with are together what it was given; done if and only if nothing is left. |
| Pipe.CloseKeeps | pipe.c:58-74 | Closing an end closes that end only, wakes its peer only and keeps the bytes. |
| Pipe.Counters | pipe.c:82-104 | Counters that wrap at 2^32 still tell full and empty and the ring slot. |
| Pipe.Channel.Write | pipe.c:76-97 | From the lock to return or sleep: the bytes that fit are stored in order, done if and only if all are, failed if and only if some are left and the read end is closed or the writer killed; who is woken is as in the protocol. |
| Pipe.Channel.Read | pipe.c:99-120 | From the lock to return or sleep: the oldest bytes, n of them or all there are; not done if and only if the pipe is empty with its write end open, asleep if and only if also not killed; who is woken is as in the protocol. |
| Pipe.Channel.Close | pipe.c:58-74 | That end and no other is closed, its peer woken, the bytes stay; freed exactly when both ends are closed. |
| Grep.LangCons | grep.c:85-106 | The language of a pattern (pieces of the text, one per item) unfolds by its first item. |
| Grep.HereStar | grep.c:90-91 | A starred character matches any number of fitting characters before the rest. |
| Grep.HereOne | grep.c:94-95 | A single character matches itself, "." anything. |
| Grep.HereEnd | grep.c:92-93 | A final "$" matches only the end. |
| Grep.MatchHere | grep.c:85-96 | True if and only if some prefix of the text is in the language; no read outside either string. |
| Grep.MatchStar | grep.c:98-106 | True if and only if fitting characters followed by a match of the rest exist. |
| Grep.Match | grep.c:71-82 | True if and only if the text matches at its start (under "^") or at some position. |
| ShellGrammar.LineParsed | sh.c:443-545 | Every line of the grammar is parsed, to the command of its derivation. |
| ShellGrammar.LineSound | sh.c:443-545 | Whatever is parsed has a derivation with those tokens and that command. |
| ShellGrammar.ParsesIff | sh.c:443-545 | The token parser accepts exactly the grammar. |
| ShellGrammar.RedirectOrder | sh.c:473-545 | The redirections written behind each other nest with the first innermost, so running the command opens them from the last to the first. |
| ShellGrammar.FirstRedirectDecides | sh.c:83-91 | Where a plain command redirects a descriptor more than once, the file that stays open on it is that of the first redirection written. |
| Shell.GetToken | sh.c:363-407 | The next token: a symbol, ">>", or a maximal word, with the spaces around it skipped. |
| Shell.Peek | sh.c:409-419 | Skips spaces and tells whether the next character is one of those given. |
| Shell.TokenToks | sh.c:363-407 | gettoken takes exactly the first token of the line. |
| Shell.ParseRedirs | sh.c:473-496 | As on tokens; every redirection read with its file, the sign deciding mode and descriptor. |
| Shell.ParseExec | sh.c:514-545 | As on tokens; arguments in order, fewer than MAXARGS, none of them a redirection file. |
| Shell.ParseBlock | sh.c:498-512 | As on tokens. |
| Shell.ParsePipe | sh.c:460-471 | As on tokens; left before right. |
| Shell.ParseLine | sh.c:443-458 | As on tokens; every word and every operator of the part read is recorded once. |
| Shell.NulTerminate | sh.c:547-592 | A NUL at the end of every recorded word and no other change. |
| Shell.CutKeepsWords | sh.c:547-592 | No such NUL falls into a word, so each word reads back as its own text. |
| Shell.ParseCmd | sh.c:426-441 | Fails if and only if the line is not in the grammar; else builds the command of its derivation, which records every word of the line once, and each recorded word is a string of its own in the buffer. |
| Vm.WithPageOk | vm.c:70-90 | Mapping a fresh page changes that entry only and keeps pages unshared. |
| Vm.WithoutPageOk | vm.c:262-269 | Unmapping a page changes that entry only and gives up that page only. |
| Vm.MissedIff | vm.c:256-261 | deallocuvm passes over a present page exactly when its 4MB stride jumps over it. |
| Vm.DeallocExactIff | vm.c:249-273 | The whole range is unmapped if and only if no present page lies in the part jumped over; nothing outside the range changes. |
| Vm.ContiguousDealloc | vm.c:249-273 | For an image without holes nothing is jumped over. |
| Vm.SparseSpaceMissed | vm.c:256-261 | A space with a hole whose page 1024 is jumped over. |
| Vm.Kernel.constructor | kalloc.c:30-52 | All pages are on the free list, once each. |
| Vm.Kernel.Kalloc | kalloc.c:82-95 | The first free page, or none exactly if there is none. |
| Vm.Kernel.Kfree | kalloc.c:59-77 | Panics exactly outside the allocator's pages; else the page is first on the free list. |
| Vm.Kernel.WalkAlloc | vm.c:45-65 | The table exists afterwards and no mapping changes; takes one page exactly if it was missing, entered in the directory as present, writable and for users, with no other directory entry changed; fails exactly if it was missing and no page is free. |
| Vm.TablesHonest | vm.c:62-62 | Every present directory entry is present, writable and for users, so what the processor allows on a page, the lesser of both levels, is what the table entry says. |
| Vm.NewPageRights | vm.c:231-240 | A page that allocuvm mapped may be read and written by its process. |
| Vm.CopyRights | vm.c:319-331 | A page that copyuvm copied may be used exactly as in the source. |
| Vm.Kernel.MapUser | vm.c:70-90 | Maps that page and no other; panics exactly if it was mapped; fails only if a table is needed and no page is free. |
| Vm.Kernel.MapKernel | vm.c:70-90 | Maps the range in order, no other page; succeeds only if none of it was mapped; exactly which tables it adds; fails only with no page free and a table missing. |
| Vm.Kernel.SetupKvm | vm.c:127-144 | A space with exactly the kernel ranges, each page where its range says, their tables and no others, and no user page; panics only if two ranges overlap and never succeeds then; without a panic it fails if and only if fewer pages are free than the directory and those tables; what is left behind then is one directory with its tables. |
| Vm.Kernel.DeallocUvm | vm.c:249-273 | Frees exactly the present pages its loop visits, each once; size returned. |
| Vm.Kernel.AllocUvm | vm.c:220-243 | Where none of the pages is present yet: success with all pages mapped if and only if the free pages are as many as the pages and tables needed; success with the last page unmapped if and only if they are one fewer and that page needs a table of its own; else 0 and the space as before; when exactly a page is lost.  It panics if and only if one of the pages is present and the free pages last until there, and never succeeds with one present.  Rights through both levels are those of the table entries. |
| Vm.LastPageUnmappedIff | vm.c:231-242 | Reported success with the last page unmapped, if and only if that condition on the state before the call holds. |
| Vm.LastPageLost | vm.c:231-242 | For every kernel map without overlap: a machine with one page more than setupkvm takes, on which allocuvm of one page returns 4096 and maps nothing. |
| Vm.Kernel.FreeVm | vm.c:277-292 | All user, table and directory pages of the space, and no others, are back on the free list. |
| Vm.Kernel.CopyPage | vm.c:319-331 | One page: absent exactly if the source lacks it; else a copy, or no page exactly if the free pages are fewer than the page and its missing table. |
| Vm.Kernel.CopyUvm | vm.c:309-337 | Equal bytes and flags on fresh pages, nothing else mapped, other spaces unchanged.  It succeeds if and only if the kernel ranges do not overlap, all source pages are present and the free pages are at least a directory, the tables of the kernel ranges, the n user pages and a table for every 1024 of them; panics only for the first two reasons; on failure the old spaces as before, and either all pages back but at most one, or what setupkvm left behind.  Rights through both levels are those of the table entries. |
| Growth.SbrkMapsIff | sysproc.c:47-58 | The new bytes from any of them on are mapped if and only if every page and table is found and the page they begin in had not been lost. |
| Growth.SbrkAddsIff | sysproc.c:47-58 | sbrk answers with n more bytes, all mapped, if and only if the sum stays below KERNBASE, every page and table is found and the page at the old end had not been lost. |
| Growth.SbrkShrinksIff | sysproc.c:47-58 | It takes a mapped byte away if and only if n is negative, no larger than the process, and such a byte lies there. |
| Growth.SomeImage | vm.c:249-273 | Every space without a page behind its end is the image of its size without some lost pages. |
| Growth.SetupImage | vm.c:127-144 | A new space is the image of no bytes: exactly the pages below its size are present. |
| Growth.CopyImage | vm.c:309-337 | A copied space is the image of the size it was copied with, without lost pages. |
| Growth.AllocImage | vm.c:220-243 | allocuvm leaves the image that sbrk tells: of the new size, of the new size without its last page, or the old one; lost pages stay lost. |
| Growth.DeallocImageIff | vm.c:249-273 | deallocuvm leaves the image of the smaller size if and only if its stride jumps over no page. |
| Growth.ImageNothingMissed | vm.c:249-273 | It jumps over none when the first page given up is present or begins a region of 1024, so never in a process that has lost no page. |
| Growth.Growproc | proc.c:385-400 | For every process, also one that has lost pages: fails, sets the size and leaves the image that Sbrk says, in 32-bit arithmetic, when it shrinks if and only if deallocuvm jumps over no page; all pages accounted for. |
| Growth.PresentIff | vm.c:319-323 | copyuvm finds every page of a process if and only if none was lost; so a process that lost one is never copied. |
| Growth.OnePageLost | vm.c:231-242 | With one page free, growing by a page into a region without a table loses that page, each time. |
| Growth.LostRegionMissed | vm.c:256-261 | A process that has so lost the 1024 pages of its second region, with page 2048 behind it: shrinking to page 1500 jumps over page 2048. |
| LinkCount.NamedLinked | sysfile.c:208-209 | A named inode has a link: the panic in unlink is unreachable. |
| LinkCount.AddFileCounts | sysfile.c:114-162 | A new name for a file with one more link keeps every link count right, also in an unlinked directory. |
| LinkCount.AddFileInv | sysfile.c:114-162 | In a linked directory that keeps the whole invariant. |
| LinkCount.RemoveFileInv | sysfile.c:181-236 | So does removing a name of a file with one link less. |
| LinkCount.MakesDirInv | sysfile.c:239-281 | So does making a directory, with the link of its parent for "..". |
| LinkCount.EmptyLinks | sysfile.c:165-178 | An empty directory has one link and its parent at least two. |
| LinkCount.DropsDirInv | sysfile.c:181-236 | Removing an empty directory keeps every count right. |
| LinkCount.FreedInv | fs.c:332-351 | So does freeing an inode without links. |
| LinkCount.ReleaseCountsIff | fs.c:332-351 | After the release of an unlinked directory all link counts are right if and only if it named nothing. |
| LinkCount.OrphanDir | sysfile.c:267-273 | A directory made in an unlinked one leaves the count of that one's parent wrong at once. |
| Paths.ElemsJoin | fs.c:596-619 | Splitting at a slash splits the elements. |
| Paths.SkipElem | fs.c:596-619 | The first element, cut to DIRSIZ characters, and the elements behind it; none exactly if there are only slashes. |
| Paths.ElemsName | fs.c:608-615 | A name without slashes is one element: whole up to DIRSIZ characters, else its first DIRSIZ. |
| Sysfile.System.constructor | mkfs.c:117-128 | A file system with its root directory. |
| Sysfile.System.DirLookup | fs.c:525-549 | The first used entry with the name, if any. |
| Sysfile.System.DirLink | fs.c:553-579 | -1 exactly if the name is there, panics exactly if it is not and the directory takes no entry; else the entry at the first unused place. |
| Sysfile.System.Namex | fs.c:625-658 | The inode the path leads to, or its parent directory and last element. |
| Sysfile.ResolveJoin | fs.c:625-658 | Following one path and then another from there is following both. |
| Sysfile.ResolveLast | fs.c:644-653 | A path leads where its last element does in the directory that namei of the parent finds. |
| Sysfile.Dots | fs.c:625-658 | "." leads to the directory itself and ".." to the directory that names it. |
| Sysfile.RelativePath | fs.c:629-632 | A relative path leads where the absolute path behind the current directory's does. |
| Sysfile.CreatedFound | sysfile.c:256-281 | After a create the path leads to the new inode. |
| Sysfile.LinkedFound | sysfile.c:145-150 | After a link the path leads to the file. |
| Sysfile.RemovedGone | sysfile.c:203-222 | After an unlink the path leads nowhere. |
| Sysfile.System.Iput | fs.c:332-351 | Frees the inode exactly if it has no links and no other reference. |
| Sysfile.System.SysLink | sysfile.c:114-162 | When it fails and that nothing changed then; on success one more name and link and all link counts right; they stay right when the directory is released, and the whole invariant holds, if and only if the directory is linked; the counts still fit a short if and only if the old count was below 32767.  After success the path leads to the target. |
| Sysfile.System.IsDirEmpty | sysfile.c:165-178 | True if and only if all entries behind the dots are unused. |
| Sysfile.System.SysUnlink | sysfile.c:181-236 | Succeeds if and only if the name is not a dot and names a file or an empty directory; then the name is gone, the inode too if nothing else refers to it, and all link counts hold.  After success the path leads nowhere. |
| Sysfile.System.Ialloc | fs.c:176-201 | The first free inode, emptied; none exactly if none is free. |
| Sysfile.System.MakeNew | sysfile.c:256-281 | create() for a name that is not there: succeeds if and only if an inode is free and the directory takes an entry; then the first free inode under that name. |
| Sysfile.System.Create | sysfile.c:239-281 | With the name there: succeeds if and only if a file is asked for and the name is a file, and returns it with nothing changed; panics if and only if its inode is free.  With the name absent: succeeds if and only if an inode is free and the directory takes an entry, with a new inode under the name, with dots for a directory; else it panics.  Without the parent directory it fails.  After success the path leads to the inode.  For a directory all link counts are right if and only if the parent is linked; for a file they are, and survive the release of the parent if and only if it is linked; the counts still fit a short if and only if it is no directory or the count of the parent was below 32767. |
| Sysfile.EnteredInv | sysfile.c:181-236 | A file system reached by mkdir, chdir and unlink of a directory, with the invariant. |
| Sysfile.OrphanShown | sysfile.c:267-273 | A directory created there spoils the link count of the root. |
| Sysfile.LostFileShown | sysfile.c:275-276 | A file created there has a right count until the directory is released, then a link without a name. |

## Left out

- Boot, traps, context switches, interrupts and spinlocks: regions under a lock are single steps.
- Device drivers other than the disk queue, and device errors.
- exec, the console, printf, string helpers, uid, gid and mode calls, process dumps: single-field updates or output.
- mkfs beyond the empty image and the root directory; it can leave one unmapped block in the root directory, which the file model rules out.
- The inode cache and its locks: one inode per number, references besides the running call's as a set.
- File descriptor tables, file reference counts, and device and pipe files under filewrite.
- The bitmap is one sequence of bytes, not blocks of them; block contents in the inode layer are what bread returns.
- Time as a counter that does not wrap; the charge of a time slice uses the ticks passed in.
- Clearing of a process's channel after it wakes, and everything of a process outside scheduling.
- waitSearchReady, killSearchReady and exitSearchReady are loops over the levels calling the one-list search; inner loops of the source that return in their first iteration are written as conditionals.
- Addresses of pages are page numbers; a page holds a directory, a table or data, not raw bytes; uva2ka, copyout, inituvm and loaduvm only use what is modelled.
- The shell's commands are values, so the execcmd filled in behind its redirections is built at the end; running commands is not modelled beyond the order in which it opens redirections.
- RedoLog.CrashAtomicity: a block write is atomic and blocks are not reordered by the disk.
- LogPanics.PanicFreeIff: buffers held by others are a number that does not change during a commit; reads other than the copy to the log that find no buffer are not modelled.
- LogDriver.Log.EndOp: runs the commit as part of the call; other processes during a commit are in LogProtocol.
- Inode.FileSystem.Bmap: of the state after a panic, which stops the kernel, only that ownership is intact and how much is owned.
- FileWrite.ChunkLogCount: for disks with one bitmap block, as mkfs makes them; FileWrite.File.WriteChunk gives the blocks for all.
- Umalloc.Heap.Malloc: the fault of writing a header where sbrk mapped nothing is not modelled, the list goes on as written; nor are programs that overwrite headers or take memory from sbrk themselves in pieces that are no multiple of 8.
- Umalloc.Session: calls after a request that sbrk was asked wrongly for (2^31 bytes and more) are outside; the heap then ends behind the process.
- LogProtocol.GroupCommit: what the disk holds after an overrun of the log is not modelled.
- Durability.FilesSurvive: that the operations of a group have a serial order is assumed, the locks of inodes and buffers that bring it about are not modelled; Durability.SeparateSerial proves it for operations on different blocks.
- Growth.LostRegionMissed: gives the space, not the 1024 calls that lead to it; Growth.OnePageLost is one of them.
- Sysfile.System.SysLink: counts that no longer fit their 16 bits go on growing, the contract only says when; all inodes are on one device.
- Scheduler.NoStarvation: for runs without a kill that breaks the levels; Misplaced.UnsafeKillStops has the others.
- Misplaced.StuckStep: of the three places that assert the level, the dispatch and setpriority; the one in promoteProcs only stops a run earlier.
- Accounts.StepFit: identifiers are numbers without bound; the int they are in the source would wrap after 2^31 processes.
