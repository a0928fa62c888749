# xv6 in Dafny

A Dafny 4.11 model of the parts of this xv6 system that are hard to get right, with proofs.
`dafny verify dfyconfig.toml` checks everything.  Every file holds one module; `Collections` holds
what several of them need of sequences and sets.

* **Crash-safe storage** (`log.c`, `bio.c`, `memide.c`): `Blocks`, `Log`, `LogHistory`, `LogMachine`,
  `LogProofs`, `LogRuns` give the write-ahead log as a state machine whose steps are single disk
  writes, with crashes and reboots anywhere, and prove crash atomicity against a replay of the
  history of operations; `LogRace` takes `log_write` apart into its unlocked guard and its locked
  part.  `LruList`, `CacheModel`, `CacheEffects`, `BufferCache` are the buffer cache, `CacheRuns`
  tells counts, locks and recency from whole histories of calls, and `LogDevice`
  is `log.c` working in place on that cache, proved to take protocol steps, while other processes
  hold buffers.  `LogWitness` drives that code from power-on to a panic.
* **File layer** (`fs.c`, `file.c`, `sysfile.c`): `Bitmap`, `Dinodes`, `FileModel`, `FileContent`,
  `FileWrite`, `FileTrunc`, `FileBudget` define blocks, pointers and files as values and prove
  block ownership, the byte-sequence view of files, the write-through inode cache and the log
  budget of a write.  `FileTight` says exactly when a write exceeds it, files with holes included, and
  `SpreadImage` has disk images that use it up.  `FileImage` is the empty file system.  `DiskFormat`
  says byte by byte where things are on disk.  `FileSystem` is the imperative code.  `DirModel`,
  `Directory`, `Paths`, `InodeCache` and `Namex` are directories as finite maps, path names, the inode
  cache, and the references a path walk takes.
* **Files over the log** (`file.c`, `fs.c`, `log.c`): `FileTrace` turns `writei` and `itrunc` into the log
  writes they make, `FileCrash` proves that a crash during `filewrite` leaves a whole number of its
  chunks, `ChunkRuns` that the log lets each of them through, and `FileTransactions` that a crash among
  interleaved operations of any kind leaves whole operations.
* **User heap** (`umalloc.c`): `HeapModel` (memory as a tiling), `HeapRing` (the circular free list
  threaded through headers), `Heap` (the allocator in place).
* **Page tables** (`vm.c`, `kalloc.c`): `PageModel` (what every page is used for), `PageFrames` (what
  operations change, leave alone and cost), `PageTables` (the machine in place).
* **Processes** (`proc.c`): `ProcModel`, `ProcProofs`, `ProcRuns` are the process table as a state
  machine for any number of processes and processors; `ProcSteps` says what every step does to every
  slot, `ProcKills` who is marked killed; `ProcTable` holds the loops over the table;
  `SleepWakeup` is `sleep` and `wakeup` lock by lock, for any number of threads; `Scheduler` is
  process selection and bounded waiting.
* **Pipes** (`pipe.c`): `PipeModel` (any number of readers and writers), `PipeBuffer` (the ring with
  wrapping counters), `PipeCalls` (what whole calls store and take).
* **Shell and grep** (`sh.c`, `grep.c`): `ShellGrammar`, `ShellTokens`, `Shell`, `ShellCommand` are the
  parser, proved to accept exactly a grammar, and `nulterminate`; `ShellReading` reads the same command
  off the line by precedence, and `ShellPlaces` says where in the line its parts stand.  `Grep` is the
  pattern matcher against the language of its patterns.

Properties that turned out false of the code, with the exact condition under which they hold:

* `log_write` can panic although every operation stays within its share of the log, whatever the size
  of the log (`LogRuns.InShareNeverSafe`), because its guard asks for a free entry even where the
  block is listed already.  With more than LOGSIZE blocks in the log it does so exactly on a full
  header; then all running operations have used up their shares and the block is a listed one
  (`LogRuns.FullHeaderPanics`, `LogRuns.FullHeaderReached`).  For blocks not listed yet it never does
  so exactly when the log has more than LOGSIZE blocks (`LogRuns.LogWritePanicsExactly`).
* `log_write` can list more blocks than the log holds, because its guard is read without the lock:
  exactly when the log has at most LOGSIZE blocks, as `mkfs` makes it (`LogRace.OverflowsExactly`,
  `LogRace.TwoPassTheGuard`).  With more it is harmless: all runs are runs of the protocol
  (`LogRace.RaceIsHarmless`).  For smaller logs the other results take guard and append as one step.
* `commit` can run out of buffers: a turn of `write_log` does exactly when the listed blocks and the
  buffers that other processes reference at that moment, for blocks that are neither listed nor in
  the log, are NBUF or more (`LogDevice.NoBufferLeft`); so a commit during which these stay the same
  panics exactly then, on its first read (`LogDevice.LogDev.Commit`).  With nobody else in the cache
  this takes a log of more than LOGSIZE blocks; on the layout of `mkfs` one reader is enough
  (`LogWitness.RunOutOfBuffers`).
* A chunk of `filewrite` can log one block more than MAXOPBLOCKS: exactly when it lies over four file
  blocks that are all holes, reaches behind the direct blocks of a file without indirect block, makes
  it grow, and the next five free blocks lie in five parts of the free map
  (`FileTight.ChunkBudgetExactly`, `SpreadImage.HolesBreakBudget`).  Files without holes never do
  (`FileBudget.ChunkFitsBudget`).
* A process can be born killed: exactly when its slot carries the mark of a `kill` of 0 or of a pid
  whose fork failed (`ProcKills.BornKilledExactly`, `ProcKills.KillZeroThenFork`).
* `findPriority` for one of the priority queues can choose a process of another queue: exactly when one
  of the same priority, behind the first top candidate, has run less often than all candidates of that
  priority, or as often as the least of them and stands before it (`Scheduler.StraysExactly`,
  `Scheduler.StrayChosen`).
* A reader of a pipe can be left asleep on a pipe that is not empty: exactly when a killed writer
  still stores something and then finds the pipe full, which it leaves without a wakeup
  (`PipeModel.ReadersNeverMissed`, `PipeModel.KilledWriterStrandsReader`).
* `malloc` returns a block that is large enough exactly when rounding the request up does not wrap
  (`Heap.UnitsSuffice`); the largest request is answered with a block of no bytes
  (`Heap.AnswerLargestRequest`).  `morecore` obtains the memory it hands out exactly when the request
  is below half the address space, as `sbrk` takes a signed int (`Heap.SbrkAsksEnough`,
  `Heap.HalfTheSpaceShrinks`, `Heap.Arena.Malloc`).

Locked sections are atomic steps, except in `SleepWakeup`.  Addresses of the user heap are in header
units, pages are named by number, sequence numbers of processes (pids and how often a process has been
scheduled) are unbounded.  What the
kernel has to give (`grant` in `Malloc`) and what a disk image looks like at start are parameters.

## Model

| member | source | states |
|---|---|---|
| `Log.HeadRoundTrip` | log.c:84-110 | the header block has the count in word 0 and the i-th block number in word i + 1; the list reads back, and the words behind it keep their values |
| `Log.RecoverAt` | log.c:112-118 | recovery gives every listed home block its logged content, empties the header and leaves every other block alone |
| `Log.RecoverIdempotent` | log.c:112-118 | recovering a recovered disk changes no home block |
| `LogHistory.AllOrNothing` | log.c:120-168 | a prefix of the history that ends at a quiet point contains all or none of each operation |
| `LogProofs.RoomForOp` | log.c:121-136 | log length plus the unused shares of running operations never exceeds LOGSIZE, so a running operation within its share has room |
| `LogProofs.BeginKeepsInv` | log.c:121-136 | starting an operation keeps the protocol invariant |
| `LogProofs.LogWriteKeepsInv` | log.c:205-224 | logging a block keeps it, with absorption, distinct listed blocks and the pinned overlay equal to the replayed history |
| `LogProofs.EndKeepsInv` | log.c:140-168 | ending an operation keeps it; nobody is inside an operation while a commit runs |
| `LogProofs.WriteLogKeepsInv` | log.c:171-183 | copying a block to the log is invisible to recovery |
| `LogProofs.CommitPoint` | log.c:99-110 | the header write is the one disk write that makes the whole group of operations recoverable |
| `LogProofs.InstallStepKeepsInv` | log.c:70-81 | installing a block changes nothing recovery would produce |
| `LogProofs.EraseKeepsInv` | log.c:185-194 | erasing the header after installing loses nothing |
| `LogProofs.RebootKeepsInv` | log.c:84-118 | reading the header after a crash, also in the middle of an earlier recovery, re-establishes the invariant |
| `LogProofs.StepKeepsInv` | log.c:112-224 | every step of the system, a crash included, keeps the invariant |
| `LogRuns.CrashAtomicity` | log.c:70-194 | in every run with crashes after any disk write, recovery yields exactly a prefix of the history that splits no operation, and recovering again changes nothing |
| `LogRuns.DurableIsForever` | log.c:185-194 | no step shortens or changes the durable part of the history |
| `LogRuns.QuietMeansDurable` | log.c:140-194 | with no operation running everything is durable and at home, and nothing is pinned |
| `LogRuns.ReadersSeeHistory` | log.c:185-224 | outside recovery every reader of a block sees the replay of all writes so far |
| `LogRuns.EndOpNeverPanics` | log.c:140-168 | in every run `end_op` never finds `committing` set |
| `LogRuns.FullHeaderPanics` | log.c:205-221 | with more than LOGSIZE blocks in the log, a call within the share panics if and only if the header is full, and then the block is listed and every running operation has used its share |
| `LogRuns.FullHeaderReached` | log.c:205-221 | for every such log, a run in which this happens |
| `LogRuns.InShareNeverSafe` | log.c:205-221 | for every size of the log some run has a call within the share that panics |
| `LogRuns.LogWritePanicsExactly` | log.c:205-212 | calls within the share on blocks not listed yet never panic, in all runs, if and only if the log has more than LOGSIZE blocks |
| `LogRuns.FullCommitReached` | log.c:140-168 | for every log of more than LOGSIZE blocks, a run in which a commit has LOGSIZE blocks to write |
| `LogRuns.WritesStayPut` | log.c:70-194 | each disk write of commit and recovery hits the log region, or the listed home block outside it; no other step writes |
| `LogRace.RaceIsHarmless` | log.c:205-224 | with guard and append apart and more than LOGSIZE blocks in the log, every state reached is one of the protocol, and the list fits into the log |
| `LogRace.TwoPassTheGuard` | log.c:209-221 | for every smaller log of two blocks or more, a run in which two calls pass the guard and the list outgrows the log |
| `LogRace.OverflowsExactly` | log.c:205-224 | the list fits into the log in all runs if and only if the log has more than LOGSIZE blocks |
| `LruList.MoveToFrontLinked` | bio.c:116-136 | the pointer surgery of `brelse` leaves the circular list threaded through the same buffers with the released one first |
| `LruList.MoveToFrontOrdered` | bio.c:116-136 | moving to the front keeps the list ordered by time of release |
| `CacheModel.LookupMeans` | bio.c:66-74 | the first scan finds a buffer if and only if one caches the block |
| `CacheModel.VictimIsOldest` | bio.c:76-90 | the second scan takes the least recently released buffer that is neither referenced nor dirty, and fails only when there is none |
| `CacheModel.GetKeepsInv` | bio.c:60-91 | `bget` keeps the list a permutation of the buffers and never caches a block twice |
| `CacheModel.BwriteKeepsInv` | bio.c:106-112 | writing a buffer back keeps cache and disk coherent |
| `CacheModel.PinKeepsInv` | log.c:222 | marking a buffer dirty keeps coherence and pins its block |
| `CacheModel.BrelseKeepsInv` | bio.c:116-136 | releasing a buffer keeps list, coherence and order of release; the last release brings it to the front, any other leaves the list alone |
| `CacheModel.BreadIsLatest` | bio.c:94-103 | `bread` returns the content last logged or written, cached or not |
| `CacheEffects.Room` | bio.c:76-90 | `bget` succeeds as long as pinned blocks and held buffers leave one buffer over |
| `CacheEffects.RoomExactly` | bio.c:60-90 | whoever references which buffers, `bget` panics if and only if every buffer is dirty or referenced and none has the block |
| `CacheEffects.ReadEffect` | bio.c:94-103 | `bread` changes neither disk, pinned blocks nor held buffers other than its own |
| `BufferCache.BCache.constructor` | bio.c:38-55 | `binit` threads the list through all buffers |
| `BufferCache.BCache.Bget` | bio.c:60-91 | the two scans compute the buffer of the model, and -1 only where it panics |
| `BufferCache.BCache.Bread` | bio.c:94-103 | `bread` of a block nobody holds computes the model's read, or panics exactly where `bget` does |
| `BufferCache.BCache.ScanCached` | bio.c:66-74 | the forward scan over the list pointers is the model's lookup |
| `BufferCache.BCache.ScanIdle` | bio.c:79-90 | the backward scan over the list pointers is the model's victim |
| `BufferCache.BCache.Load` | memide.c:37-57 | an invalid buffer gets the disk block |
| `BufferCache.BCache.WriteBack` | bio.c:106-112 | the disk block gets the buffer and the dirty flag is cleared |
| `BufferCache.BCache.Release` | bio.c:116-136 | gives up lock and reference; the last reference moves the buffer to the front by relinking pointers |
| `CacheRuns.CountsExactly` | bio.c:60-136 | in every run a reference count is the number of calls that took the buffer less those that released it |
| `CacheRuns.LockedExactly` | bio.c:60-136 | in every run a buffer is locked exactly from `acquiresleep` to `brelse` |
| `CacheRuns.ListIsRecency` | bio.c:116-136 | in every run the list has the buffers in the order of their last release, the latest first, told from the calls alone |
| `CacheRuns.VictimIsLeastRecent` | bio.c:76-90 | in every run `bget` recycles, of the buffers that nobody holds and that are not dirty, the one released longest ago, and fails if and only if there is none |
| `CacheRuns.ReleaseEffect` | bio.c:116-136 | the last release turns the list x + [i] + y into [i] + x + y, any other leaves it; the buffer is unlocked with one reference less and nothing else changes |
| `LogDevice.LogDev.WriteLogBlock` | log.c:175-181 | one turn is one protocol step, or a panic if and only if listed blocks and buffers referenced by others are NBUF or more |
| `LogDevice.LogDev.WriteLog` | log.c:171-183 | every turn of the loop is one protocol step on the cache, with the buffers of others untouched; it panics exactly if its first turn does |
| `LogDevice.LogDev.WriteHeader` | log.c:99-110 | the header block on disk becomes the list in memory, one protocol step, or a panic exactly where `bget` finds no buffer |
| `LogDevice.LogDev.InstallBlock` | log.c:74-80 | one turn is one protocol step, or a panic exactly where `bget` finds no buffer for the log block |
| `LogDevice.LogDev.InstallTrans` | log.c:70-81 | every turn of the loop is one protocol step, with the buffers of others untouched |
| `LogDevice.LogDev.Commit` | log.c:185-194 | while others reference the buffers in h, a commit of n blocks is exactly 2n + 2 protocol steps, or panics for lack of a buffer before the first of them, if and only if n and the size of h are NBUF or more together |
| `LogDevice.NoBufferLeft` | log.c:171-183 | in `write_log` a log block finds no buffer if and only if listed blocks and buffers referenced by others are NBUF or more |
| `LogDevice.LogDev.ReadHeader` | log.c:84-94 | the list in memory becomes the one in the header block |
| `LogDevice.LogDev.RecoverFromLog` | log.c:112-118 | the disk becomes its recovery and the log serves |
| `LogDevice.LogDev.TryBeginOp` | log.c:121-136 | while serving or during a commit, an operation starts if and only if `committing` is not set and its share is free |
| `LogDevice.LogDev.LogWriteBuf` | log.c:205-224 | logs the buffer's content and appends its block to the list unless it is there; panics if and only if the list is as long as header or log, or no operation runs |
| `LogDevice.LogDev.EndOperation` | log.c:140-168 | the last operation of a group commits for all of them, otherwise only the count drops; panics if and only if it is the last and the listed blocks and the buffers referenced by others are NBUF or more |
| `LogDevice.RecoveryDone` | log.c:112-118 | installing all listed blocks and erasing the header is the function Recover |
| `LogWitness.LogBlock` | log.c:196-224 | `bread`, `log_write` and `brelse` of a home block are one protocol step, or the panics of `log_write` |
| `LogWitness.RunOutOfBuffers` | log.c:140-183 | from power-on, the code reaches a commit that panics for lack of a buffer: on every log of more than LOGSIZE blocks, and with one reader on every log of LOGSIZE |
| `Bitmap.PutBitBits` | fs.c:64-68 | setting or clearing one bit of a free-map block changes that bit only |
| `Dinodes.DinodeRoundTrip` | fs.c:221-228 | an inode stored in its place reads back and its neighbours are untouched |
| `FileModel.BallocEffect` | fs.c:43-77 | allocating marks one free block, zeroes it and changes no pointer |
| `FileModel.AllocSlotExtends` | fs.c:366-383 | filling an empty pointer keeps every block owned exactly once, by one slot of one inode, and marked in use exactly if owned |
| `FileModel.BmapExtends` | fs.c:361-388 | `bmap` adds pointers to that inode only, keeps ownership, and changes nothing when the block exists |
| `FileContent.WriteLoopEffect` | fs.c:482-488 | the loop of `writei` stores exactly the source bytes, over block boundaries and through `bmap`, and keeps ownership |
| `FileWrite.IupdateInodes` | fs.c:216-231 | the inode on disk becomes the one in memory, no other inode on disk changes |
| `FileWrite.WriteiRefuses` | fs.c:477-480 | the 32-bit checks refuse a write if and only if it starts behind the end or ends past the largest file |
| `FileWrite.WriteiKeepsFiles` | fs.c:466-495 | `writei` keeps ownership, no holes below the size, and the inode cache write-through although it updates the inode only when the file grows |
| `FileWrite.WriteiContent` | fs.c:466-495 | the file becomes old[..off] + src + old[off+n..], its size the maximum, every other file and inode stays |
| `FileWrite.ReadiContent` | fs.c:438-461 | `readi` returns the clipped slice of the file and allocates nothing, or refuses exactly outside the file |
| `FileTrunc.ItruncFrees` | fs.c:395-422 | `itrunc` never frees a free block, clears exactly the bits of the file's blocks, leaves it empty and every other file as it was |
| `FileBudget.BmapLog` | fs.c:361-388 | `bmap` logs at most the block, the indirect block and their free-map blocks |
| `FileBudget.ChunkFitsBudget` | file.c:119-146 | one chunk of `filewrite` to a file without holes logs at most MAXOPBLOCKS distinct blocks, for every disk size and offset |
| `FileTight.FreshLoop` | fs.c:482-488 | a chunk over holes gets through if and only if there are enough free blocks, and logs exactly these, their free-map blocks and an indirect block that was there |
| `FileTight.ChunkBudgetExactly` | file.c:119-146 | in every state with blocks owned once, holes or not, one chunk logs at most MAXOPBLOCKS + 1 blocks, and that many if and only if it covers four holes, needs the indirect block, grows the file, and the next five free blocks lie in five parts of the free map |
| `FileTight.TenIsReached` | file.c:119-146 | a chunk that starts inside block 11 of a file without indirect block logs exactly MAXOPBLOCKS blocks whenever the next four free blocks lie in four parts of the free map |
| `FileTight.HoleNeedsEleven` | file.c:119-146 | with a hole at block 11 and five parts it logs one more |
| `SpreadImage.BudgetIsTight` | file.c:119-146 | a file system in good order where such a chunk logs MAXOPBLOCKS blocks |
| `SpreadImage.HolesBreakBudget` | file.c:119-146 | a file system in good order but for one file with a hole where it logs one more |
| `SpreadImage.ImageOwned` | fs.c:43-77 | on these images every block is marked in use exactly if metadata or owned, and owned once |
| `FileTrace.WriteiTraces` | fs.c:466-495 | all a `writei` does to the disk is a sequence of log writes to blocks behind the log, whose replay gives the new blocks |
| `FileTrace.ItruncTraces` | fs.c:395-422 | so is all an `itrunc` does |
| `FileSystem.Files.AllocBlock` | fs.c:56-77 | allocates the first free block, or panics exactly when there is none |
| `FileSystem.Files.FreeBlock` | fs.c:80-93 | clears the bit, or panics exactly for a free block |
| `FileSystem.Files.MapBlock` | fs.c:361-388 | computes `bmap` in place and returns the block |
| `FileSystem.Files.UpdateInode` | fs.c:216-231 | computes `iupdate` in place |
| `FileSystem.Files.TruncInode` | fs.c:395-422 | computes `itrunc` in place and keeps the file layer's invariant |
| `FileSystem.Files.ReadInode` | fs.c:438-461 | returns the slice of the file, or -1 exactly outside it |
| `FileSystem.Files.WriteInode` | fs.c:466-495 | computes `writei` in place, with its refusals and the panic of `balloc` |
| `FileSystem.Files.FileWriteAll` | file.c:111-149 | writes the data in chunks, each within the log budget, and leaves the last of the states between them; returns n exactly when all of it fits, and otherwise -1 with the chunks that fitted written; panics only on a full disk |
| `FileCrash.FilewriteIs` | file.c:119-146 | every `filewrite` to a file system in good order is a sequence of operations whose states are those between its chunks and whose writes are those `writei` logs |
| `FileCrash.WholeOps` | log.c:120-168 | a quiet point among operations run one after another lies between two of them |
| `FileCrash.MountFinds` | fs.c:280-304 | loading the inodes from a disk that agrees behind the log finds the same inodes, files and free map |
| `FileCrash.CrashLeavesWholeChunks` | file.c:119-146 | in every run, a crash at any moment of a `filewrite` leaves after recovery a file system in good order with the first k chunks written, for some k, and nothing else changed |
| `ChunkRuns.OpGoesThrough` | log.c:121-224 | an operation within its share that runs alone never panics and is committed |
| `ChunkRuns.FilewriteGoesThrough` | file.c:119-146 | alone on the system, every `filewrite` has a run in which all its chunks get through the log, and then the disk holds, outside the log, exactly the blocks of the state it leaves |
| `FileTransactions.PerformKeeps` | fs.c:216-495 | `writei`, an `iupdate` with new fields and the freeing of an inode keep what the file layer relies on |
| `FileTransactions.PerformTraces` | fs.c:216-495 | and change the disk by log writes only |
| `FileTransactions.StoryExists` | fs.c:216-495 | every interleaving of operations made of such calls, none of them refused, has states and a history |
| `FileTransactions.CrashLeavesWholeOperations` | log.c:70-224 | in every run of interleaved operations, a crash at any moment leaves after recovery and mount a file system in good order, with the inodes and files as they were at a point with no operation under way |
| `FileTransactions.NoOperationIsSplit` | log.c:120-168 | no operation has done something before that point and something after it |
| `FileImage.BlankImageOk` | mkfs.c:114-115 | zeroed blocks with exactly the metadata marked in use satisfy everything the file layer relies on |
| `DiskFormat.InodeOnDisk` | fs.h:29-42 | every field of inode i at its bytes, from 64 * (i % 8) on in block i / 8 of the inode area |
| `DiskFormat.FreeBitOnDisk` | fs.c:56-93 | block b is in use if and only if bit b % 8 of byte b / 8 of the free map is set |
| `DiskFormat.FileByteOnDisk` | fs.c:361-388 | byte q of a file is byte q % 512 of the block named by pointer q / 512, or by entry q / 512 - 12 of the indirect block |
| `DiskFormat.EntryOnDisk` | fs.h:53-56 | a directory entry has its inode number in two bytes and then its name up to a NUL |
| `DirModel.LinkMap` | fs.c:545-558 | an entry put where none was in use adds one name to the map |
| `DirModel.UnlinkMap` | sysfile.c:208-210 | clearing an entry takes its name out of the map |
| `DirModel.NewEntryIs` | fs.c:553-554 | the padded, cut name and the 16-bit inode number read back |
| `Directory.Namecmp` | fs.c:500-503 | zero if and only if the names agree after cutting to DIRSIZ bytes |
| `Directory.DirLookup` | fs.c:507-530 | finds the inode number the map gives for the cut name, and the entry's offset, or nothing exactly when the name is absent |
| `Directory.AddEntry` | fs.c:545-558 | adds a name that is not there to the map in the first entry not in use, by one `writei`, and touches no other file; panics only with every entry in use and the disk or the directory full |
| `Directory.ClearEntry` | sysfile.c:208-210 | the name leaves the map, every other file stays, and the write never fails |
| `Paths.ElementsAreComponents` | fs.c:576-598 | repeated `skipelem` delivers exactly the non-empty parts between slashes, each cut to DIRSIZ bytes |
| `Paths.Skipelem` | fs.c:576-598 | returns the next component and where the rest starts, or nothing when only slashes are left |
| `InodeCache.FreedInode` | fs.c:329-335 | freeing an inode gives back exactly its blocks, leaves it empty and without type, on disk too, and touches no other file |
| `InodeCache.PutOrphansNothing` | fs.c:323-342 | giving up a reference keeps it true that an inode in use has a link or a loaded cache entry |
| `InodeCache.Icache.Iget` | fs.c:236-266 | one more reference on that inode and on no other, in its slot or else the first free one, one slot per inode, panic exactly without a free slot |
| `InodeCache.Icache.Idup` | fs.c:270-276 | one more reference on that inode and on no other |
| `InodeCache.Icache.Ilock` | fs.c:281-304 | loads the entry, moves no reference, panics exactly for an inode without type that was not loaded |
| `InodeCache.Icache.Iput` | fs.c:323-342 | one reference less on that inode and on no other; the inode is freed if and only if it was the last reference, the entry is loaded and there is no link |
| `Namex.NotTheLast` | fs.c:604-636 | where living directories name only living inodes, the reference of a walk is never the last one on an unlinked inode |
| `Namex.Dirlink` | fs.c:533-559 | refuses a name that is there, taking and giving up one reference to its inode, else adds it to the map; panics only without a free cache slot or without room |
| `Namex.Walk` | fs.c:613-630 | from a reference held on some inode, the loop leads where folding the directory maps over the components leads, and leaves the references it found but for the one moved there, or given up on failure |
| `Namex.Namex` | fs.c:604-636 | starts at the root if and only if the path begins with a slash, else in the current directory, and leads where folding the directory maps over the components leads, leaving one extra reference on that inode, or none anywhere on failure; frees no inode; panics only with every cache slot in use |
| `HeapModel.Conservation` | umalloc.c:24-87 | units free plus units allocated are all units |
| `HeapModel.TilesDisjoint` | umalloc.c:24-87 | blocks never overlap |
| `HeapModel.ReleaseLive` | umalloc.c:24-43 | giving a block back removes exactly that block from those in use |
| `HeapModel.ReleaseCoalesced` | umalloc.c:32-41 | after joining no two free blocks are neighbours |
| `HeapModel.TakeLive` | umalloc.c:72-79 | taking units adds exactly one block in use, at an address no block in use has |
| `HeapRing.RightTest` | umalloc.c:32 | the first address test recognises exactly a free block right behind |
| `HeapRing.LeftTest` | umalloc.c:37 | the second address test recognises exactly a free block right before |
| `HeapRing.RelinkKeeps` | umalloc.c:32-42 | the pointer and size assignments of `free` restore the circular, address-ordered, coalesced list and the tiling |
| `HeapRing.CarveKeeps` | umalloc.c:72-80 | so do those of `malloc` |
| `Heap.UnitsSuffice` | umalloc.c:66 | the block is large enough if and only if rounding up does not wrap, and then the smallest such |
| `Heap.LargestRequestWraps` | umalloc.c:66 | the largest request is rounded to a header alone |
| `Heap.AnswerLargestRequest` | umalloc.c:61-81 | with any free block it is then answered by a block without a byte of the request |
| `Heap.SbrkAsksEnough` | umalloc.c:52 | `sbrk` is asked for the block's memory if and only if that is below half the address space |
| `Heap.HalfTheSpaceShrinks` | umalloc.c:52 | from half the address space on it is asked to shrink, and for all of it to do nothing |
| `Heap.SearchStops` | umalloc.c:29-31 | the search conditions hold at exactly one place of the list, the right one |
| `Heap.FreeApart` | umalloc.c:32-41 | two free blocks never touch |
| `Heap.UnitsConserved` | umalloc.c:24-87 | units free plus units in use equal the units obtained from `sbrk` |
| `Heap.Arena.FindGap` | umalloc.c:29-31 | the circular search ends at the last free block before the one given back |
| `Heap.Arena.Free` | umalloc.c:24-43 | exactly that block goes back and joins its free neighbours; every other block in use stays |
| `HeapRing.ForeignKeeps` | umalloc.c:45-59 | memory others obtain from `sbrk` keeps the list, the tiling and the coalescing as they are |
| `Heap.Arena.OtherSbrk` | sysproc.c:41-51 | somebody else's growth changes no block and makes no block fit |
| `Heap.Arena.Morecore` | umalloc.c:45-59 | the heap grows at the break, wherever others have moved it, by the request or 4096 units, whichever is more, in one free block, exactly when the memory is granted and fits below the kernel; else nothing changes |
| `Heap.Arena.TakeFrom` | umalloc.c:72-81 | takes the whole block or its tail, at the end of the free block |
| `Heap.Arena.Malloc` | umalloc.c:61-87 | returns a block disjoint from all in use and from the memory of others, next fit from the list pointer, growing at most once and only when no free block is large enough; none exactly when growing is refused |
| `PageModel.PopKeeps` | kalloc.c:80-92 | the first free page leaves the free list and is in hand |
| `PageModel.PushKeeps` | kalloc.c:58-75 | a page in hand goes back and no translation changes |
| `PageModel.TableKeeps` | vm.c:43-50 | entering a zeroed page as a table changes no translation |
| `PageModel.StoreChangesOne` | vm.c:70 | storing a page-table word changes that one translation of that one address space |
| `PageModel.MapUserKeeps` | vm.c:66-70 | mapping a page in hand into the user half keeps every page in exactly one use |
| `PageModel.UnmapKeeps` | vm.c:259-265 | clearing a user mapping puts its page in hand |
| `PageModel.RetireKeeps` | vm.c:273-287 | an address space can be given up as nothing else refers to its pages |
| `PageFrames.KernelMapOk` | vm.c:102-112 | the kernel's four mappings do not overlap and lie in the kernel half, wherever its data starts |
| `PageFrames.KernelSees` | vm.c:87-112 | in every address space with the kernel's mappings, what each kernel page reaches and allows: physical memory, writable except for the kernel's text, and devices, nothing of it to the user |
| `PageFrames.KernelStays` | vm.c:213-332 | changes below KERNBASE leave the kernel's mappings alone |
| `PageFrames.AccessByTable` | vm.c:34-77 | what user and kernel may do at an address is what its table entry says: the directory entries take nothing away |
| `PageTables.Machine.constructor` | kalloc.c:45-51 | every page from the end of the kernel to the end of physical memory is on the free list once |
| `PageTables.Machine.Kalloc` | kalloc.c:80-92 | takes the first free page, 0 exactly when there is none |
| `PageTables.Machine.Kfree` | kalloc.c:58-75 | the page is filled and put on the list, panic exactly outside the managed range |
| `PageTables.Machine.Walkpgdir` | vm.c:34-53 | finds or makes the table for an address without changing any translation, 0 exactly when absent and not to be made or without memory; the directory entry it makes allows users to write |
| `PageTables.Machine.MakeTable` | vm.c:43-50 | takes a free page as an empty table, present, writable and open to users, changing no translation, or 0 exactly when none is free |
| `PageTables.Machine.Mappages` | vm.c:58-77 | maps a range page by page in order, stops only at a missing table without a free page, panics if and only if it comes to a page that is mapped, and changes nothing else |
| `PageTables.Machine.DeallocPage` | vm.c:259-266 | frees the page and clears the entry |
| `PageTables.Machine.Deallocuvm` | vm.c:246-269 | exactly the user pages between the two sizes go back to the free list |
| `PageTables.Machine.Freevm` | vm.c:273-287 | every page of the address space, tables and directory included, goes back, and no other |
| `PageTables.Machine.Setupkvm` | vm.c:115-133 | a new address space with exactly the kernel's mappings and an empty user half, if and only if the pages for its directory and tables are free; else no page changes use |
| `PageTables.Machine.Allocuvm` | vm.c:213-240 | all the pages asked for, each its own, zeroed and open to reading and writing by the user through both levels, if and only if there are free pages for them and the tables they lack; else no page in the range, and only tables remain; panics if and only if it gets as far as a page that is mapped |
| `PageTables.Machine.Copyuvm` | vm.c:303-332 | every page copied with the same contents and the same access into pages that were free, under the kernel's mappings, if and only if enough pages are free; else no page changes use; the parent is untouched; panics if and only if it gets as far as a page that is not there |
| `PageFrames.NoSharing` | vm.c:213-332 | two user translations reach the same physical page if and only if they are the same one, and never a free page |
| `PageFrames.Partition` | kalloc.c:58-92 | every page of the allocator is free, in hand or used by exactly one address space |
| `ProcProofs.AllocKeeps` | proc.c:93-119 | taking the first unused slot keeps the invariant of the process table |
| `ProcProofs.AbortKeeps` | proc.c:121-125 | so does giving the slot up without memory |
| `ProcProofs.LaunchKeeps` | proc.c:268-272 | so does making the child runnable |
| `ProcProofs.ExitKeeps` | proc.c:319-335 | so does exit: the parent is awake before there is a zombie, children get a live parent |
| `ProcProofs.ReapKeeps` | proc.c:351-368 | so does reaping |
| `ProcProofs.WaitSleepKeeps` | proc.c:371-378 | so does going to sleep in `wait`, which is on the caller's own channel and without a zombie child |
| `ProcProofs.KillKeeps` | proc.c:643-671 | so does kill, which marks one slot, makes it runnable if it sleeps, and changes no other |
| `ProcProofs.RunKeeps` | proc.c:403-508 | so does running any runnable process on an idle processor |
| `ProcProofs.StepKeeps` | proc.c:88-671 | every step keeps the invariant |
| `ProcSteps.LifeCycle` | proc.c:88-671 | from which state to which each step takes the process it is about |
| `ProcSteps.SubjectFields` | proc.c:88-671 | what each step makes of pid, parent, killed mark, channel, priority, count and queue of that process |
| `ProcSteps.OtherSlots` | proc.c:319-335 | to every other process a step does nothing but wake it or, when its parent exits, give it to init |
| `ProcSteps.Processors` | proc.c:390-550 | which processor each step takes or leaves |
| `ProcSteps.KillWakes` | proc.c:643-671 | in every run, right after a `kill` its target is marked and not asleep, runnable if it slept, and no other slot has changed |
| `ProcRuns.OneProcessorEach` | proc.c:390-550 | in every run a process is RUNNING if and only if it is current on some processor, and then on exactly one |
| `ProcRuns.ParentsLive` | proc.c:234-380 | in every run whoever has a parent has one that is neither unused nor a zombie |
| `ProcRuns.ZombiesCanBeReaped` | proc.c:280-380 | in every run every zombie has a live parent that is not asleep inside `wait`, on whatever channel |
| `ProcRuns.NoExitMissed` | proc.c:280-380 | told from the steps alone: in every run a process asleep since it went to sleep in `wait` has no child that has exited |
| `ProcRuns.PidsDistinct` | proc.c:116 | in every run processes have different pids |
| `ProcRuns.ReapedOnce` | proc.c:351-368 | no two reaping steps of a run return the same pid |
| `ProcRuns.EveryPidAccounted` | proc.c:88-380 | every pid handed out is in the table, was reaped or belonged to a failed fork, and only one of these |
| `ProcKills.MarkedExactly` | proc.c:643-671 | in every run a slot is marked killed if and only if a `kill` marked it since it was last reaped |
| `ProcKills.KillHits` | proc.c:643-671 | in every run `kill` marks the process with that pid if there is one, and an unused slot if and only if the pid is 0 or one of a failed fork |
| `ProcKills.BornKilledExactly` | proc.c:88-116 | in every run a child is born killed if and only if its slot carries the mark of such a `kill` |
| `ProcKills.KillZeroThenFork` | proc.c:643-671 | a run in which `kill(0)` and a fork make one |
| `ProcTable.Ptable.AllocProc` | proc.c:93-119 | the scan takes the first unused slot, none exactly when there is none |
| `ProcTable.Ptable.Wakeup1` | proc.c:620-630 | exactly the sleepers on the channel become runnable |
| `ProcTable.Ptable.PassChildren` | proc.c:324-331 | the children go to init, which is woken exactly if one is a zombie |
| `ProcTable.Ptable.Exit` | proc.c:319-335 | the locked part of exit as one step |
| `ProcTable.Ptable.Wait` | proc.c:347-379 | reaps the first zombie child, clearing its slot, else returns -1 exactly without children or when killed, else sleeps on its own channel |
| `ProcTable.Ptable.Kill` | proc.c:643-671 | marks the first slot with the pid and makes it runnable if it sleeps, -1 exactly when there is none |
| `SleepWakeup.StepKeepsSleepers` | proc.c:574-638 | every single acquire, release and assignment keeps it true that whoever sleeps, or is about to, has nothing to consume or a wakeup coming |
| `SleepWakeup.NoLostWakeup` | proc.c:574-638 | for any number of producers and consumers and in every run, a thread asleep on a counter that is not zero has a wakeup coming, whether producers wake before or after releasing the lock |
| `SleepWakeup.MutualExclusion` | sleep1.p:61-70 | at most one thread holds either lock |
| `SleepWakeup.NoDeadlock` | sleep1.p:99-141 | in every run some thread can move unless all of them sleep on a zero counter |
| `SleepWakeup.CounterExact` | sleep1.p:61-141 | in every run the counter is its first value, plus the producers that have added, less the consumers that are through |
| `ProcRuns.BootPossible` | proc.c:153-209 | there is a table as `userinit` leaves it, of any size, for any number of processors |
| `Scheduler.FindPriority` | proc.c:748-792 | there is a choice if and only if the mode has a candidate: the first of those that have run least often among all runnable processes that have the priority of the first top candidate and come behind it; in mode 3 the first of those minimal in priority and times run |
| `Scheduler.StraysExactly` | proc.c:748-792 | exactly when modes 1 and 2 choose a process of another queue |
| `Scheduler.StrayChosen` | proc.c:748-792 | a table in which mode 1 does |
| `Scheduler.PassedOverAtMost` | proc.c:403-420 | a process that stays ready at the best priority is passed over at most until its peers have caught up |
| `Scheduler.PassedOverExactly` | proc.c:403-420 | exactly that often when its peers are ready |
| `PipeModel.StepKeeps` | pipe.c:58-117 | every step keeps delivery order, the bound and the writers' wakeups |
| `PipeModel.FirstInFirstOut` | pipe.c:76-117 | in every run bytes delivered are a prefix of bytes stored, at most PIPESIZE behind |
| `PipeModel.WritersNeverMissed` | pipe.c:58-117 | in every run a sleeping writer faces a full pipe with an open reading end |
| `PipeModel.WriteKeepsCalm` | pipe.c:81-94 | a writer's turn leaves a reader asleep on a readable pipe if and only if it is killed and cut short |
| `PipeModel.ReadersNeverMissed` | pipe.c:58-117 | no reader sleeps on a readable or write-closed pipe in a run if and only if no killed writer is cut short in it |
| `PipeModel.KilledWriterStrandsReader` | pipe.c:82-86 | a run in which this happens |
| `PipeBuffer.Wrapping` | pipe.c:82-110 | wrapped counters decide full and empty and index the ring like unbounded ones |
| `PipeBuffer.Ring.Write` | pipe.c:76-95 | stores exactly what fits, in order, and says whether to finish, give up or sleep |
| `PipeBuffer.Ring.Read` | pipe.c:97-117 | returns the oldest bytes in order, or says whether to give up or sleep |
| `PipeBuffer.WriteIsTurn` | pipe.c:76-95 | the writer's turn of the protocol from what the buffer reports; readers are woken unless it gives up |
| `PipeBuffer.ReadIsTurn` | pipe.c:97-117 | the reader's turn of the protocol from what the buffer reports; writers are woken when it finishes |
| `PipeBuffer.Ring.Wakeup` | proc.c:620-638 | exactly the processes asleep on the channel are awake |
| `PipeBuffer.Ring.WriteTurn` | pipe.c:76-95 | the code of `pipewrite` on the ring, with its wakeups, is the writer's turn of the protocol; it finishes if and only if all bytes left were stored, gives up if and only if some were not and the reading end is closed or the caller killed, and else sleeps |
| `PipeBuffer.Ring.ReadTurn` | pipe.c:97-117 | the code of `piperead` on the ring, with its wakeup, is the reader's turn of the protocol; it gives up or sleeps only on an empty pipe that is open for writing, by whether the caller is killed, and else returns the oldest bytes |
| `PipeBuffer.Ring.Close` | pipe.c:58-73 | closing an end with its wakeup is the protocol's step, and the pipe goes back exactly with both ends closed |
| `PipeCalls.WriteStoresItsData` | pipe.c:76-95 | in every run a write that returns has stored all its data in order, or a beginning of it with the reading end closed or the caller killed |
| `PipeCalls.ReadTakesOldest` | pipe.c:97-117 | a read takes the oldest bytes there are, up to what it wants, and sleeps if and only if there are none, the writing end is open and it is not killed |
| `PipeCalls.KillWakes` | proc.c:643-671 | a kill marks and wakes its target and touches nothing else of the pipe |
| `ShellGrammar.PLineSound` | sh.c:335-432 | what the parser returns is a derivation of exactly the tokens it consumed |
| `ShellGrammar.PLineComplete` | sh.c:335-432 | the parser finds every derivation, so there is at most one |
| `ShellTokens.Gettoken` | sh.c:256-298 | returns the next token and moves behind it |
| `ShellTokens.Peek` | sh.c:300-309 | tells whether the next token starts with one of the characters |
| `Shell.ParseLine` | sh.c:335-349 | agrees with the grammar's parser and terminates |
| `Shell.ParseAmps` | sh.c:340-343 | wraps one background command per & |
| `Shell.ParsePipe` | sh.c:351-361 | agrees with the grammar's parser, whose command is the line's reading (`ShellReading.PipeReads`) |
| `Shell.ParseRedirs` | sh.c:363-385 | reads all redirections, panics exactly for a missing file |
| `Shell.ParseBlock` | sh.c:387-400 | agrees with the grammar's parser |
| `Shell.ParseItems` | sh.c:415-428 | reads words and redirections, panics exactly for a stray token or too many words |
| `Shell.ParseExec` | sh.c:402-432 | agrees with the grammar's parser |
| `ShellCommand.LineWords` | sh.c:335-432 | the command has exactly the words of the line, each as often as written |
| `ShellCommand.ReadsBack` | sh.c:435-478 | with the NULs written, every string of the command reads back as its token |
| `ShellCommand.Nulterminate` | sh.c:435-478 | writes a NUL behind every string of the command and nothing else |
| `ShellReading.LineReads` | sh.c:335-432 | the command of a derivation is the one read off the tokens by precedence: the first ; outside parentheses splits, then a trailing &, then the first bar, then the last redirection comes off, then parentheses |
| `ShellReading.PipeReads` | sh.c:351-361 | so is that of a pipeline, what stands before its first bar on the left |
| `ShellPlaces.TokensFollow` | sh.c:256-298 | tokens stand in the text in order, each symbol as it is written (>> where two follow each other), with only space between them |
| `ShellPlaces.ReadingWritten` | sh.c:335-432 | every part of that command stands where it was written: left and right of a pipe or list on the two sides of a bar or semicolon, a background command before its &, arguments in order, every file behind its operator with that operator's mode and descriptor |
| `ShellCommand.ParseCmd` | sh.c:319-333 | succeeds exactly on lines of the grammar; the command is the line's reading by precedence, with every part where it was written and exactly the words of the line, each of which reads back from the buffer as its token |
| `Grep.MatchHere` | grep.c:83-94 | true if and only if a prefix of the text is in the pattern's language, all of it before a final $ |
| `Grep.MatchStar` | grep.c:96-103 | true if and only if some number of the character and then the rest match |
| `Grep.Match` | grep.c:72-81 | true if and only if some substring is in the pattern's language, at the start after ^ |

## Left out

- Heap.Arena.Malloc: reports a request of half the address space or more instead of following the list once a header has been written outside the heap; other callers of `sbrk` grow the memory by whole header units and do not shrink it.
- Namex.Namex: the tree does not change during the walk, and directories that have a link or a reference name only inodes that have one.
- FileCrash.CrashLeavesWholeChunks: the `filewrite` runs alone; for interleaved operations see `FileTransactions.CrashLeavesWholeOperations`, which takes each `writei`, `iupdate` and freeing as one step.
- LogDevice.LogDev.Commit: the buffers others reference stay the same during a commit; the methods for its single turns allow any.
- PageTables.Machine.Mappages: the range is not empty and does not wrap round, user pages are mapped one at a time and physical addresses are page aligned, as every caller ensures.
- ProcTable.Ptable.Kill: time accounting and the system-call history list are not modelled.
- BufferCache: one device; sleep locks are held or free, waiting for one is not modelled.
- Device inodes in `readi` and `writei`, and the panics for running out of blocks or inodes beyond reporting them.
- The initial disk image: block ownership and the absence of holes are assumed of it.
- The rotation among the multilevel queues; running, ready and sleeping times; the `infos` table, `getchildren` and system-call counters.
- `exec`, `loaduvm`, `inituvm`, trap frames and file descriptors in `fork` and `exit`.
- Link counts, `create`, `link`, `mkdir` and the rest of `sysfile.c`.
- Command nodes of the shell are values; that the source fills an exec node after wrapping it is not modelled. `runcmd` and `getcmd`.
- The read loop of grep.
- Spin locks, interrupts, hardware, boot, console, other user programs and printing.
