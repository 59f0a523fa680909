# A verified model of xv6 with a byte-range journal

This project models the parts of this xv6 kernel and its user programs that carry the most state:
the write-ahead log with group commit, the buffer cache under it, the block, inode and file layers
above it, sleep and wakeup, page tables and frames, the user-level heap, pipes, the shell's parser
and grep's matcher. Dafny 4.11 proves every statement below for all inputs, all runs or all
reachable states; `dafny verify dfyconfig.toml` checks the whole project.

Code that changes things in place is a class or a method with loops, proved against predicates and
functions on values; the theorems about crashes and interleavings are lemmas about those.

| file | what it models |
|---|---|
| Crc32 | the checksum of log.c: table-driven form, bit-serial form, what it detects |
| Basics, Blocks, LogHeader | options and sizes of sets; blocks, disk requests, the header block on disk |
| CrashSafety | commit and recovery as traces of requests; crash at any request, recovery of recovery |
| Barrier | the same commit and recovery on a drive that writes in any order between flushes |
| Damage | recovery over slots whose contents were damaged |
| Journal | log.c as a class: recovery, log_write, commit, sending exactly those traces |
| SleepWakeup, Progress, SleepLock, GroupCommit | proc.c, sleeplock.c and begin_op/end_op as interleaved steps of any number of processes |
| BufferCache | bio.c over memide.c: linked list, reference counts, pinning, what a reader sees |
| CachedLog | log.c over bio.c: the log's view is the cache's, who pins what, and the buffers a commit needs |
| FsLayout, FsOwner, FileSystem | superblock geometry, bitmap, inodes; who owns each block; balloc, bfree, bmap, iupdate |
| FileContents, FileIo, Truncate | readi, writei and itrunc on files as byte sequences |
| OrderedMode | what recovery shows of files; filewrite and its chunks |
| Transaction | transactions of writei and itrunc that meet a crash: committed, lost between two calls, lost inside one |
| Reuse | runs in which a freed block is reused for file data before the commit |
| PageTable | vm.c and kalloc.c: two-level tables, the rights they grant and the ownership of frames |
| Heap | umalloc.c |
| Pipe | pipe.c |
| Shell, Grammar | the parser of sh.c, and the language it accepts |
| Regexp | the matcher of grep.c |

How the layers meet: `BufferCache.View` is what a reader of a block is given, and every cache
operation either leaves it alone or changes the one block being stored into. `Journal.Log.view` is
that view: `CachedLog.Backs` says so of a cache and a log, and reading a block, logging a change,
writing a block at once and committing keep it (`ReadBlock`, `LogBuffer`, `WriteBuffer`,
`EndLastOp`), so the journal and the file system are stated over blocks and not over buffers.
`Journal.Log.Commit` sends a trace that satisfies `CrashSafety.CommitTrace` from a state that
satisfies `CrashSafety.Ready`; those are the hypotheses of the crash theorems, of `Barrier`, of
`OrderedMode` and of `Transaction`.

Where the source does less than one would expect, with the exact condition under which it does it:

- On a drive that reorders writes a commit is atomic if and only if it changes at most one home
  block, because there is no flush after the commit header (`Barrier.AtomicIffOneBlock`). Recovery
  does not flush before it clears the header either: a commit header on the platter guarantees the
  new state if and only if the transaction changes no home block (`Barrier.LastingIffNothing`).
- mkfs gives the log LOGSIZE blocks including the header; budgeted operations can always log their
  new blocks if and only if there are more than LOGSIZE (`GroupCommit.NewBlocksFitIff`). Even then
  log_write refuses to absorb into a full log (`GroupCommit.FullLogRefusesAbsorption`).
- malloc adds in 32 bits: the block has room for the request if and only if the request is below
  2^32 - 7 bytes, and sbrk is asked for what malloc needs if and only if that is below two gigabytes
  (`Heap.RoomIff`, `Heap.AskIff`, `Heap.HugeRequestGetsNothing`).
- A writer that is killed while it fills a pipe returns without waking the readers: a sleeping
  reader is left behind if and only if the writer is killed, a reader was asleep and more than 512
  bytes were left to write (`Pipe.Pipe.Write`, `Pipe.ReaderForgotten`).
- Direct file data is not held back until the commit. Any transaction of writes and truncations
  whose commit is lost, be it between two calls or after any direct write inside one, leaves the
  last committed volume sound, each file with its old size and the bytes written to it before its
  first truncation, provided every data block it took was free at the last commit
  (`Transaction.LostTransaction`, `Transaction.LostInWrite`). balloc looks at the cached bitmap and
  does not ensure that. A direct write to a data block is harmless whatever it writes if and only if
  the committed volume has neither block numbers nor bytes of a file in it
  (`Transaction.SafeTargetIff`). Where it has, a truncation, a write to another file and a crash give
  a committed file the other file's data (`Reuse.ReuseFromEmpty`), or make file data into block
  numbers, although the comment in writei promises a consistent structure (fs.c:514-516,
  `Reuse.IndexFromEmpty`).
- NBUF is LOGSIZE. A commit with nobody else at work never lacks a buffer when nlog is at most NBUF
  (`CachedLog.EndLastOp`, `CachedLog.IdleOutOfTheWay`); with a longer log three operations can pin
  every buffer, and the commit panics at its first bread (`CachedLog.PinEverything`). Together with
  `GroupCommit.NewBlocksFitIff`, no value of nlog avoids both panics.
- writei panics only if the volume had at most ceil(n/512) free blocks, or the header had no room
  for 2 ceil(n/512) + 3 more entries, one more in a directory; itrunc only if there was no room for the
  bitmap blocks of its own blocks and the inode block (`FileIo.Writei`, `Truncate.Itrunc`).
- The shell parses `>>` into the same node as `>`, although the two tokens are told apart
  (`Grammar.Nest` says so), and takes a command without words.

## Model

| member | source | states |
|---|---|---|
| `Crc32.CrcIsReference` | log.c:82-91 | byte-at-a-time feeding equals the bit-serial reflected CRC-32 on every byte string |
| `Crc32.RoundsByTable` | log.c:69-91 | eight clocks of any register are one table lookup xored with the shifted register |
| `Crc32.TableEntry` | log.c:69-79 | the inner loop computes entry i as eight clocks of i |
| `Crc32.InitTable` | log.c:69-79 | all 256 entries are those clocks |
| `Crc32.Checksum` | log.c:82-91 | the loop over the bytes returns the bit-serial checksum of the data |
| `Crc32.DetectsWindow` | log.c:82-91 | two equal-length strings that differ only within four consecutive bytes have different checksums |
| `Crc32.FiveBytesCanCollide` | log.c:82-91 | four is the limit: a five-byte difference that goes unnoticed |
| `Crc32.CheckValue` | log.c:82-91 | the checksum of the digits 1 to 9 is CBF43926, the published check value |
| `LogHeader.Load` | log.c:215-228 | read_head returns exactly the entries the block holds: n, block, cksum, offset and len as little-endian numbers at bytes 0, 4 + 4i, 124 + 4i, 244 + 4i and 364 + 4i |
| `LogHeader.Store` | log.c:236-250 | the block write_head builds has n and every field of every entry as little-endian bytes at those offsets, all other words as they were, and reads back as the header written |
| `LogHeader.HeadBytes` | log.c:104-110 | whatever header block is on disk, the header read from it is the one its bytes spell |
| `LogHeader.HeaderFits` | log.c:112-116 | the header fits its block, and would with up to 31 entries and no more |
| `CrashSafety.AbsorbKeeps` | log.c:462-493 | after log_write every byte that was covered still is, and so is the new range |
| `CrashSafety.AbsorbIsTight` | log.c:462-493 | no byte becomes covered outside the hull of ranges reported for its block |
| `CrashSafety.AbsorbGood` | log.c:462-493 | merging keeps one entry per block and every range inside its block |
| `CrashSafety.ReplayIsCache` | log.c:200-204 | replaying only the logged slices over the old disk gives every cached block in full |
| `CrashSafety.CommitCrashStates` | log.c:358-443 | every disk a crash can leave is either untouched at home with the old header, or a replayable committed transaction |
| `CrashSafety.InstallNext` | log.c:178-209 | installing one more slot turns its home block into the cached block, whether or not it had been installed before |
| `CrashSafety.RecoverCommitted` | log.c:178-267 | recovery stopped after any request leaves a committed transaction replayable or done |
| `CrashSafety.RecoverCleared` | log.c:257-267 | recovery with a cleared header changes no home block, wherever it stops |
| `CrashSafety.ChainKeeps` | log.c:178-267 | any number of interrupted recoveries in a row keep what the commit left |
| `CrashSafety.FullRecoveryFinishes` | log.c:257-267 | a recovery that completes leaves the old or the new home area and a cleared header |
| `CrashSafety.CrashAtomic` | log.c:178-443 | commit cut off after any request, then any number of interrupted recoveries, then a complete one: the home area is all old or all new, and which one depends only on whether the commit header was written |
| `Barrier.InOrderIsCovered` | ide.c:138-180 | a drive that writes in order is one of the drives considered |
| `Barrier.BarrierHolds` | log.c:392-427 | whatever subset of unflushed writes survives, a platter whose header names the transaction holds all its slots with matching checksums, and recovery gives the whole new state |
| `Barrier.AtomicIffOneBlock` | log.c:257-267 | with commit and any number of recoveries cut off on a reordering drive, commit is atomic exactly when it changes at most one home block |
| `Barrier.OvertakenCrash` | log.c:409-427 | the platter on which a home write overtook the commit header |
| `Barrier.TornChainKeeps` | log.c:257-267 | any number of recoveries cut off on a reordering drive leave old and new home blocks mixed under a cleared header, or a transaction that can be replayed |
| `Barrier.LastingIffNothing` | log.c:257-267 | a commit header on the platter guarantees the new state, whatever happens to the recoveries, exactly when the transaction changes no home block |
| `Barrier.ForgottenCommit` | log.c:264-266 | the platter on which the cleared header of a recovery overtook its home writes: the committed transaction is gone |
| `Damage.InstallEffect` | log.c:178-209 | after the first t entries each block is what the entries with right checksums made of it, and the others left it alone |
| `Damage.RecoveryEffect` | log.c:178-267 | the same for a completed recovery, block by block |
| `Damage.BurstChangesChecksum` | log.c:182-198 | damage within four bytes of a slot's slice is always noticed |
| `Damage.DamagedSlot` | log.c:178-209 | with one slot so damaged every other block is rebuilt in full, and its own block is either rebuilt in full or not touched |
| `Journal.Log.constructor` | log.c:137-168 | booting sends a complete recovery trace for the disk found and ends with a cleared, covered log |
| `Journal.Log.InstallTrans` | log.c:178-209 | install_trans sends the installation trace of the header and caches what it wrote |
| `Journal.Log.WriteHead` | log.c:236-250 | write_head sends one request whose block reads back as the header |
| `Journal.Log.WriteLog` | log.c:358-382 | write_log sends one slot per entry and seals each entry with the checksum of its slice |
| `Journal.Log.EndOp` | log.c:307-348 | the last operation out sends a commit trace for the batch, leaves an empty header and disk and cache equal at home; any other sends nothing |
| `Journal.Log.LogWrite` | log.c:462-493 | the header becomes the merged header, or the two panic tests say why not |
| `Journal.Log.Update` | fs.c:228-234 | changing bytes of a buffer and reporting that range keeps the header covering every byte on which cache and disk differ |
| `Journal.Log.WriteThrough` | fs.c:532 | a direct write changes disk and cache alike and keeps the header covering |
| `Journal.Log.Commit` | log.c:393-443 | commit sends a commit trace for the current header and cache, and afterwards disk and cache agree at home |
| `Journal.UpdateCovered` | log.c:462-493 | if every changed byte is reported, the merged header covers the new cache |
| `SleepWakeup.StepKeepsLocks` | proc.c:418-474 | in every interleaving each of the two locks has exactly the holder its code position says |
| `SleepWakeup.NoLostWakeup` | proc.c:418-474 | for any number of processes, whenever the guarding spinlock is free a sleeper's wait condition still holds |
| `SleepWakeup.RunKeeps` | proc.c:418-474 | at every moment of every run a waiter is blocked or a wakeup that has not reached its slot is under way |
| `SleepWakeup.DataInvariant` | proc.c:418-474 | what every guarded update keeps is true throughout every run |
| `Progress.NoDeadlock` | proc.c:418-474 | at every moment of every run each process can come to run the guarded code, by steps of schedulers and of processes that are awake, unless it waits and its wait condition still holds |
| `SleepLock.SleeperSeesHeldLock` | sleeplock.c:23-42 | a process asleep on a sleep-lock sleeps because the lock is held |
| `SleepLock.OneHolder` | sleeplock.c:23-53 | at most one process holds the lock; after acquiresleep it is the caller, after releasesleep nobody, and any process can take it |
| `SleepLock.HeldUntilReleased` | sleeplock.c:23-53 | in every run, from the step in which a process takes the lock until its own releasesleep, whatever the others do, holdingsleep is true of that process and of nobody else |
| `SleepLock.LockIsReached` | sleeplock.c:23-42 | at every moment of every run each process can come to test the lock, unless it waits for it and it is held |
| `GroupCommit.LogIsDisciplined` | log.c:274-348 | every change that lets begin_op go on is followed by a wakeup |
| `GroupCommit.LogRun` | log.c:274-348 | at every moment of every run: entries plus unused budgets fit LOGSIZE, entries are distinct, no operation runs during a commit, an idle log is empty, admitted operations are counted once, and a sleeper in begin_op is still refused |
| `GroupCommit.LogIsReached` | log.c:274-348 | at every moment of every run each process can come to look at the log, unless it waits in begin_op and is still refused |
| `GroupCommit.EveryBatchEnds` | log.c:274-348 | from every state that satisfies that invariant some run of end_op and commit steps leads to an empty idle log, in which any process that asks begin_op is admitted |
| `GroupCommit.CommitOpens` | log.c:335-347 | whoever commits and then clears committing leaves no entries and no operations, and begin_op refuses nobody |
| `GroupCommit.CommitRuns` | log.c:335-347 | a commit that has begun can always take those two steps |
| `GroupCommit.UpdateKeeps` | log.c:274-493 | each guarded step keeps that invariant |
| `GroupCommit.BeginKeeps` | log.c:274-291 | an operation that begin_op admits keeps that invariant: the worst case of all admitted operations still fits the log |
| `GroupCommit.NewBlocksFitIff` | log.c:462-469 | budgeted operations never meet the panic on a new block exactly when nlog exceeds LOGSIZE |
| `GroupCommit.PanicsOnlyWhenFull` | log.c:466-467 | with such a log the panic needs a full header with every budget spent |
| `GroupCommit.FullLogRefusesAbsorption` | log.c:466-483 | that state is reachable and even a block already logged is then refused |
| `BufferCache.UnlinkKeeps` | bio.c:132-133 | the two stores take one buffer out and leave the rest linked in order, both ways |
| `BufferCache.PushKeeps` | bio.c:134-137 | the four stores put a buffer first and leave the rest linked in order, both ways |
| `BufferCache.EvictKeepsView` | bio.c:81-90 | recycling a clean unreferenced buffer changes what no reader sees, and no block gets two buffers |
| `BufferCache.FillKeepsView` | memide.c:54-59 | a read request fills the buffer with what the block already looked like |
| `BufferCache.WriteKeepsView` | memide.c:54-59 | a write request puts on disk what readers already saw |
| `BufferCache.ChangeView` | bio.c:8-19 | storing into a held buffer changes that block for every reader and no other |
| `BufferCache.Cache.constructor` | bio.c:39-56 | binit links every buffer once and the view is the disk |
| `BufferCache.Cache.FindCached` | bio.c:69-76 | the first loop finds a buffer for the block exactly when there is one |
| `BufferCache.Cache.FindVictim` | bio.c:81-91 | the second loop returns the eligible buffer that became unused longest ago, or there is none |
| `BufferCache.Cache.Bget` | bio.c:62-93 | a cached block gains a reference; otherwise the oldest eligible buffer is recycled; panic exactly when none is eligible; the view and the list do not change |
| `BufferCache.Cache.Fill` | bio.c:97-106 | bread hands out the block as every reader sees it, or the request is out of range |
| `BufferCache.Cache.Iderw` | memide.c:39-60 | one request, with each panic, leaves the view as it was |
| `BufferCache.Cache.Change` | bio.c:8-13 | a holder that stores into the buffer changes the view of that one block |
| `BufferCache.Cache.Pin` | log.c:491 | B_DIRTY pins the buffer and changes no content |
| `BufferCache.Cache.Bwrite` | bio.c:110-116 | the disk block becomes the buffer's data and the view stays |
| `BufferCache.Cache.Brelse` | bio.c:121-141 | at the last reference the buffer moves to the front and counts as most recently dropped |
| `CachedLog.PinnedOrWritten` | bio.c:78-80 | a block whose cached copy differs from the disk is in a buffer that is pinned or held, so it cannot be recycled |
| `CachedLog.Bread` | bio.c:96-106 | a held buffer with the block as every reader sees it, pins unchanged; panic exactly when the block is not cached and every buffer is pinned or in use |
| `CachedLog.ReadBlock` | bio.c:96-106 | over cache and log together, bread gives the log's view of the block |
| `CachedLog.LogBuffer` | log.c:462-493 | changing a held buffer and logging the range keeps cache and log in agreement and pins only blocks the header names |
| `CachedLog.WriteBuffer` | fs.c:530-533 | changing a held buffer and writing it at once keeps cache and log in agreement |
| `CachedLog.ReadableIff` | bio.c:81-92 | with nobody else at work an uncached block can be read exactly when some buffer is not pinned |
| `CachedLog.Copy` | log.c:359-381 | one turn of write_log or install_trans through the cache writes the spliced block and unpins it; it never lacks a buffer when there are more buffers than header entries and buffers of others, and leaves those alone |
| `CachedLog.SendCommit` | log.c:393-443 | all requests of a commit, through the cache, do to disk and view what the trace says, never lack a buffer, leave the buffers of others alone and nothing pinned |
| `CachedLog.EndLastOp` | log.c:307-348 | the last end_op over both layers keeps them in agreement, empties the header and unpins every buffer |
| `CachedLog.IdleOutOfTheWay` | bio.c:81-92 | with nobody else at work a log no longer than the cache leaves a buffer to spare |
| `CachedLog.CommitStarves` | bio.c:81-92 | with every buffer pinned no block of the log can be read |
| `CachedLog.PinEverything` | log.c:274-291 | a run of three operations that pins all NBUF buffers when nlog exceeds LOGSIZE, so that the commit cannot read its first slot |
| `FsLayout.MarkUsed` | fs.c:68-69 | setting one bit of the bitmap marks that block and no other |
| `FsLayout.MarkFree` | fs.c:91-93 | clearing one bit frees that block and no other |
| `FsLayout.BitIs` | fs.h:44-48 | a block is in use exactly when bit b % 8 of byte b % 4096 / 8 of its bitmap block is set |
| `FsLayout.StoreInode` | fs.c:221-236 | writing an inode back changes that inode on disk and no other |
| `FsLayout.DinodeIs` | fs.h:28-42 | an inode is the 64 little-endian bytes of struct dinode, eight to a block, field by field |
| `FsOwner.OwnedGrows` | fs.c:373-400 | giving one empty slot a free block keeps every used block in exactly one place |
| `FsOwner.OwnedShrinks` | fs.c:408-435 | emptying all slots of one inode and freeing their blocks keeps it too |
| `FsOwner.RefIs` | fs.c:373-400 | block bn of a file is addrs[bn] below 12, and above that the little-endian entry bn - 12 of the block addrs[12] names |
| `FsOwner.ByteIs` | fs.c:453-476 | byte p of a file is byte p % 512 of its block p / 512 |
| `FileSystem.FileSystem.Bzero` | fs.c:43-51 | the block reads as zeros through the log |
| `FileSystem.FileSystem.FindFree` | fs.c:63-76 | the search finds the lowest free block, or there is none |
| `FileSystem.FileSystem.Balloc` | fs.c:57-78 | returns the lowest free block, zeroed and marked, everything else as it was; a panic means that no block is free and nothing has changed, or that log_write had no room with nothing logged but that block and its bitmap block |
| `FileSystem.FileSystem.Bfree` | fs.c:82-95 | frees one used block; the panic for a free block and for a full log told apart |
| `FileSystem.FileSystem.Iupdate` | fs.c:221-236 | the inode on disk becomes the inode in memory: type, major, minor, nlink, size and the thirteen addresses are at their byte offsets |
| `FileSystem.FileSystem.Bmap` | fs.c:373-400 | returns the block that addrs or the index block names for bn, the one there or a new zeroed one put there, possibly with a new index block; ownership is kept and other slots are untouched; a slot that is filled never fails, and a failing call has logged only the blocks it took, their bitmap blocks and the index |
| `FileSystem.FileSystem.EnsureIndex` | fs.c:387-388 | an index block is there afterwards, the old one or a new empty one owned by the inode |
| `FileContents.BmapKeepsBytes` | fs.c:373-400 | bmap for one inode changes no byte that this or any other file already had |
| `FileContents.WriteTurn` | fs.c:504-534 | one turn of the loop writes its piece of the file and nothing else |
| `FileIo.Readi` | fs.c:453-476 | returns the clipped range of the file's bytes, -1 exactly when the checks say so, and changes nothing |
| `FileIo.Writei` | fs.c:482-543 | the file becomes the old bytes with src written at off, every other file keeps its bytes, inodes in memory and on disk stay in step, the blocks taken are the lowest free ones and lie in the range written, only blocks of this file change on the disk itself, one at a time; at most 2 ceil(n/512) + 3 entries are added to the log, one more for a directory, and it panics only if there were at most ceil(n/512) free blocks or no room for that many entries |
| `FileIo.FinishPart` | fs.c:498-536 | at every moment between two turns of the loop the disk is as after a finished write of the bytes copied so far |
| `Truncate.FreeOwn` | fs.c:82-95 | a block taken from the inode's own slots is never already free |
| `Truncate.FreeAll` | fs.c:414-431 | the loops free exactly the blocks the inode owned, each once, and log no block but their bitmap blocks |
| `Truncate.Itrunc` | fs.c:408-435 | exactly the blocks of the inode become free, its slots are empty, other files keep their bytes and the disk is not written; at most the bitmap blocks of its own blocks and the inode block are logged, and it panics only if there was no room for those |
| `OrderedMode.HomeKeeps` | fs.c:373-476 | volumes with equal home blocks have the same owners, inodes and file contents |
| `OrderedMode.RecoveredVolume` | log.c:358-443 | after a crash during commit and any recovery all inodes are the old ones, or all inodes and files are the cached ones |
| `OrderedMode.ChunkFits` | file.c:133-140 | for every MAXOPBLOCKS of at least 4 a chunk of filewrite stays below it |
| `OrderedMode.ChunkIsLargest` | file.c:127-133 | one byte more, and the bound on its entries no longer stays below MAXOPBLOCKS |
| `OrderedMode.WriteChunk` | file.c:137-147 | one chunk is one operation: begin_op admits it exactly when its budget fits, it adds fewer than MAXOPBLOCKS entries beside any number of other operations, and is committed if it was the last; it panics only if hardly a free block is left or the log region is smaller than header plus budget |
| `OrderedMode.Filewrite` | file.c:118-156 | up to the first wait in begin_op the file has exactly the bytes reported written, at the old offset, and the offset advances by them; short only at the largest file size; with nothing outstanding it never waits; panics only as a chunk does |
| `Transaction.CommittedTransaction` | log.c:358-443 | any sequence of writei and itrunc calls whose commit header reached the disk, then any recovery: the volume is the cached one with its inodes, and every file holds exactly what all the calls, in order, made of it |
| `Transaction.ByteOrigin` | fs.c:482-543 | what the calls made of a file: each byte is the one last written there since the last truncation, or an old byte that no call touched |
| `Transaction.OrderedData` | fs.c:482-543 | wherever the crash came, a file that recovery shows longer than at the last commit holds what the calls made of it, and every byte past its old end was written by one of them |
| `Transaction.LostTransaction` | log.c:358-443 | any sequence of completed writei and itrunc calls whose commit header never reached the disk, then any recovery: if the data blocks taken were free at the last commit, the volume is the sound old one with its inodes, and every file shows its old bytes written over in place by the writes before its first truncation |
| `Transaction.LostInWrite` | fs.c:498-536 | the same when the machine stops inside a writei, after any of its direct writes: the bytes that call had got through count as its write |
| `Transaction.NotWritten` | fs.c:482-543 | in such a transaction a file that no call wrote is shown unchanged |
| `Transaction.OverwriteShows` | fs.c:532 | conversely, a byte of a file's block that differs on disk differs in the file |
| `Transaction.SafeTargetIff` | fs.c:532 | a direct write to a data block leaves the committed volume alone, for every content, exactly when that volume has neither an index nor file bytes in the block |
| `Reuse.TruncateWriteCrash` | fs.c:408-435 | truncate one file, write another, crash and boot: the block the first had is taken by balloc and comes back with the second's data, every other block as committed |
| `Reuse.ReusedData` | fs.c:57-78 | after that run the truncated file has its committed inode and the other file's bytes |
| `Reuse.ReusedIndex` | fs.c:57-78 | if the block was an index block, no assignment of owners makes the booted volume sound |
| `Reuse.ReuseFromEmpty` | fs.c:482-543 | the whole run from any settled volume with two empty files and three free blocks |
| `Reuse.IndexFromEmpty` | fs.c:386-396 | the whole run for an index block, from any settled volume with three empty files and sixteen free blocks |
| `PageTable.StorePte` | vm.c:36-55 | an entry stored through one directory's table is the entry of no other page of any directory |
| `PageTable.MapLeaf` | vm.c:60-80 | mapping a page onto a frame nobody has keeps every frame in one place |
| `PageTable.ClearLeaf` | vm.c:266-276 | freeing a frame, then clearing its entry, keeps it too, although the freed frame's fill looks like present entries |
| `PageTable.MmuIs` | vm.c:36-55 | what the MMU grants on a page, both levels taken together, is what the page's own entry says: table entries never restrict it |
| `PageTable.KernelTableOk` | vm.c:103-115 | kmap, wherever the page of data lies, maps no page twice, stays within the kernel half and opens nothing to the user |
| `PageTable.KernelView` | vm.c:103-115 | in a directory with the kernel's mappings: physical memory below PHYSTOP from KERNBASE on, all but the kernel text writable, devices at their own addresses, nothing for the user and nothing else |
| `PageTable.RoundUp` | mmu.h:90 | the pages up to there hold all bytes of the size, and the last of them holds one |
| `PageTable.Machine.Kalloc` | kalloc.c:83-95 | takes the head of the free list; 0 exactly when it is empty |
| `PageTable.Machine.Kfree` | kalloc.c:60-77 | the frame, filled with junk, joins the free frames: every frame is still either owned or free, and none is free twice |
| `PageTable.Machine.Walkpgdir` | vm.c:36-55 | finds or makes the page's table, with user and write permission in the directory entry, changing no entry of any directory |
| `PageTable.Machine.Mappages` | vm.c:60-80 | maps the pages in order to consecutive frames and changes no other entry; stops short only when no frame is left, or panics exactly at the first page already mapped |
| `PageTable.Machine.Deallocuvm` | vm.c:256-279 | frees exactly the frames of present pages in the range, each once, also across absent tables, and changes nothing else |
| `PageTable.Machine.Allocuvm` | vm.c:222-249 | maps zeroed frames over the whole range, which the user may read and write, or restores every entry and gives back every page; fails only with fewer than two frames per page |
| `PageTable.Machine.Freevm` | vm.c:284-298 | every frame the directory had is free again and no other directory changes |
| `PageTable.Machine.Setupkvm` | vm.c:119-136 | a directory with the kernel's mappings and nothing else, none of it open to the user, or all frames given back |
| `PageTable.Machine.Copyuvm` | vm.c:316-345 | the child has its own copies of the parent's pages with the same flags and the same rights through the MMU, the parent is untouched; on failure every frame is back; a page absent below sz never yields a child, and only that panics |
| `Heap.FreeKeeps` | umalloc.c:25-44 | after free the list is again ordered, disjoint and without adjacent blocks, and free plus live units are the units from sbrk |
| `Heap.StopsOnlyThere` | umalloc.c:30-32 | the loop's two tests hold at the block's place on the list and nowhere else |
| `Heap.TakeWhole` | umalloc.c:76-77 | unlinking an exact fit keeps the invariant and touches no live unit |
| `Heap.TakeTail` | umalloc.c:78-82 | splitting the end off a larger block keeps the invariant and touches no live unit |
| `Heap.FreeCount` | umalloc.c:11-22 | the sizes on the list add up to the number of free units |
| `Heap.RoomIff` | umalloc.c:69 | the block has room for the request, with less than one unit to spare, exactly when the 32-bit sum did not wrap |
| `Heap.AskIff` | umalloc.c:54 | sbrk is asked for the bytes of all units exactly when they are fewer than 2^28 |
| `Heap.HugeRequestGetsNothing` | umalloc.c:54-69 | requests for which malloc hands out a bare header, asks sbrk for nothing, and asks it to shrink |
| `Heap.Heap.FindSpot` | umalloc.c:30-32 | the search ends at the two neighbours of the block |
| `Heap.Heap.Free` | umalloc.c:25-44 | the block leaves the live ones, its units become free and merged, no unit of another live block is written, and freep is the free block just below it |
| `Heap.Heap.Morecore` | umalloc.c:47-61 | at least 4096 new units end up free at the end of the list, or nothing changes |
| `Heap.Heap.Scan` | umalloc.c:74-89 | one round of the list finds the first fit from freep, or there is none |
| `Heap.Heap.Malloc` | umalloc.c:64-90 | returns a new live block disjoint from all others, the end of the first fit from freep if there is one; asks sbrk at most once and only if there is none, and then returns the end of what it gave; leaves freep at the free block before the one used; 0 exactly when sbrk failed, and then nothing changed |
| `Pipe.Pipe.Fifo` | pipe.c:79-121 | bytes accepted are bytes delivered and then bytes in the ring, and nwrite - nread mod 2^32 stays within 0..PIPESIZE |
| `Pipe.Pipe.constructor` | pipe.c:33-36 | an empty pipe, open at both ends |
| `Pipe.Pipe.Write` | pipe.c:79-98 | one stretch under the lock accepts the next bytes in order, and returns, fails or sleeps exactly as the pipe's state says; readers are left asleep with bytes to read exactly in the killed-writer case |
| `Pipe.Pipe.Read` | pipe.c:101-121 | one stretch delivers the next bytes, as many as asked for and present, and wakes every writer; it sleeps or fails exactly on an empty pipe that is open for writing |
| `Pipe.Pipe.Close` | pipe.c:60-75 | closing an end wakes whoever waits for it |
| `Pipe.Pipe.Kill` | proc.c:480-497 | a killed sleeper no longer sleeps on the pipe; the promises to the others stay |
| `Pipe.KilledWriterLeaves` | pipe.c:85-91 | a writer asleep on a full pipe that is killed returns -1 and stores nothing |
| `Pipe.ReaderForgotten` | pipe.c:85-89 | a run that leaves a reader asleep on a full pipe |
| `Shell.Gettoken` | sh.c:266-308 | returns the first token of the rest of the line, the longest word if it is one, and moves past it |
| `Shell.Peek` | sh.c:311-320 | says whether the next token begins with one of the characters and takes none |
| `Shell.Parseredirs` | sh.c:375-397 | wraps the command in exactly the redirections that come next, or panics where one lacks its file |
| `Shell.Parseexec` | sh.c:416-446 | agrees with recursive descent over the tokens on tree, rest and panics; Grammar says what that accepts |
| `Shell.Parseblock` | sh.c:400-413 | agrees with recursive descent over the tokens on tree, rest and panics; Grammar says what that accepts |
| `Shell.Parsepipe` | sh.c:362-372 | agrees with recursive descent over the tokens on tree, rest and panics; Grammar says what that accepts |
| `Shell.Parseline` | sh.c:345-359 | agrees with recursive descent over the tokens on tree, rest and panics; Grammar says what that accepts |
| `Shell.Nulterminate` | sh.c:450-493 | writes a NUL at the end of every word of the tree and nowhere else |
| `Shell.Parsecmd` | sh.c:328-342 | what the tree's pointers read from the buffer afterwards is the tree of the line, or the line has none |
| `Shell.WordReadsBack` | sh.c:450-493 | no NUL lands inside a word of the tree |
| `Grammar.Language` | sh.c:328-446 | the parser accepts exactly the texts that write a line of the grammar, with that line's tree, and panics on all others |
| `Grammar.LineParses` | sh.c:345-446 | a sequence of pipelines joined by ;, each with any number of & after it, of simple commands with redirections before and between the words and of groups, written without further parentheses, parses to the right-nested list of right-nested pipes, the first redirection innermost |
| `Grammar.LineDerive` | sh.c:345-446 | conversely whatever tokens the parser takes are such a line, and the tree is that line's |
| `Grammar.SpreadLex` | sh.c:262-308 | tokens with any blanks between them, none needed but between two words or after > before another >, scan back to the tokens |
| `Grammar.LexSpread` | sh.c:262-308 | conversely every text is its own tokens with such blanks, where blanks and symbols are the characters of the two tables |
| `Grammar.ParsePrint` | sh.c:328-446 | every tree with at most nine words a command is written by some line, so it parses back from its printing |
| `Grammar.TooManyWords` | sh.c:437-440 | ten words or more are a panic, whatever redirections are among them |
| `Regexp.MatchHere` | grep.c:85-96 | true exactly when a prefix of the text, all of it under a final $, is in the language of the pattern |
| `Regexp.MatchStar` | grep.c:99-106 | true exactly when some number of fitting characters can be skipped before the rest matches |
| `Regexp.Match` | grep.c:73-82 | true exactly when the pattern matches at some position, or at the start after ^ |
| `Regexp.PrefixedMany` | grep.c:99-106 | a starred element matches exactly by skipping fitting characters |
| `Regexp.PrefixedOne` | grep.c:93-94 | a plain element matches exactly one fitting character |
| `Regexp.PrefixedEnd` | grep.c:91-92 | a final $ matches exactly the empty text |
| `Regexp.PrefixedPlain` | grep.c:85-96 | a pattern without stars and without $ at its end matches exactly the texts that begin with as many characters, each the same or under a dot |
| `Regexp.ParseWrites` | grep.c:85-96 | every pattern is the spelling of the elements it is read as |
| `Regexp.WriteParses` | grep.c:85-96 | elements read back from their spelling exactly when none of them would be read as another: a character before a star, a $ in last place |

## Left out

- Interrupts, devices, boot code, the console, trap and system-call plumbing: foreign hardware or thin wrappers; the disk is a sequence of write and flush requests.
- ialloc, iget, iput, ilock, directories and path names: they add members of the same kind as the inode and file layers modelled.
- Files of type T_DEV, and readi and writei dispatch to device drivers.
- fork, exec, exit, wait and the scheduler's choice of process.
- The disk request queue of ide.c; a request is one step, and a block write is atomic.
- Journal statistics other than the counts of installed blocks and checksum errors, and of batched operations in GroupCommit.
- Crash injection (crash_at_phase): a crash at every request is modelled instead.
- The unlocked test at the start of log_write, which is treated as one step with the rest.
- LogHeader.Load: takes a header block whose n is at most LOGSIZE; a larger n makes read_head run past the arrays, which has no defined result.
- CrashSafety.CrashAtomic: takes a header on disk that is well formed, as commit and recovery leave it; recovery from an arbitrary damaged header block is not modelled.
- Barrier.BarrierHolds: the one recovery that follows the crash completes; recoveries that are cut off on the same drive are in Barrier.AtomicIffOneBlock and Barrier.LastingIffNothing.
- Journal.Log.constructor: takes a disk whose header block names blocks and ranges of the volume, as commit and recovery leave it.
- Journal.Log.BeginOp: one pass of the loop; the waiting is in GroupCommit and SleepWakeup.
- Journal.Log.Update: the entries of the header are 32-bit fields; block numbers, offsets and lengths are within range by the volume's geometry.
- BufferCache.Cache.Bget: reference counts do not wrap, and the wait for the buffer's sleep-lock is the separate step Acquire.
- Progress.NoDeadlock: there is a run that lets the process in; that schedulers choose it is not modelled.
- GroupCommit.EveryBatchEnds: the same.
- SleepLock.HeldUntilReleased: releasesleep is a step of the holder only; the source does not test that, and a call by another process is not modelled.
- BufferCache.Cache.Bwrite: takes the holder of the buffer's sleep-lock; the panic for anybody else is not modelled.
- BufferCache.Cache.Brelse: takes a caller who logged or wrote what it changed, as bio.c asks, and drops the sleep-lock and the reference in one step.
- CachedLog.EndLastOp: takes processes that hold buffers, none of them of the log or of a block being committed, and that take no others meanwhile.
- CachedLog.SendCommit: the same.
- CachedLog.Copy: the same.
- CachedLog.Bread: takes a buffer whose sleep-lock is free, as acquiresleep leaves it.
- CachedLog.ReadBlock: takes a buffer whose sleep-lock is free, as acquiresleep leaves it.
- FileIo.Writei: device files are excluded, and the caller holds the inode's lock.
- PageTable.Machine.Kfree: the free list is a sequence; its links inside the free frames are not modelled, and addresses are frame numbers.
- OrderedMode.WriteChunk: the inode's lock is held, no step of another process falls inside the chunk, and offsets are below 2^32.
- OrderedMode.Filewrite: stops where begin_op makes the process wait; what others do meanwhile is not part of the call.
- Transaction.CommittedTransaction: takes calls that follow one another; calls of different processes that interleave inside one writei are not modelled.
- Transaction.LostTransaction: the same.
- Reuse.ReuseFromEmpty: takes a log region of more than seven blocks, and blocks whose first bytes differ.
- Reuse.IndexFromEmpty: takes a log region of more than twenty blocks.
- PageTable.KernelView: takes a kernel whose data starts a page above the first megabyte, as kernel.ld lays it out.
- PageTable.Machine.Mappages: takes a range that is not empty and does not wrap, and for user pages frames that no directory has.
- PageTable.Machine.Deallocuvm: takes sizes up to KERNBASE, as every caller passes.
- PageTable.Machine.Copyuvm: takes sizes up to KERNBASE, as every caller passes.
- PageTable.Machine.Allocuvm: takes a process with nothing mapped above its size; frames that became page tables stay with the directory after a failure.
- Heap.Heap.Malloc: addresses count whole headers from a common origin; requests for which sbrk would be asked for another amount are those of Heap.AskIff and are excluded.
- Pipe.Pipe.Write: takes a process that is not asleep on the pipe; one that kill made runnable is Pipe.Pipe.Kill and then a new stretch.
- Pipe.Pipe.Read: the same.
- Pipe.Pipe.Close: takes an end that nobody uses any more, as the reference counts of file.c ensure; freeing the pipe's page is not modelled.
- Shell.Parseexec: the command node is a value whose word list grows inside its redirections, standing for the node that the source reaches and fills in from two places.
- Running commands (runcmd) and the loops of the shell and of grep that read input.
