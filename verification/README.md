# OpenProninx kernel model

A Dafny model of the parts of the OpenProninx kernel that carry invariants over
unbounded runs, with proofs of what they promise.

| part | files | models |
|---|---|---|
| Redo log | `LogSpec`, `Log`, `GroupCommit*` | kern/log.c: commit and recovery as lists of atomic block writes, the log as an object, and begin_op/log_write/end_op/commit/crash/recovery as interleaved steps of any number of processes |
| Buffer cache | `Bcache`, `BcacheRuns`, `BcacheLru`, `BcacheLimits` | kern/bio.c: the linked list of buffers, and every interleaving of bread, bwrite, log_write and brelse |
| Native file system | `Bitmap`, `FsBlocks`, `Fs`, `FsFile`, `FsTrunc`, `Mkfs` | kern/fs.c and kern/mkfs.c: the on-disk bitmap, the block tree of an inode, readi, writei and itrunc, and the program that lays down the image |
| UFS2 | `Blockdev`, `Ufs2Maps`, `Ufs2Blocks`, `Ufs2File`, `DirRecords`, `DirSplit`, `Ufs2Dir` | kern/blockdev.c and kern/ufs2.c: fragment maps, growing files, and directory records split in place |
| Virtual memory | `PageTable`, `PageTree`, `Reach`, `Vm`, `FrameCount`, `AddressSpace`, `FreeVm`, `CopyVm`, `VmLife`, `Efirt` | kern/vm.c and kern/efirt.c over the free list of kern/kalloc.c: four-level tables with 1G, 2M and 4K leaves (Intel SDM volume 3A, section 4.5), growing, shrinking, copying and freeing address spaces |
| Memory map | `BootInfo`, `Memory`, `Spans`, `DirectMap` | kern/bootinfo.c, kern/kalloc.c and kvmalloc's direct map |
| Arena | `Arena` | kern/kalloc.c: vmem_init, vmem_alloc and vmem_free |
| Processes | `SleepLock`, `WaitExit`, `WaitHistory`, `Pipe`, `PipeRuns`, `PipeHistory` | kern/sleeplock.c, kern/proc.c, kern/spinlock.c and kern/pipe.c as step machines over locks, channels and process states |
| Console | `Glyphs`, `Framebuffer` | kern/framebuffer.c: the pixel loops, differential redraw and dirty spans |

`Basics`, `Bytes` and `Arith` hold shared vocabulary: optional results, bytes,
little-endian words, 512-byte blocks, and division by variables.

## How it is modelled

A disk is a sequence of 512-byte blocks, and one block write is atomic. A crash
stops the machine between two block writes and forgets memory. Code that changes
objects in place is a class whose methods carry the loops of the source; each
method is proved against a specification over values, and the lemmas are about
those values. Protocols are step machines: a state, the steps enabled in it, and
theorems over every run from the initial state. A panic of the source is a result
(`None`, `Halted`, `false`) or is proved unreachable.

What a run did is told a second time from the list of its steps alone
(`GroupCommitHistory`, `PipeHistory`, `WaitHistory`), without the machine's state,
and the state is proved to agree with it: what was logged, written, signalled or
reaped is what the steps say. On-disk and in-memory layouts are pinned down the same
way, by definitions that put bytes, words or bits one after the other
(`FsBlocks.FileBlocks`, `FsFile.Flat`, `Ufs2File.Laid`, `Bytes.Concat`,
`Bitmap.Value`), and by what mkfs lays down.

Clocks, devices and the scheduler's choice of process appear as free choices of
steps. Whether an allocation outside the model succeeds (a new directory block) is
a parameter.

## Where a promise fails

Some properties hold only under a condition that the code does not establish. For
each of these the model keeps the code's behaviour, shows the failure and proves
when the property does hold.

- log_write makes its "too big a transaction" test without the lock. Two processes
  can pass it together. In a log of at most LOGSIZE blocks the header then names a block
  past the log region (`SmallLogOverflows`). In one of exactly LOGSIZE blocks, the size
  that mkfs makes (kern/mkfs.c:37), that header also pins every buffer, and the commit
  panics before it writes anything. In a smaller one the commit overwrites a home block
  before it has committed anything (`SmallLogCorrupts`). Every crash of every run
  recovers to whole groups if and only if the region has at least NBUF, that is
  LOGSIZE, blocks (`SurvivesExactlyWhen`). In a log of any size it does so in every run
  whose commits fit the region (`RecoversToWholeGroups`), and they fit when no two
  processes are between the test and the lock at once (`SerialContains`). Atomicity of
  operations, commits without overlap and sleepers with a reason need no such
  condition.
- The same test comes before the search for an existing slot. A write to a block
  that is already logged stops the machine when the header is full
  (`AbsorbedWriteHalts`).
- NBUF equals LOGSIZE. A group of NBUF blocks pins every buffer, so that bget finds none
  for the first log block and the commit panics: a committing end_op stops the machine
  if and only if NBUF blocks are logged (`CommitStopsExactlyWhen`, `CommitStopsInBget`).
  A group of that size can arise in every log of LOGSIZE blocks or more, though each
  operation keeps to its MAXOPBLOCKS (`FullGroupHalts`). No run meets another panic of
  the log than these two (`HaltsExactlyWhen`).
- While no bread is in flight, bget panics for an uncached block if and only if all
  NBUF buffers are pinned by the log (`PinnedOut`). Any NBUF blocks other than block 0
  of device 0, logged one after the other from boot, get there (`FullLogStops`).
  log_write lets that many through in a log larger than LOGSIZE, or when two processes
  pass its test at once; in the log that mkfs makes a single process meets its panic
  first.
- ufs2_dirlink leaves a record of 4 bytes when that is what remains of a split
  record. The region is then no tiling any more. It stays one if and only if the
  space left over is not 4 bytes (`SplitTiles`, `Dirlink`). Linking, unlinking and
  linking a slightly shorter name is enough (`RelinkBreaks`).
- vmem_alloc's size sum wraps for requests near 2^64. The block is as large as asked
  if and only if the sum does not wrap (`NeedCovers`, `Alloc`). If it wraps to zero and
  the first free block is at least 8192 bytes, the list becomes a loop, so that every
  later walk along it goes on for ever; otherwise, and only then, the arena stays
  well-formed (`Alloc`, `WalkNeverEnds`). `LoopAtOnce` gives the request.
- A writer killed on a full pipe returns without waking readers
  (`KilledWriterStrands`). Nobody is ever left asleep for nothing in a run if and only
  if every killed writer of it returned while no reader was asleep
  (`NobodyStuckExactlyWhen`).
- fork does not clear the killed flag of the slot it takes. Only a reaped slot has it
  cleared, and a fork that fails leaves its slot unreaped. So a process is born killed
  if and only if its slot was killed in the hands of a fork that failed, and was not
  reaped since (`FreshSlot`); `BornKilled` gives the steps.
- A flush takes a cell that is 0xffff, and 0xffff in its cache, for drawn. It leaves
  what a full redraw leaves if and only if the cells it so misses are on the canvas
  already (`Flush`, `FlushIsRedraw`). After a clear that means: colour 15, the ink and
  the paper of 0xffff, is black, or no row begins or ends with a 0xffff cell
  (`UnknownNotDrawn`). With the palette of the 24 and 32 bit modes it is white
  (`VgaNotDrawn`); `WhiteCellStaysBlack` gives a screen on which the two differ.
- A scroll records its fill cell as drawn, but paints only paper. Canvas and cache stay
  in step if and only if the fill cell looks like its paper, or is 0xffff (`Scroll`).

## Model

| member | source | states |
|---|---|---|
| LogSpec.EncodeHeader | kern/log.c:102-112 | writing the header and reading it back gives the same count and block numbers |
| LogSpec.RecoveredIs | kern/log.c:114-119 | recovery moves every logged block home, touches no other home block and leaves an empty, well-formed log |
| LogSpec.NewValueAbsorbs | kern/log.c:74-85 | an install overwrites whatever an interrupted install left, so repeating it is harmless |
| LogSpec.CrashInRecovery | kern/log.c:74-119 | stopping after any write of recovery and recovering again gives the same home blocks |
| LogSpec.RepeatedCrashes | kern/log.c:74-119 | the same for any number of interrupted recoveries |
| LogSpec.CrashInCommit | kern/log.c:176-197 | stopping after any write of commit, then recovering: all old before the header write, all new after it |
| LogSpec.RecoverCommitted | kern/log.c:114-119 | once the committing header is on disk, recovery installs exactly the logged blocks |
| LogSpec.CommitIsAtomic | kern/log.c:189-197 | crash atomicity: after any write of commit and any number of crashes inside recovery the home blocks are all old or all new, new exactly when the committing header write reached the disk |
| LogSpec.CommitDone | kern/log.c:189-197 | an uninterrupted commit installs every block and leaves the header empty |
| Log.Journal.ReadHead | kern/log.c:88-97 | the in-memory header is the one on disk |
| Log.Journal.Bwrite | kern/bio.c:99-105 | one block write, which also unpins the buffer |
| Log.Journal.WriteHead | kern/log.c:102-112 | one block write: the encoded header |
| Log.Journal.WriteLog | kern/log.c:176-186 | the log copies, one write each, in slot order |
| Log.Journal.InstallTrans | kern/log.c:74-85 | the installs, one write each, in slot order |
| Log.Journal.Commit | kern/log.c:189-197 | panics exactly when NBUF blocks are logged, and then writes nothing; otherwise performs exactly the list of writes that crash atomicity is about, unpins everything, and no reader sees a change |
| Log.Journal.RecoverFromLog | kern/log.c:114-119 | performs exactly the recovery writes; the disk is the recovered one |
| Log.Journal.LogWrite | kern/log.c:208-231 | panics exactly on a full header or outside an operation; otherwise absorbs or appends the block and pins its buffer |
| Log.NewValueIsView | kern/log.c:176-197 | what a commit installs is what the buffers showed |
| Log.CommitShows | kern/log.c:189-197 | after the writes of a commit the disk shows what the buffers showed |
| GroupCommitProof.RoomForNew | kern/log.c:122-138 | a block not yet in the header always finds a free slot |
| GroupCommitProof.NobodyInside | kern/log.c:142-173 | no process is inside an operation while a commit runs |
| GroupCommitRuns.StepInv | kern/log.c:122-231 | every step of every process, a crash and every recovery write keep the invariant, in a log of any size; a step that begins a commit does so if the header fits the region or pins every buffer |
| GroupCommitRuns.RunInv | kern/log.c:122-231 | the invariant holds in every state of a run whose commits fit the region |
| GroupCommitRuns.RecoversToWholeGroups | kern/log.c:122-231 | in a log of any size, in every run whose commits fit the region and at every point of it, recovery yields exactly the committed groups applied whole and in order |
| GroupCommitRuns.OperationsAreAtomic | kern/log.c:142-173 | in every run, whatever the log, the writes of an operation are all in one committed group or in none |
| GroupCommitRuns.CommitsAlone | kern/log.c:142-173 | in every run, whatever the log, a commit runs only with nothing outstanding, and no log_write lands during it |
| GroupCommitRuns.QuiescentMeansDurable | kern/log.c:142-173 | in every run whose commits fit: with nothing outstanding and no commit running, the home blocks are the committed groups, and an operation in none of them that no crash cut off wrote nothing |
| GroupCommitRuns.SleeperMustWait | kern/log.c:122-138 | in every run, whatever the log, a process asleep in begin_op still has a reason to wait |
| GroupCommitHistory.RecordIsStory | kern/log.c:122-231 | in every run, whatever the log: the records of each operation, the open group, the committed groups and the fate of each operation are those that the list of steps alone gives, a Record being the block and data that its process last took, also for a block that is logged already |
| GroupCommitHistory.RecoversToStory | kern/log.c:122-231 | in every run whose commits fit, at every point of it, recovery yields exactly the groups that the steps give, applied whole and in order |
| GroupCommitHistory.RecordShows | kern/log.c:208-231 | in every run a log_write makes readers see the data its process last took for that block, absorbed or not, and changes what they see of no other block |
| GroupCommitHistory.ReadersSeeLastWrite | kern/log.c:208-231 | in every run whose commits fit, while no commit runs, a reader of any block sees the last write that the steps made to it |
| GroupCommitHistory.StoryIsAtomic | kern/log.c:142-173 | in every run, by the steps alone, the writes of an operation are all in one committed group, all still pending, or all lost |
| GroupCommitHistory.QuietMeansDurable | kern/log.c:142-173 | in every run whose commits fit: with nothing outstanding the disk is the groups that the steps give, and an operation still pending wrote nothing |
| GroupCommitRuns.CommitStopsExactlyWhen | kern/log.c:176-197 | in every run a committing end_op stops the machine if and only if NBUF blocks are logged |
| GroupCommitRuns.HaltsExactlyWhen | kern/log.c:122-231 | in every run a step stops the machine if and only if it is the test of log_write at one of its two bounds or a commit of NBUF blocks |
| GroupCommitRuns.ReservationHolds | kern/log.c:122-138 | in every run the header never exceeds LOGSIZE, a block not yet in it finds a slot below LOGSIZE, the panic is met exactly at its two bounds, and in a log larger than LOGSIZE never by a new block |
| GroupCommitRuns.HeaderBound | kern/log.c:208-231 | in every run the header never names more than LOGSIZE blocks |
| GroupCommitRuns.StepOrderly | kern/log.c:122-231 | every step keeps processes and history in order, whatever the size of the log |
| GroupCommitRuns.RoomyContains | kern/log.c:208-231 | in a log of at least NBUF blocks every commit of every run fits the region |
| GroupCommitRuns.SerialContains | kern/log.c:208-231 | in a log of any size every commit fits in a run in which no two processes are between the test of log_write and its lock at once |
| GroupCommitRuns.SingleIsSerial | kern/log.c:208-231 | the runs of a single process are such runs |
| GroupCommitLimits.SmallLogOverflows | kern/log.c:214-228 | with at most LOGSIZE log blocks a run exists whose header names a block past the log region, holding any data |
| GroupCommitLimits.SmallLogCorrupts | kern/log.c:176-187 | with fewer than NBUF log blocks a run exists in which a crash is recovered to a disk that the committed groups do not explain |
| GroupCommitLimits.AbsorbedWriteHalts | kern/log.c:214-228 | a run exists in which rewriting an already logged block panics |
| GroupCommitLimits.LogFitsExactlyWhen | kern/log.c:214-228 | the header fits the region in all runs if and only if the region is larger than LOGSIZE |
| GroupCommitLimits.SurvivesExactlyWhen | kern/log.c:114-231 | every state of every run recovers to the committed groups, whole and in order, if and only if the region has at least NBUF blocks |
| GroupCommitLimits.FullGroupHalts | kern/log.c:176-197 | in every log of LOGSIZE blocks or more a run exists whose operations keep to MAXOPBLOCKS and whose commit panics |
| GroupCommitLimits.CommitStopsInBget | kern/bio.c:73-84 | with the group pinned and no other buffer in use, the commit stops exactly when bget finds no buffer for the first log block |
| GroupCommitLimits.GroupIsPinned | kern/bio.c:55-129 | for every group of every run the buffer cache has a run from boot that pins just its blocks |
| Bcache.PickFails | kern/bio.c:55-85 | bget panics if and only if the block is not cached and every buffer is referenced or dirty |
| Bcache.PickIs | kern/bio.c:55-85 | the buffer picked is the first with the key, or no buffer has the key and it is unused |
| Bcache.FrontKeeps | kern/bio.c:118-126 | moving a buffer to the front keeps every buffer listed once |
| Bcache.FrontLinked | kern/bio.c:43-49 | the four assignments that put a buffer behind the head keep the list well linked |
| Bcache.UnlinkLinked | kern/bio.c:120-121 | the two assignments that take a buffer out keep the list well linked |
| Bcache.BufferCache.constructor | kern/bio.c:35-50 | a well-formed list of all buffers, all empty |
| Bcache.BufferCache.Scan | kern/bio.c:60-68 | the first buffer in list order with the key |
| Bcache.BufferCache.ScanBack | kern/bio.c:73-81 | the last buffer in list order that is unused |
| Bcache.BufferCache.MoveFront | kern/bio.c:118-126 | the six assignments leave the list well linked with the buffer first |
| Bcache.BufferCache.Bget | kern/bio.c:55-85 | the two scans along the links pick the specified buffer; only its fields change |
| Bcache.BufferCache.Brelse | kern/bio.c:109-129 | drops one reference; the last one moves the buffer to the front; the list stays well-formed |
| BcacheRuns.OneActive | kern/bio.c:55-85 | at most one valid, dirty or referenced buffer per block |
| BcacheRuns.NeverRecycled | kern/bio.c:70-82 | a buffer in use keeps its block |
| BcacheRuns.StepInv | kern/bio.c:55-129 | every step keeps the cache invariant |
| BcacheRuns.OneBufferPerBlock | kern/bio.c:55-129 | in every run at most one active buffer holds a block, also for the initial buffers, which all claim block 0 of device 0 |
| BcacheRuns.CleanIsOnDisk | kern/bio.c:87-105 | in every run a valid, clean, unlocked buffer equals its disk block |
| BcacheRuns.ReadyHasBlock | kern/bio.c:88-96 | in every run a returned bread has its own block, valid, with the sleep lock to itself |
| BcacheRuns.StepShows | kern/bio.c:55-129 | a step changes what a block shows only if a holder changes that block |
| BcacheRuns.CacheIsMemory | kern/bio.c:55-129 | the cache refines a memory of blocks: eviction and refetching never show |
| BcacheLru.ListIsByTime | kern/bio.c:109-129 | in every run the list is in the order in which the buffers last lost their last user, as the uses alone tell it; those that never had one stay in the order of binit |
| BcacheLru.EvictsOldest | kern/bio.c:70-82 | in every run a block that is not cached gets the unused buffer that was let go the longest ago |
| BcacheLimits.PinnedOut | kern/bio.c:73-84 | while no bread is in flight, bget panics if and only if the block is not cached and all NBUF buffers are pinned |
| BcacheLimits.LoggedOut | kern/bio.c:73-84 | with the logged blocks pinned and no bread in flight, bget panics for any other block if and only if NBUF blocks are logged |
| BcacheLimits.FullLogStops | kern/bio.c:55-129 | a run from boot that logs any given blocks, after which reading another block, as commit reads its first log block, panics if and only if they are NBUF |
| FsBlocks.OneOwner | kern/fs.c:489-599 | every reachable block is marked in the bitmap and reachable from exactly one place |
| FsBlocks.SetUsed | kern/fs.c:97-110 | changing one bit of the on-disk bitmap changes that block's bit and no other, and no data block |
| FsBlocks.LinkEntry | kern/fs.c:565-595 | storing a zeroed block in an empty table entry changes exactly that pointer |
| FsBlocks.LinkRoot | kern/fs.c:552-564 | storing a zeroed block in an empty inode slot changes exactly that pointer |
| Bitmap.BitmapByte | kern/fs.c:79-91 | byte q of a bitmap block is the binary number that blocks 8q to 8q+7 write, the first one lowest |
| Fs.FileSystem.Mount | kern/fs.c:189-216 | a sound disk, such as mkfs makes, is a sound start |
| Fs.FileSystem.constructor | kern/fs.c:73-110 | a disk without files is a sound start |
| Fs.AllocOwned | kern/fs.c:73-94 | a block that balloc may return is nobody's data and no metadata; marking and zeroing it moves no pointer |
| Fs.FileSystem.FirstFree | kern/fs.c:79-91 | the lowest free block of one bitmap block, or none if all its bits are set |
| Fs.FreeOwned | kern/fs.c:97-110 | a held block is marked, so freeing it does not panic, and freeing it changes its bit only |
| Fs.FileSystem.Balloc | kern/fs.c:73-94 | the lowest free block, marked and zeroed; none if and only if all bits are set |
| Fs.FileSystem.Bfree | kern/fs.c:97-110 | clears exactly the block's bit; refuses exactly a free block |
| Fs.FileSystem.RootBlock | kern/fs.c:552-564 | the block in an inode slot, allocated if missing, with one owner per block |
| Fs.FileSystem.EntryBlock | kern/fs.c:565-572 | the block in a table entry, allocated if missing, with one owner per block |
| Fs.FileSystem.DoubleEntry | kern/fs.c:580-595 | the block behind the double indirect table, by number the bn-th of the words of the raw tables put one after the other; only its path is allocated |
| Fs.FileSystem.Bmap | kern/fs.c:548-599 | the bn-th of the file's block numbers, which are the direct words, then the words of the indirect block, then those of each table of the double indirect block; allocates only on the path to it, keeps one owner per block, changes nothing if the block is there; panics only out of range or on a full disk |
| Fs.BlockInOrder | kern/fs.c:548-599 | what bmap reads for bn is the bn-th number in the direct words, the indirect block's words and the words of the tables behind the double indirect block, put one after the other |
| FsTrunc.DataInRankOrder | kern/fs.c:501-599 | a file's blocks come in the order in which itrunc walks the tree |
| FsTrunc.DataPlaceOnto | kern/fs.c:501-599 | every data place of the tree is some block of the file |
| Fs.DataPlaceInjective | kern/fs.c:548-599 | different block numbers of a file are stored at different places |
| FsFile.FlatIsFile | kern/fs.c:666-671 | the bytes found through bmap are those of the file's blocks put one after the other |
| FsFile.Readi | kern/fs.c:659-672 | exactly that slice of the file's blocks put one after the other, cut at the end of the file, with no allocation; refused exactly past the end or on wrap |
| FsFile.ReadChunk | kern/fs.c:666-671 | the stored bytes of one block, with nothing changed |
| FsFile.Writei | kern/fs.c:703-722 | the bytes at [off, off+n) are replaced, the file grows as needed, no other file changes, files stay hole-free |
| FsFile.WriteChunk | kern/fs.c:710-716 | one more stretch of the source is in the file, and nothing else has changed |
| FsFile.WroteContents | kern/fs.c:703-722 | block by block writing is one overwrite of the byte sequence |
| FsFile.StoredByte | kern/fs.c:710-716 | writing inside one data block changes those bytes of that file and no other byte of any file |
| FsFile.WriteThenRead | kern/fs.c:659-722 | what writei wrote readi reads back, whatever else the file held |
| Mkfs.Image.constructor | kern/mkfs.c:106-150 | a zeroed image with no file is a sound start |
| Mkfs.Image.Ialloc | kern/mkfs.c:295-308 | the next inode number with an empty file; the others keep their bytes |
| Mkfs.Image.Fresh | kern/mkfs.c:256-271 | the next block, in use by nobody, zero; none exactly when the image is full |
| Mkfs.StampNext | kern/mkfs.c:333-345 | handing out the next block is what setting one more bit of the bitmap will say |
| Mkfs.Image.RootBlock | kern/mkfs.c:364-372 | the block in an inode slot, a fresh one if missing, with one owner per block |
| Mkfs.Image.EntryBlock | kern/mkfs.c:373-392 | the block in a table entry, a fresh one if missing, with one owner per block |
| Mkfs.Image.DoubleBlock | kern/mkfs.c:379-393 | the sector that bmap will find behind the double indirect table |
| Mkfs.Image.FileBlock | kern/mkfs.c:362-394 | the sector that bmap will find for that block of the file |
| Mkfs.Image.AppendChunk | kern/mkfs.c:361-402 | one more stretch of the data is in the file, and nothing else has changed |
| Mkfs.Image.Iappend | kern/mkfs.c:349-406 | the data follow what the file held, no other file changes; gives up only on a full image or past the largest file |
| Mkfs.FreeMap | kern/mkfs.c:333-345 | a bitmap block in which exactly the first bits are set |
| Mkfs.Image.Balloc | kern/mkfs.c:333-345 | the image becomes a sound file system with the same files; refused exactly when every block is used |
| Mkfs.AppendThenRead | kern/mkfs.c:349-406 | a file laid down by mkfs, whatever else it wrote, reads back through readi |
| FsTrunc.Itrunc | kern/fs.c:501-544 | the file is empty, exactly its blocks are unmarked, the other files keep their bytes; the "freeing free block" panic is unreachable |
| FsTrunc.FreePtr | kern/fs.c:501-540 | each pointer met is still marked when it is freed |
| FsTrunc.FreeEntries | kern/fs.c:508-519 | the blocks behind one table are free, the rest of the file is not yet |
| FsTrunc.FreeDirect | kern/fs.c:501-506 | exactly the direct blocks are free |
| FsTrunc.FreeIndirect | kern/fs.c:508-519 | with them exactly the indirect ones |
| FsTrunc.FreeDouble | kern/fs.c:521-540 | with them exactly the double indirect ones |
| FsTrunc.LeftStep | kern/fs.c:501-540 | each block is met once, in the order of the places |
| FsTrunc.Detach | kern/fs.c:501-540 | taking a file's pointers away leaves its blocks held and every other block owned as before |
| Blockdev.VolumeIsSectors | kern/blockdev.c:42-116 | the bytes of the volume are its sectors put one after the other |
| Blockdev.Read | kern/blockdev.c:42-77 | exactly the bytes asked for; fails exactly out of range or past the 32-bit sector numbers |
| Blockdev.Device.Write | kern/blockdev.c:82-116 | exactly a prefix of the bytes is written, all of them if range and 32-bit sector numbers allow, else up to the first sector without such a number; nothing out of range; no block outside the volume changes |
| Blockdev.Store.Get | kern/blockdev.c:42-77 | the bytes of the volume, which never fails where every sector has a 32-bit number |
| Blockdev.Store.Put | kern/blockdev.c:82-116 | exactly those bytes of the volume change, and no block outside it |
| Ufs2Maps.MapIsBits | kern/ufs2.c:320-331 | a byte of a group's map is the binary number that its eight fragments write, the first one lowest |
| Ufs2Maps.SetRangeBit | kern/ufs2.c:320-331 | setting a run of map bits changes those bits and no other bit of the volume |
| Ufs2Maps.SetRangeFree | kern/ufs2.c:320-331 | the maps of different groups do not disturb each other |
| Ufs2Maps.FreeUndoesAlloc | kern/ufs2.c:358-367 | freeing what was allocated restores every byte of the volume |
| Ufs2Blocks.BlocksApart | kern/ufs2.c:408-414 | different blocks share no byte |
| Ufs2Blocks.IsWhollyFree | kern/ufs2.c:346-356 | true exactly if every fragment of the block is free |
| Ufs2Blocks.InGroup | kern/ufs2.c:340-372 | a wholly free aligned block of the group, or none if there is none |
| Ufs2Blocks.SetFragments | kern/ufs2.c:358-367 | exactly the fragments of the block change state |
| Ufs2Blocks.AllocBlock | kern/ufs2.c:333-375 | a block whose fragments were all free, now allocated, no other map bit and no data byte changed; none if and only if no aligned block is wholly free |
| Ufs2Blocks.FreeBlock | kern/ufs2.c:377-402 | exactly the block's fragments are free; refused exactly if unaligned or outside its group's map |
| Ufs2Blocks.FreeIsNobodys | kern/ufs2.c:346-370 | a wholly free block is no live block and no metadata |
| Ufs2Blocks.LinkOwned | kern/ufs2.c:589-595 | giving a free block to an empty slot keeps every live block with one owner |
| Ufs2Blocks.UnlinkOwned | kern/ufs2.c:628-636 | freeing a file's block leaves every other live block allocated and owned |
| Ufs2File.Ufs2Volume.constructor | kern/ufs2.c:133-176 | a volume without file blocks is a sound start |
| Ufs2File.FileIsBlocks | kern/ufs2.c:719-744 | the bytes of a file are its direct blocks put one after the other |
| Ufs2File.Ufs2Volume.WriteRange | kern/ufs2.c:543-567 | exactly a prefix of the bytes is written, up to the first missing block, and all of them if there is none; no map bit and no other file changes |
| Ufs2File.Ufs2Volume.ZeroBlock | kern/ufs2.c:404-416 | exactly the block's bytes are zero |
| Ufs2File.Ufs2Volume.AddBlock | kern/ufs2.c:586-597 | a fresh zeroed block in the slot, no file reads differently; fails only when no aligned block is wholly free, and then changes nothing |
| Ufs2File.Ufs2Volume.AddBlocks | kern/ufs2.c:584-598 | every block up to the end is there, no file reads differently |
| Ufs2File.Ufs2Volume.ZeroRange | kern/ufs2.c:605-613 | the gap before the write is zero |
| Ufs2File.Ufs2Volume.WriteAt | kern/ufs2.c:599-614 | with the blocks in place, the overlaid contents and nothing else |
| Ufs2File.Ufs2Volume.WriteGrowing | kern/ufs2.c:569-615 | over the sectors of the device: the old contents zero-padded to offset and overlaid with src, every block up to the end there; new blocks were wholly free, no other map bit, no pointer and no other inode changed; on failure no file reads differently |
| Ufs2File.Ufs2Volume.WriteThenRead | kern/ufs2.c:569-744 | a read from the device after a successful growing write returns what was written |
| Ufs2File.Ufs2Volume.ReadAcross | kern/ufs2.c:569-744 | a growing write, successful or not, changes no read of another file, nor whether it succeeds |
| Ufs2File.Ufs2Volume.Read | kern/ufs2.c:719-744 | exactly the stored bytes; fails exactly past the end or at a missing block |
| Ufs2File.Ufs2Volume.DropBlock | kern/ufs2.c:628-636 | exactly one block leaves the file and its fragments become free |
| Ufs2File.Ufs2Volume.Truncate | kern/ufs2.c:617-638 | the file is empty, exactly its fragments are free again, no other file changes |
| Ufs2File.PutFree | kern/ufs2.c:556-560 | writing a live block never touches a map byte |
| DirRecords.RecordSize | kern/ufs2.c:775-777 | a multiple of 4 that holds header and name with less than 4 bytes to spare |
| DirSplit.RecordBytes | kern/ufs2.c:843-850 | a new record is inode number, record length, kind, name length and name, little-endian, filled up with zeros |
| DirSplit.SplitTiles | kern/ufs2.c:806-850 | splitting a record keeps the region an exact tiling if and only if the slack is not 4 bytes, and then adds exactly the new entry |
| DirSplit.CarvedBroken | kern/ufs2.c:834-841 | a slack of 4 bytes leaves no tiling |
| Ufs2Dir.FindRecord | kern/ufs2.c:944-958 | the first live record with the name, if any |
| Ufs2Dir.FindRoom | kern/ufs2.c:806-833 | the first record with room, if any |
| Ufs2Dir.InsertedFind | kern/ufs2.c:925-961 | looking up in a directory with one more entry finds that entry and every other as before |
| Ufs2Dir.RemovedFind | kern/ufs2.c:925-961 | looking up in a directory with one entry less finds every other as before and that one no more |
| Ufs2Dir.LinkDone | kern/ufs2.c:806-850 | splitting in one region adds exactly the entry to the whole directory and keeps names different |
| Ufs2Dir.UnlinkDone | kern/ufs2.c:880-923 | clearing in one region removes exactly the name from the whole directory |
| Ufs2Dir.Cleared | kern/ufs2.c:909-918 | clearing the inode number removes exactly that entry and keeps the tiling |
| Ufs2Dir.Directory.constructor | kern/ufs2.c:657-680 | a new directory is well-formed and has exactly the entries . and .. |
| Ufs2Dir.Directory.Lookup | kern/ufs2.c:925-961 | the inode number of the entry with the name, if any |
| Ufs2Dir.Directory.Link | kern/ufs2.c:806-850 | the entry is added in the record found; well-formed afterwards if and only if the slack is not 4 bytes |
| Ufs2Dir.Directory.Dirlink | kern/ufs2.c:779-878 | maps the name to the inode number and every other name as before; refuses exactly on bad arguments, an existing name or no room; grows at most once; well-formed afterwards if and only if the slack is not 4 bytes |
| Ufs2Dir.Directory.Dirunlink | kern/ufs2.c:880-923 | removes exactly that name |
| Ufs2Dir.FreshRegion | kern/ufs2.c:865-871 | a new region is a tiling without entries that has room for any name |
| Ufs2Dir.GrownRoom | kern/ufs2.c:853-877 | after growth the first fresh region has room for any name |
| Ufs2Dir.RelinkBreaks | kern/ufs2.c:834-841 | link, unlink and link of a name with a record 4 bytes shorter ends in a broken region |
| PageTable.VpnIsIndices | kern/vm.c:105-132 | the indices into the four tables are the digits of the page number to base 512, the root's first |
| PageTable.LeafDecides | kern/vm.c:105-125 | the entries that link tables allow every access, so that the hardware allows what the leaf entry allows |
| PageTable.LeafMaps | kern/vm.c:156-180 | writing a 1G, 2M or 4K leaf maps exactly the pages it covers and leaves every other translation |
| PageTable.NewTableLookup | kern/vm.c:105-125 | linking a fresh table changes no translation |
| PageTable.ClearUnmaps | kern/vm.c:369-396 | clearing a 4K entry unmaps its page and no other |
| PageTree.LookupKeeps | kern/vm.c:105-180 | changes inside one address space leave the translations of the others and of the kernel |
| Reach.BuiltReach | kern/vm.c:105-125 | a walk that builds tables reaches the places it got deeper by and no others, one frame for each |
| Reach.LeafReach | kern/vm.c:161-178 | a leaf written where no table hangs cuts none off |
| Vm.Mmu.constructor | kern/vm.c:195-202 | a free list and a zeroed kernel table taken from it are a valid start that translates nothing |
| Vm.Mmu.Kalloc | kern/kalloc.c:310-322 | takes the head of the free list |
| Vm.Mmu.Kfree | kern/kalloc.c:281-298 | the frame is on the free list once |
| Vm.Mmu.AddTable | kern/vm.c:116-123 | a zeroed table in a fresh frame hangs in the empty entry; nothing changes without memory |
| Vm.Mmu.NextTable | kern/vm.c:110-124 | the next table down, built if asked for; no translation changes |
| Vm.Mmu.Walk | kern/vm.c:105-125 | finds the table of the page at the level asked for, building it on the way; no translation changes; fails only without memory or at a large leaf |
| Vm.Mmu.MapLeaf | kern/vm.c:161-178 | one leaf of any size maps exactly its pages; fails only without memory and then maps nothing; where no table hangs below it, takes a frame for each place on its walk not yet reached |
| Vm.Mmu.MapRange | kern/vm.c:156-180 | over an untranslated range: exactly the translation of mapping each 4K page singly, for every mix of page sizes, in the kernel table or in the lower half of another that takes large pages; fails only when the free list is empty; where no table hangs below a large page, takes exactly a frame for each place on the walks not yet reached, and fails only for want of one |
| FrameCount.HasWalk | kern/vm.c:105-125 | every table of an address space is met by the walks through its place |
| FrameCount.WalkAdds | kern/vm.c:105-125 | a walk that builds tables adds only tables on its path, all that are missing if it succeeds and not all if it fails |
| FrameCount.TableCount | kern/vm.c:105-125 | a change inside one address space adds as many table frames as places |
| FrameCount.FallsShort | kern/vm.c:339-365 | a mapping that stopped had fewer frames than pages and missing tables |
| FrameCount.EmptyPaths | kern/vm.c:423-456 | the number of tables for the first n pages of an empty user half |
| AddressSpace.UserAccess | kern/vm.c:105-153 | whether a process may write or use a page is what its leaf entry says |
| AddressSpace.FreshIsWritable | kern/vm.c:349-363 | a page that allocuvm added can be written by the process |
| AddressSpace.AddPage | kern/vm.c:134-153 | one page becomes mapped, everything else translates as before; fails only without memory |
| AddressSpace.GrowOne | kern/vm.c:349-363 | one more page present with exactly the tables it needed, or the space as before the call because a frame for the page or for a table was missing |
| AddressSpace.Census | kern/kalloc.c:281-322 | every frame is free, a table or a page, and none is two of these |
| AddressSpace.UndoGrowth | kern/vm.c:351-361 | the failure path of allocuvm restores translations and pages |
| AddressSpace.GrowthUndone | kern/vm.c:339-396 | deallocuvm undoes a partial allocuvm |
| AddressSpace.DropPage | kern/vm.c:379-393 | one page is gone, its frame is free, everything else stays |
| AddressSpace.AllocUvm | kern/vm.c:339-365 | exactly the pages below the new size are present, the new ones zeroed and user-writable; succeeds if and only if the free list holds a frame for each new page and each missing table, and takes exactly those; on failure every page frame is back and the space translates as before |
| AddressSpace.DeallocUvm | kern/vm.c:369-396 | exactly the pages of the removed range are gone and their frames free; the zero-address panic is unreachable |
| FreeVm.HasSlot | kern/vm.c:399-406 | every table of a subtree is reached through a present entry |
| FreeVm.SlotIsSub | kern/vm.c:399-406 | the subtrees of different entries are disjoint and make up the whole |
| FreeVm.FreeTables | kern/vm.c:399-406 | frees every table of the subtree once and no other |
| FreeVm.FreeTree | kern/vm.c:408-419 | all tables of a space without pages are gone, every other space is untouched |
| FreeVm.FreeVmSpace | kern/vm.c:408-419 | every page and table frame of the space is back on the free list once; other spaces, their pages and the kernel half are untouched |
| CopyVm.SetupKvm | kern/vm.c:183-193 | a space with no user pages that translates the kernel half as the kernel does; fails only without memory |
| CopyVm.TopLookup | kern/vm.c:183-193 | the copied upper half translates as the kernel does, the lower half not at all |
| CopyVm.PageEntry | kern/vm.c:433-441 | a present page has a present entry, so copyuvm's panics are unreachable |
| CopyVm.CopyPage | kern/vm.c:434-449 | one more page copied to a frame of its own with exactly the tables it needed; fails only for want of a frame |
| CopyVm.AllBack | kern/vm.c:408-419 | freeing an address space that is all that is new restores every table, page and owner |
| CopyVm.Abandon | kern/vm.c:453-455 | freeing a partial copy restores every table and page |
| CopyVm.CopyUvm | kern/vm.c:423-456 | the child has the pages of the parent, equal in contents and permissions, in frames of its own; parent and others unchanged; succeeds if and only if the free list holds 1 + P + P/512 + P/2^18 + P/2^27 frames, quotients rounded up, for P pages; on failure tables, pages and the set of free frames are as before |
| VmLife.Start | kern/vm.c:195-202 | a new kernel table and a free list satisfy the invariant of address spaces |
| VmLife.Load | kern/vm.c:183-365 | setupkvm and allocuvm, whatever fails, change nothing but the new space |
| VmLife.Life | kern/vm.c:183-456 | a space set up, grown, forked, and freed with its child: wherever memory runs out, every table, every page and the set of free frames are as before |
| Efirt.EfiInit | kern/efirt.c:48-86 | the table translates exactly the ranges of the firmware and page zero, each to itself with the permissions asked for, and shares the kernel half; no other table changes; fails only without memory |
| Efirt.EfiAccess | kern/efirt.c:63-72 | the firmware can write a page of a range if and only if the range is not read-only, finds it cached if and only if it asked for that, and user code cannot use it |
| Efirt.NextIsFree | kern/efirt.c:63-78 | ranges that do not overlap find their addresses untranslated |
| BootInfo.SortRanges | kern/bootinfo.c:21-29 | sorted by base, a permutation, the rest of the array unchanged |
| BootInfo.InsertStep | kern/bootinfo.c:21-29 | one more element in order, the rest permuted or unchanged |
| Memory.DetectMemory | kern/kalloc.c:30-62 | the top of real memory, rounded down, and of what is to be mapped, rounded up; every RAM range ends below it |
| Memory.RamEnd | kern/kalloc.c:38-45 | the largest end of a RAM range |
| Memory.MapEnd | kern/kalloc.c:49-55 | the largest end of a range to be mapped |
| Memory.GrowPass | kern/kalloc.c:80-91 | one pass only adds RAM that touches, and reports no growth only at the end of the run |
| Memory.RamRunEnd | kern/kalloc.c:65-93 | the end of the run of touching RAM ranges that holds p, 0 if none |
| Memory.RunEndUnique | kern/kalloc.c:65-93 | there is only one such end |
| Spans.EndsUnique | kern/vm.c:212-228 | where a run of touching ranges ends is fixed by the set of ranges |
| Spans.RunsAnyOrder | kern/vm.c:206-249 | what the direct map takes in does not depend on the order of the memory map |
| Spans.RunNeedsRange | kern/vm.c:206-249 | what is taken in lies in a 2M page in which some range has a byte or starts |
| Spans.EmptyRange | kern/vm.c:212-228 | a range of length 0 joins no others; it counts only as real memory at which a run is entered |
| Spans.LoneEmptyRange | kern/vm.c:212-244 | by itself it takes in the 2M page around it, and nothing if it stands at the start of one |
| Spans.NextSpan | kern/vm.c:212-228 | the next ranges that touch without a gap, where they end with nothing later touching, and the base of the first RAM among them |
| Spans.SpanEnds | kern/vm.c:212-228 | such a span is a whole run of touching ranges, by the set of ranges alone |
| Spans.StretchesExact | kern/vm.c:206-249 | from any range on, with any watermark: exactly what the RAM ranges still to come let in, above the watermark |
| Spans.StretchesAreRuns | kern/vm.c:206-249 | the stretches mapped are exactly, in every run of touching ranges, what lies from the 2M page of its first RAM to the 2M page of its end, below phys_map_top |
| DirectMap.HolesUnmapped | kern/vm.c:203-205 | a page whose 2M no range meets has no translation |
| DirectMap.Fresh | kern/vm.c:236-241 | what was mapped so far lies below the next stretch, so it is untranslated |
| DirectMap.MapStretch | kern/vm.c:232-245 | exactly the stretch is mapped in addition, with exactly the tables it needs, or a frame was missing |
| DirectMap.BuildDirectMap | kern/vm.c:206-249 | a page of the window is translated, and to itself, if and only if it lies in a run of touching ranges, from the 2M page of the run's first RAM to that of its end, below phys_map_top; every RAM byte is; no page twice; the precondition of map_range always holds; "nothing to map" exactly when no stretch was mapped; from a kernel table without others it succeeds if and only if the free list holds a frame for each table it needs |
| DirectMap.TablesNeeded | kern/vm.c:156-245 | those tables are one for each 512G that a stretch touches, and one for each 1G that it touches but cannot map with one page |
| DirectMap.RamIsMapped | kern/vm.c:206-249 | every byte of every RAM range translates to itself in the direct map |
| DirectMap.BootDirectMap | kern/bootinfo.c:21-29 | sort, detect_memory and the direct map in a row, on a memory map in any order: exactly what its runs of touching ranges take in is mapped, with every RAM byte, and each panic has its cause; from a kernel table without others memory runs out exactly when the free list is shorter than the tables needed |
| DirectMap.KvmAlloc | kern/vm.c:195-249 | the same from a bare free list: exactly what the runs of touching ranges take in is mapped |
| Arena.NeedCovers | kern/kalloc.c:203-203 | the rounded size covers header and request if and only if the 64-bit sum does not wrap |
| Arena.NeedIsZero | kern/kalloc.c:203-203 | the requests for which the sum wraps to zero |
| Arena.WalkNeverEnds | kern/kalloc.c:204-234 | once such a request has split a block, no walk along the list comes to its end |
| Arena.BentIsNoList | kern/kalloc.c:207-214 | and no sequence of blocks that tile the arena explains the headers |
| Arena.FreshBreaks | kern/kalloc.c:197-219 | a new arena breaks exactly for those requests, if it has at least 8192 bytes |
| Arena.LoopAtOnce | kern/kalloc.c:197-219 | such a request, on a new arena |
| Arena.Disjoint | kern/kalloc.c:197-234 | blocks do not overlap and lie inside the arena |
| Arena.AllFreeIsOne | kern/kalloc.c:221-234 | with nothing live the arena is one free block of full size |
| Arena.LiveDetermines | kern/kalloc.c:197-234 | the live blocks determine the whole list |
| Arena.TakePart | kern/kalloc.c:207-215 | splitting a free block keeps the tiling and adds exactly the taken part to the live blocks |
| Arena.MergeTwo | kern/kalloc.c:229-232 | merging two free neighbours keeps the tiling and the live blocks |
| Arena.VmArena.FirstFit | kern/kalloc.c:204-206 | the first free block that is large enough, or none is |
| Arena.VmArena.Coalesce | kern/kalloc.c:228-233 | no two neighbours are free; the live blocks are the same |
| Arena.VmArena.constructor | kern/kalloc.c:181-188 | one free block of full size |
| Arena.VmArena.Alloc | kern/kalloc.c:197-219 | the first free block that is large enough, cut to the size needed unless less than 8192 bytes would be left; the block is as large as asked if and only if the size sum does not wrap; one more live block, tiling and no two free neighbours if and only if the sum is not zero or the first free block is too small to split, and a list without end otherwise |
| Arena.VmArena.Free | kern/kalloc.c:221-234 | exactly that block is no longer live; blocks tile the arena and no two neighbours are free |
| SleepLock.InvReaches | kern/sleeplock.c:13-29 | every step of every process, scheduler and signal keeps the sleep-lock invariant |
| SleepLock.GoKeeps | kern/sleeplock.c:13-29 | every step of a process keeps the invariant |
| SleepLock.MutualExclusion | kern/sleeplock.c:13-39 | in every run at most one process is between a returned acquiresleep and its releasesleep of a lock, and the lock is locked in its name |
| SleepLock.AcquireTakes | kern/sleeplock.c:13-21 | in every run an acquiresleep that returns leaves the lock locked with the pid of its caller |
| SleepLock.ReleaseGives | kern/sleeplock.c:23-29 | in every run a releasesleep that returns leaves its caller without the lock |
| SleepLock.HoldingTells | kern/sleeplock.c:31-38 | in every run holdingsleep answers whether its caller has the lock |
| SleepLock.OwnerUnlocks | kern/sleeplock.c:13-29 | in every run a lock is unlocked only by a releasesleep of its owner, locked only by an acquiresleep of the new owner, and changes hands in no other way |
| SleepLock.NothingStale | kern/proc.c:571-606 | in every run a free lock has no pid, a process outside a sleep no channel, and a signalled process does not stay asleep |
| SleepLock.SleeperHasHolder | kern/proc.c:571-606 | no lost wakeup: with the inner spinlock free, a sleeper on a sleep lock means that another process has the lock or is releasing it |
| WaitExit.StepInv | kern/proc.c:179-333 | every step of fork, exit, waitpid, sleep, wakeup and signals keeps the process-table invariant |
| WaitExit.RunInv | kern/proc.c:179-333 | the invariant holds in every reachable state |
| WaitExit.ExitWakesInit | kern/proc.c:263-270 | handing over a zombie leaves init awake |
| WaitExit.ExitNoZombie | kern/proc.c:256-275 | after exit nobody still sleeps on a matching zombie |
| WaitExit.ReapHistory | kern/proc.c:296-316 | what is reaped had exited and was not reaped before |
| WaitExit.HandOver | kern/proc.c:263-270 | exit's loop gives every child to init and wakes init if one is a zombie |
| WaitExit.NoMissedExit | kern/proc.c:284-333 | in every run no process sleeps in waitpid while a matching child is a zombie, killed, or with a claimed signal pending; and it has a matching child |
| WaitExit.WakeupWakes | kern/proc.c:429-444 | wakeup leaves nobody asleep on the channel and touches nobody else; in every run only a process in a sleep has a channel |
| WaitExit.NoOrphans | kern/proc.c:231-276 | in every run a parent is neither a zombie nor unused, and every zombie has a parent |
| WaitExit.ReapedOnce | kern/proc.c:296-316 | in every run each exited process is a zombie or was reaped, never both, and none is reaped twice |
| WaitHistory.SignalsAreStory | kern/proc.c:446-456 | in every run a slot's killed flag, pending and claimed signals are what the steps did to it since it was last reaped or taken |
| WaitHistory.FreshSlot | kern/proc.c:62-84 | in every run a slot that fork takes starts without signals or parent, with a new pid, and killed if and only if a fork that failed left it so |
| WaitHistory.NoFailureNoStale | kern/proc.c:189-194 | as long as no fork fails nobody is born killed |
| WaitHistory.BornKilled | kern/proc.c:62-84 | steps after which a new process starts killed, because an earlier one in its slot was |
| WaitHistory.GiveUpMeans | kern/proc.c:318-323 | in every run waitpid returns -1 for a good target only without a matching child, or when the steps killed the caller or left it a claimed signal; and never with a zombie to return |
| WaitHistory.ReapMeans | kern/proc.c:296-316 | in every run waitpid returns the pid of an exited child of the caller, as asked for and not returned before, and its slot is free and not killed |
| WaitHistory.WaitDecides | kern/proc.c:293-332 | waitpid either returns a child, returns -1 or sleeps, by exactly one reason; nohang turns the sleep into 0 |
| Pipe.Tests | kern/pipe.c:78-105 | the full and empty tests on the wrapping counters are exact |
| Pipe.PutAppends | kern/pipe.c:86-86 | storing a byte appends it, also when the counter wraps |
| Pipe.SkipDrops | kern/pipe.c:108-108 | taking a byte removes the oldest |
| Pipe.PipeBuffer.constructor | kern/pipe.c:17-33 | a new pipe is empty whatever its page holds |
| Pipe.PipeBuffer.StoreByte | kern/pipe.c:86-86 | appends the byte |
| Pipe.PipeBuffer.TakeByte | kern/pipe.c:108-108 | returns and removes the oldest byte |
| Pipe.PipeBuffer.Store | kern/pipe.c:77-87 | appends bytes until done or full |
| Pipe.PipeBuffer.Take | kern/pipe.c:104-109 | takes the oldest bytes, up to n, until empty |
| PipeRuns.DataStep | kern/pipe.c:57-113 | every step keeps what was stored equal to what was taken followed by what is in the ring |
| PipeRuns.SleepStep | kern/pipe.c:57-113 | every step, but a killed write while a reader is asleep, leaves every sleeper with a reason to sleep |
| PipeRuns.KilledWriteStep | kern/pipe.c:78-82 | a killed write leaves every sleeper with a reason to sleep if and only if no reader is asleep |
| PipeRuns.ReadsArePrefix | kern/pipe.c:57-113 | in every run the bytes taken are a prefix of the bytes stored, and the counters differ by at most 512 |
| PipeHistory.StoredIsWritten | kern/pipe.c:73-95 | in every run, by the list of calls alone: what a write call has stored is exactly the first bytes of its buffer, in order, and the pipe's stored bytes are these prefixes interleaved |
| PipeHistory.WholeBuffer | kern/pipe.c:73-95 | in every run a write that succeeds has stored its whole buffer, one that fails has not |
| PipeHistory.ReadsReturnWrites | kern/pipe.c:73-113 | in every run what reads returned, with what is being copied and what is in the ring, is the written bytes, each call's in the order of its buffer |
| PipeHistory.OneWriterConcatenates | kern/pipe.c:73-113 | with a single writer that is the concatenation of what its calls have stored of their buffers |
| PipeHistory.ReadAmount | kern/pipe.c:94-113 | in every run a read returns less than asked only from an emptied pipe, and nothing only when it is empty and the write end is closed |
| PipeRuns.NobodyStuck | kern/pipe.c:57-113 | in every run whose killed writers returned while no reader was asleep: with the lock free, no reader sleeps with data or without writers, no writer with room or without readers |
| PipeRuns.NobodyStuckExactlyWhen | kern/pipe.c:57-113 | in no state of a run is anybody stuck if and only if every killed writer of it returned while no reader was asleep |
| PipeRuns.KilledWriterStrands | kern/pipe.c:78-82 | a run from a new pipe that leaves a reader asleep on a full pipe with the lock free |
| Framebuffer.Screen.constructor | kern/framebuffer.c:380-405 | black, no cell taken as drawn, nothing dirty; what the display shows is left |
| Framebuffer.Screen.MarkDirty | kern/framebuffer.c:112-138 | every byte that was dirty or lies in the box is dirty |
| Framebuffer.Screen.DirtyReset | kern/framebuffer.c:140-150 | nothing is dirty |
| Framebuffer.Screen.Present | kern/framebuffer.c:153-177 | display and shadow agree again on every byte where they agreed before drawing |
| Glyphs.RowIsFont | kern/framebuffer.c:426-431 | eight pixels of a glyph row, read from left to right as a binary number, are the byte of the font |
| Glyphs.PixelByte | kern/framebuffer.c:434-520 | pixel px of a cell takes the bytes from px times bytes-per-pixel on |
| Glyphs.PixelBytes | kern/framebuffer.c:486-492 | a pixel is its colour, little-endian |
| Glyphs.PairColours | kern/framebuffer.c:440-461 | the table entry that two bits of the glyph select is the two pixels' colours, the left one in the low half |
| Glyphs.DrawPixels | kern/framebuffer.c:470-520 | the pixel loop of the 16 and 24 bit modes draws exactly the cell's row: ink where the glyph has a bit, paper elsewhere |
| Glyphs.DrawPairs | kern/framebuffer.c:434-467 | the loop of the 32 bit modes, two pixels at a time, draws the same |
| Framebuffer.DrawLine | kern/framebuffer.c:434-520 | exactly the bytes of the cells become the line of their glyphs |
| Framebuffer.Screen.DrawSpan | kern/framebuffer.c:434-534 | exactly the bytes of those cells become their glyphs, and every changed byte is dirty |
| Framebuffer.Screen.Redraw | kern/framebuffer.c:554-569 | the canvas shows the cells, nothing else on it changes, the cache is those cells, and it is presented |
| Framebuffer.FirstChange | kern/framebuffer.c:585-587 | the first cell that differs |
| Framebuffer.LastChange | kern/framebuffer.c:588-590 | the last cell that differs |
| Framebuffer.Screen.FlushRow | kern/framebuffer.c:580-594 | exactly the cells between the first and the last that differ from the cache are drawn, and the cache row is the cells |
| Framebuffer.Screen.Flush | kern/framebuffer.c:571-596 | exactly the changed spans are drawn; the canvas is what a full redraw leaves if and only if every cell left out that the cache has as 0xffff is on the canvas already; the cache is the cells, and it is presented |
| Framebuffer.FlushIsRedraw | kern/framebuffer.c:554-596 | a flush and a full redraw of the same canvas leave the same canvas if and only if what the flush misses was on it already |
| Framebuffer.NoneMissed | kern/framebuffer.c:580-594 | with no 0xffff cell to be shown the flush misses nothing |
| Framebuffer.Screen.Clear | kern/framebuffer.c:598-606 | every byte is zero, no cell is taken as drawn, and the display is the canvas |
| Framebuffer.ScrollCoherent | kern/framebuffer.c:622-653 | moved lines and moved cells still belong together if and only if the fill cell looks like its paper or is 0xffff |
| Framebuffer.Screen.Scroll | kern/framebuffer.c:609-656 | lines and cells move up together, every changed byte is dirty; they stay in step if and only if the fill cell looks like its paper or is 0xffff; a scroll of all rows clears |
| Framebuffer.UnknownNotDrawn | kern/framebuffer.c:583-591 | after a clear, for any cells: a flush leaves what a redraw leaves if and only if colour 15 is black or no row begins or ends with a 0xffff cell |
| Framebuffer.VgaNotDrawn | kern/framebuffer.c:71-75 | with the palette of the 24 and 32 bit modes, if and only if no row begins or ends with a 0xffff cell |
| Framebuffer.UnknownIsWhite | kern/framebuffer.c:434-520 | 0xffff is drawn in colour 15 all over, whatever its glyph |
| Framebuffer.WhiteCellStaysBlack | kern/framebuffer.c:583-591 | a screen on which a flushed 0xffff cell stays black and a redrawn one is white |
| Framebuffer.BlankIsPaper | kern/framebuffer.c:658-658 | a cell without ink, such as the space, looks like its paper |

## Left out

- Read-only roots: what begin_op, log_write and end_op do after initlog_readonly.
- Device drivers and register access (ide, ahci, nvme, e1000, virtio, lapic, ioapic, acpi, pci, uart); an abstract block device stands for them, and I/O errors do not occur.
- The FAT32 file system, the FAT32 and UFS2 branches of readi and writei, devfs and path walking.
- Native directories (dirlink, dirlookup, names of 14 bytes) and the on-disk inode table: iupdate, ialloc and iput. The inodes of the native file system are the cached ones.
- UFS2 inodes on disk (ufs2_inode_offset, ufs2_read_inode, ufs2_write_inode, inode allocation), single fragments, the inode half of ufs2_make_directory, and ufs2_readdir. The inodes are the in-memory ones, and the maps found through cylinder-group headers are given.
- Ufs2File.Ufs2Volume.Read: not for blocks behind the indirect pointer; files are the twelve direct blocks, the only ones the writer allocates.
- Ufs2File.Ufs2Volume.WriteGrowing: the mode test, files are regular; and volumes with sectors past the 32-bit numbers, where device accesses fail.
- UFS2 directories whose size is no multiple of 512, and the error returns on malformed records: the scans are modelled on well-formed regions.
- exec's file reading, growproc, inituvm, loaduvm, clearpteu and the kernel-image and ioremap parts of kvmalloc.
- Efirt.EfiInit: for firmware ranges in the lower half that overlap neither each other nor page zero, which the source does not test.
- DirectMap.BuildDirectMap: the frame count is stated for a kernel table without other tables, as kvmalloc has it.
- DirectMap.BootDirectMap: for memory maps in which real memory, and every range that starts below its end, ends below DMAP_MAX, and in which no end wraps around; the source tests neither.
- AddressSpace.AllocUvm: for new sizes below 2^31 or from KERNBASE on; those between come back as a negative int.
- CopyVm.CopyUvm: for sizes below 2^31, the ones allocuvm makes.
- Wrap-around of pids: nextpid is unbounded.
- The GPU branch of fb_present and drawing without a shadow; the scanline buffer that draw_span_32 fills before it copies a line.
- The video-mode, font and palette selection: face, palette and geometry are given.
- Glyphs.DrawPairs: for faces of even width, as all those of kern/font.c are.
- Cursor, escape sequences and virtual terminals of the console.
- The network stack, accounts, boot loaders, real mode and user programs.
- GroupCommitRuns.CommitStopsExactlyWhen: counts the buffers that the log pins; a buffer that a process holds for a block it does not log, or that a reader outside any operation holds, takes no place here.
- SleepLock.MutualExclusion: a process does not acquire a sleep lock that it holds, which in the source would put it to sleep for ever.
- WaitExit.StepInv: the sections under ptable.lock are single steps; that the spinlock makes them so is not modelled here, unlike in SleepLock.
- BcacheRuns.StepInv: the sections under bcache.lock and a block transfer are single steps, and a holder that changes a buffer hands it to bwrite or log_write before releasing it.
- mkfs's superblock, inode blocks and directory entries, and the rounding up of the root directory's size (kern/mkfs.c:212-217); a file's inode is the one that iappend reads and writes back. mkfs does not bound the inode number.
- FsFile.Writei: after balloc's panic on a full disk nothing is stated about the file being written, since the machine has stopped.
