# A verified model of the xv6 kernel's storage, memory and process code

This project models, in Dafny, the parts of xv6 (32-bit x86, with per-process tickets) whose correctness depends on
whole runs rather than on single calls, and proves what those parts are for.

* **Crash-safe storage.** `LogDisk`, `Log`: the redo log of log.c, one disk write at a time. Every disk write carries
  the home blocks that a crash right after it must recover to. `GroupCommit`, `GroupCommitProofs`: every interleaving
  of begin_op, log_write, end_op, the writes of a commit, crashes, and crashes inside recovery. `LogCapacity`: when
  the reservation of begin_op keeps log_write from panicking. `LogOverflow`: when the log can be overrun without a panic,
  and what rules that out. `Ring`, `BufferCache`: the LRU list and the pinning of bio.c as a refinement of a plain block
  store. `Ide`: the interrupt-driven queue of ide.c as a refinement of memide.c.
* **File system.** `Volume`, `FileSystem`, `FileLayer`: block allocation, the direct and indirect block map, truncation,
  reading, writing, and the chunking of filewrite. `InodeCache`: the inode cache as a refinement of the plain inodes those
  work on. `Links`, `Namespace`: directories and link counts.
* **Memory.** `FreeList`, `Umalloc`: the circular free list of section 8.7 of The C Programming Language, second edition.
  `Pages`, `Vm`: ownership of every physical page by kalloc's list or by a page directory.
* **Processes.** `Monitor`: sleep and wakeup at the grain of single lock operations, for any number of processes and any
  client. `LogSleep`, `SleepLock`, `SleepQueue`: the log, the sleep locks and a queue as such clients. `ProcTable`, `Processes`: the process
  table, the scheduler, fork, exit, wait, kill and tickets.
* **Language pieces.** `ShellSyntax`, `Shell`, `ShellText`: the shell's parser and its delayed NUL termination.
  `Grep`: the matcher against a declarative meaning of patterns.

`Params`, `Blocks` and `Common` hold what several of these share.

State that the source updates in place is held in classes, loops are loops, and each method is specified by functions
and predicates over values, about which the lemmas are proved. A class invariant that every method requires and ensures
holds in every state reachable by any sequence of calls. Methods that the source runs under one spinlock are one atomic
step, so a sequence of calls is an interleaving of processes. `panic` is an outcome of the call (`Panic`, `Halted`,
`false` or `None`), so that "panics exactly when" and "never panics" can be stated.

Some promises do not hold of the code as written; each has its exact condition here.

* What recovery shows is right at every instant of every run if and only if the log area has at least NBUF blocks, or
  the header alone (`LogOverflow.AtomicityIff`). log_write tests the size of the log before it takes log.lock and not
  again under it, so two operations, both within their budget, can pass the test when one slot is left. In a log area
  smaller than the buffer cache write_log then overwrites the first block after the log before the header is written,
  with no panic (`LogOverflow.AtomicityFails` is such a run). mkfs gives the area LOGSIZE blocks, which is NBUF: there a
  list too long for the area has pinned every buffer, and bget panics before commit writes anything, so the disk stays
  good (`GroupCommitProofs.RunSafe`, `Log.Log.Commit`; `LogOverflow.CommitPanics` is such a run). In a log area of any
  size atomicity holds of every run in which the log_writes under way leave one another room
  (`LogOverflow.UnhurriedAtomicity`), and so of every run with the test made under the lock
  (`LogOverflow.LockedAtomicity`).
* A write within its budget never meets the size panic if and only if `log.size` exceeds LOGSIZE
  (`LogCapacity.ReservationHoldsIff`). Rewriting a block that is already listed panics once LOGSIZE blocks are listed,
  however large the log (`LogCapacity.AbsorbedWritePanics`). The only other panic is the one of bget at the start of a
  commit, exactly when NBUF blocks are listed (`GroupCommitProofs.PanicExactly`).
* itrunc, and so iput, stays within the MAXOPBLOCKS blocks reserved for an operation if and only if the file has blocks
  under fewer than MAXOPBLOCKS bitmap blocks (`FileSystem.TruncCost`); on a disk of up to (MAXOPBLOCKS - 1) * BPB blocks,
  like the one of FSSIZE blocks that mkfs makes, it always does.
* ialloc can pick an inode that still has a valid cache entry, but only the entry of an iput that has freed the inode and
  is about to invalidate it under the entry's lock (`InodeCache.FreeOnDisk`; `InodeCache.PickedWhileValid` is such a run).
  The comment at fs.c:130-134 says that iput clears `valid` when the last reference goes; the code does so only when it
  frees the inode, and iget clears it instead when the entry is used again. The model follows the code.
* malloc's block holds the bytes asked for if and only if the 32-bit rounding does not wrap (`Umalloc.RoundingIff`), and
  its request reaches sbrk unchanged if and only if it is below 2^31 bytes (`Umalloc.RequestIff`).
* create, mkdir and link keep the link counts right if and only if the directory they work in has not been removed
  (`Links.CreateIff`, `Links.MkdirIff`, `Links.LinkIff`; `Links.RemovedWhileOpen` is a state in which all three fail).

## Model

| member | source | states |
|---|---|---|
| `LogDisk.HeadRoundTrip` | log.c:86-113 | whatever the header block held before, read_head gets back exactly the block list write_head stored |
| `LogDisk.RedoSlot` | log.c:70-82 | redoing the log leaves in a block the contents of the last slot that names it |
| `LogDisk.RedoMiss` | log.c:70-82 | redoing the log leaves a block no slot names as it was |
| `LogDisk.RedoFrame` | log.c:70-82 | what redoing yields for a block depends only on the log slots, and on the block itself just when no slot names it |
| `LogDisk.WriteSlotShows` | log.c:178-190 | while the header is clear, filling a log slot changes nothing that recovery would show |
| `LogDisk.WriteHeadShows` | log.c:102-113 | the header write is the commit point: from it on, recovery shows the logged contents of all listed blocks |
| `LogDisk.InstallShows` | log.c:70-82 | copying any committed slot home, in any order and any number of times, changes nothing that recovery would show |
| `LogDisk.ClearShows` | log.c:116-122 | once the home blocks hold what recovery would show, clearing the header loses nothing |
| `Log.LoggedRedo` | log.c:178-190 | when every slot holds its block's new contents, redoing the log gives all the new contents and leaves the rest |
| `Log.LoggedAll` | log.c:178-199 | after write_log, the header write makes recovery show the whole transaction |
| `Log.InstalledAll` | log.c:70-82 | after install_trans the home blocks are exactly what recovery showed |
| `Log.Log.Bwrite` | bio.c:110-116 | one synchronous block write, tied to the home blocks a crash after it recovers to |
| `Log.Log.Bread` | bio.c:62-106 | the pinned contents, else those on disk; bget panics exactly when every buffer is pinned and the block is not among them |
| `Log.Log.ReadHead` | log.c:86-96 | the in-memory list becomes the committed list on disk |
| `Log.Log.FormatHead` | log.c:102-113 | the loop over the list edits the header buffer to the encoding of the list, keeping stale entries |
| `Log.Log.WriteHead` | log.c:102-113 | the header block on disk encodes the in-memory list, and nothing else changes |
| `Log.Log.WriteLog` | log.c:178-190 | all pinned blocks are in their slots, and a crash at any of these writes recovers to the old home blocks; panics exactly when NBUF blocks are listed, before the first write |
| `Log.Log.InstallTrans` | log.c:70-82 | the home blocks equal what recovery showed before, at every write a crash recovers to the same, and no buffer stays pinned |
| `Log.Log.CommitPoint` | log.c:193-199 | a crash before the header write recovers to none of the transaction, a crash after it to all of it; panics exactly when every buffer is pinned, with nothing written |
| `Log.Log.FinishTransaction` | log.c:197-201 | installing and clearing: home blocks as committed, header clear, every write in between harmless to crash at |
| `Log.Log.Commit` | log.c:193-202 | the exact sequence of recovered states over all the writes of a commit: old until the header write, new ever after; panics exactly when NBUF blocks are listed, with disk and list as they were |
| `Log.Log.RecoverFromLog` | log.c:116-122 | boot leaves exactly the home blocks recovery must show, and crashing at any write of recovery recovers to the same |
| `Log.Log.LogWrite` | log.c:214-233 | panics exactly when the log is full or no operation is open; otherwise the block is listed once and its contents pinned |
| `Log.Log.BeginOp` | log.c:126-141 | admitted exactly when no commit runs and every open operation plus one still fits the log |
| `Log.Log.EndOp` | log.c:146-174 | only the last operation commits, its commit puts every pinned block home with the crash states of Commit; panics exactly on a commit under way or, in the last operation, with NBUF blocks listed, and then nothing was written |
| `GroupCommitProofs.NextInv` | log.c:126-233 | every step of every process, of commit, of recovery, and a crash, keeps the whole invariant for as long as the listed blocks fit the log area |
| `GroupCommitProofs.NextPinned` | log.c:178-233 | every such step keeps: between commits exactly the listed blocks are pinned, each once, and a commit that has written anything had a buffer to spare |
| `GroupCommitProofs.NextSafe` | log.c:126-233 | every such step from a state with a sound disk leads to one, also past the end of a log area that has as many blocks as there are buffers: the commit that would overrun it only panics |
| `GroupCommitProofs.NextBooks` | log.c:126-233 | every such step keeps flags, counts, reservations, pins and histories right, whatever the size of the log |
| `GroupCommitProofs.RunBooks` | log.c:126-233 | so they are right in every state of every run with any number of operations and crashes, in a log of any size |
| `GroupCommitProofs.RunInv` | log.c:126-233 | the whole invariant, disk included, holds throughout every run in which the log area is never overrun |
| `GroupCommitProofs.RunSafe` | param.h:11-12 | so the disk is sound in every state of every run, in a log area of at least NBUF blocks without any condition on the run |
| `GroupCommitProofs.HeadCommits` | log.c:193-199 | the header write makes the gathered transaction part of what recovery shows, all at once |
| `GroupCommitProofs.SlotFree` | log.c:132-140 | an operation within its budget always finds a free slot in the header array |
| `GroupCommitProofs.Atomicity` | log.c:1-22 | in every run an operation has all its writes past a commit point or none, and unless a log area smaller than the buffer cache was overrun a crash recovers to exactly the writes past one |
| `GroupCommitProofs.Recovered` | log.c:116-122 | when recovery or a commit ends, the home blocks themselves are exactly the committed writes, unless a log area smaller than the buffer cache was overrun |
| `GroupCommitProofs.Durability` | log.c:193-202 | once past its commit point an operation keeps all its writes through every later step, crashes included |
| `GroupCommitProofs.EndOpDurable` | log.c:146-174 | a commit runs only while nothing is outstanding, and end_op returns from it only when every ended operation is durable |
| `GroupCommitProofs.EndAccounts` | log.c:152-153 | the panic of end_op on log.committing is unreachable, in a log of any size |
| `GroupCommitProofs.NewBlockNeverPanics` | log.c:214-221 | logging a new block within budget never panics, even though the size test races with other operations |
| `GroupCommitProofs.PanicExactly` | log.c:178-221 | in every run a step panics if and only if it is a size test on a full log or the first write of a commit with NBUF blocks listed; in a log of more than LOGSIZE blocks the size test fails exactly when LOGSIZE are listed |
| `LogCapacity.ReservationHoldsIff` | mkfs.c:25 | writes of new blocks within budget are safe from the size panic in every run if and only if log.size exceeds LOGSIZE |
| `LogCapacity.AbsorbedWritePanics` | log.c:218 | for every larger log, a run within budget in which rewriting a listed block panics |
| `LogOverflow.AtomicityFails` | log.c:218-230 | for every log area of at least 2 and fewer than NBUF blocks, a run within budget and without panic in which write_log overwrites a home block before the header is written |
| `LogOverflow.CommitPanics` | bio.c:78-92 | for every log area of at least NBUF blocks, a run within budget in which a commit finds every buffer pinned and panics before it has written anything |
| `LogOverflow.AtomicityIff` | mkfs.c:25 | recovery shows the right blocks in every run if and only if log.size is at least NBUF or is 1 |
| `LogOverflow.LargeFits` | log.c:132-140 | a log of more than LOGSIZE blocks is never overrun |
| `LogOverflow.UnhurriedAmple` | log.c:214-233 | a log of any size is not overrun while the blocks listed and the log_writes under way together leave a slot at each size test |
| `LogOverflow.UnhurriedAtomicity` | log.c:214-233 | atomicity in a log of any size under that condition |
| `LogOverflow.LockedAtomicity` | log.c:214-233 | atomicity in a log of any size when the size test and the update of log_write are one step |
| `Ring.Unlinked` | bio.c:132-133 | taking a buffer out leaves a well-formed doubly linked ring of the others |
| `Ring.Pushed` | bio.c:134-137 | putting it in after the head gives a well-formed ring with it first |
| `Ring.MovedToFront` | bio.c:132-137 | the six assignments of brelse move one buffer to the front and keep the order of the rest |
| `BufferCache.InUseFirst` | bio.c:68-76 | a buffer in use is the first of its name on the list, and later ones of that name are idle |
| `BufferCache.CoherentEvict` | bio.c:78-90 | recycling a clean buffer loses nothing, for its block is on disk |
| `BufferCache.CoherentStore` | bio.c:97-106 | changing a held buffer changes exactly that block of the plain store |
| `BufferCache.CoherentWrite` | bio.c:110-116 | writing a held buffer through leaves the plain store unchanged, or gives it the contents of a buffer that was never read |
| `BufferCache.OldestAt` | bio.c:81-82 | the first recyclable buffer from the tail is the one released longest ago |
| `BufferCache.Cache.constructor` | bio.c:39-56 | binit builds a ring of all buffers that stands for the disk as it is, although all have the same name |
| `BufferCache.Cache.FindNamed` | bio.c:68-76 | the scan finds the first buffer of that name exactly when there is one |
| `BufferCache.Cache.FindOldest` | bio.c:78-91 | the backward scan finds the least recently released clean unreferenced buffer, or there is none |
| `BufferCache.Cache.Get` | bio.c:62-93 | the one buffer of that name gains a reference, else the oldest recyclable one is renamed; panics exactly when neither exists; the cache still stands for the same store |
| `BufferCache.Cache.Acquire` | sleeplock.c:23-32 | taking the buffer's sleep lock keeps the invariant |
| `BufferCache.Cache.Fill` | bio.c:97-106 | bread ends with the last contents stored in that block, across any evictions |
| `BufferCache.Cache.Store` | bio.c:8-14 | the holder's change becomes the block's contents for everyone after |
| `BufferCache.Cache.Pin` | log.c:231 | a dirty buffer is kept in the cache |
| `BufferCache.Cache.Bwrite` | bio.c:110-116 | the disk gets the buffer's contents, read or not; panics exactly when the caller does not hold the lock |
| `BufferCache.Cache.Release` | bio.c:121-126 | panics exactly when the caller does not hold the lock; the cache still stands for the same store if and only if what was changed is pinned or written |
| `BufferCache.Cache.Unref` | bio.c:128-140 | the last release moves the buffer to the front of the ring as the most recent; others leave the order alone |
| `Ide.MemDisk.Iderw` | memide.c:39-60 | the synchronous disk: refused exactly when there is nothing to do or the block is out of range, else buffer and disk are synchronised |
| `Ide.Served` | ide.c:104-131 | after one interrupt, queue, links and controller stand as if the oldest request had been served synchronously |
| `Ide.IdeDisk.constructor` | ide.c:51-70 | an idle controller with an empty queue |
| `Ide.IdeDisk.Append` | ide.c:151-155 | the pointer walk puts the request at the end of the queue, and makes it the head exactly when the queue was empty |
| `Ide.IdeDisk.Submit` | ide.c:138-159 | requests queue in order of arrival and the controller always works on the head; a clean valid buffer panics |
| `Ide.IdeDisk.Complete` | ide.c:74-100 | the controller carries out the command of the head and no other |
| `Ide.IdeDisk.Touch` | ide.c:133-137 | a buffer that is not queued can change under the driver without disturbing it |
| `Ide.IdeDisk.Ideintr` | ide.c:104-131 | the oldest request ends with the flags, data and disk contents that memide gives it, and the next one starts; with no request queued nothing changes |
| `Volume.MarkUsedKeeps` | fs.c:57-78 | a block from balloc is owned by nobody, and taking it changes no file byte and no mapping |
| `Volume.PlaceKeeps` | fs.c:374-401 | storing a fresh block in an empty slot gives it its one owner and changes no file byte |
| `Volume.GivenBytes` | fs.c:43-51 | a zeroed block reads the same as the hole it fills |
| `Volume.GrownMapped` | fs.c:374-401 | mapping the next block of a file extends its mapped prefix by one and touches no other file |
| `Volume.FreeNext` | fs.c:409-436 | each block itrunc is about to free is still marked used |
| `Volume.FreedTruncated` | fs.c:409-436 | the two loops of itrunc free exactly the blocks of the inode |
| `Volume.TruncatedOwned` | fs.c:409-436 | truncation keeps single ownership and leaves every other file unchanged |
| `Volume.PatchKeeps` | fs.c:500-504 | copying bytes into a mapped block splices them into the file and nothing else |
| `Volume.SpliceJoin` | fs.c:499-505 | consecutive chunks written one after the other are one splice |
| `Volume.OverwriteKeepsInode` | fs.c:507-510 | a write inside the file leaves the inode as it was, so it needs no iupdate |
| `Volume.GrowKeepsNoHoles` | fs.c:507-510 | setting the size after growing restores the no-holes invariant |
| `Volume.ReadBack` | fs.c:454-512 | after a write, any range of the file reads as the written bytes inside it and the old bytes around them; other files read as before |
| `FileSystem.ChunkFits` | file.c:127-133 | a filewrite chunk costs at most MAXOPBLOCKS distinct blocks whatever its offset and alignment |
| `FileSystem.LedgerCost` | fs.c:483-512 | data, bitmap, indirect and inode blocks logged by one writei stay within its cost |
| `FileSystem.EnterWithin` | fs.c:374-401 | each block touched adds at most its data block, one bitmap block per allocation and the one indirect block |
| `FileSystem.TruncLogIs` | fs.c:409-436 | the blocks itrunc logs besides the inode block are those of the bitmap that have the bit of a block of the file |
| `FileSystem.TruncCost` | fs.c:409-436 | itrunc stays within MAXOPBLOCKS blocks if and only if those bitmap blocks are fewer; they are at most as many as the disk has |
| `FileSystem.EntryGrown` | fs.c:386-397 | allocating an indirect block and an entry in it, whichever are missing, maps the one block, changes no byte and logs exactly the blocks bmap is said to log |
| `FileSystem.FileSystem.Balloc` | fs.c:57-78 | the lowest free block, zeroed; panics exactly when all are in use |
| `FileSystem.FileSystem.Bfree` | fs.c:82-96 | clears exactly that bit; panics exactly when the block is already free |
| `FileSystem.FileSystem.Bmap` | fs.c:374-401 | the block's address, allocated only if missing; single ownership kept, no byte changed, the logged blocks named exactly; panics only past the largest file or on a full disk |
| `FileSystem.FileSystem.Iupdate` | fs.c:222-237 | the inode on disk equals the cached one |
| `FileSystem.FileSystem.FreeEntries` | fs.c:425-428 | frees every block of the indirect block, none of them twice, and no bfree panics |
| `FileSystem.FileSystem.Itrunc` | fs.c:409-436 | frees exactly the blocks of the inode and leaves all others alone; no bfree inside it panics; logs exactly the inode block and the bitmap blocks of the file's blocks |
| `FileSystem.FileSystem.Readi` | fs.c:454-477 | the requested bytes clipped to the size; refused exactly past the end or on 32-bit overflow; allocates and logs nothing |
| `FileSystem.FileSystem.WriteChunk` | fs.c:499-505 | one iteration splices its piece into the file |
| `FileSystem.FileSystem.Writei` | fs.c:483-512 | all bytes spliced at the offset, size grown exactly as needed, no holes, disk inode current, log cost bounded; refused exactly past the end, on overflow or beyond the largest file |
| `FileSystem.FileSystem.FreeInode` | fs.c:342-344 | what iput does once its tests have passed: the inode and exactly its blocks are freed, other files unchanged, at the log cost of itrunc |
| `FileSystem.FileSystem.Ialloc` | fs.c:202-214 | the lowest inode free on disk becomes blank there and in core, given that no inode free on disk is in use in core, which InodeCache.Marked shows; panics exactly when there is none |
| `InodeCache.WriteThrough` | fs.c:217-221 | unless some holder has changed a copy and not yet written it, the inodes the cache stands for are exactly those on disk |
| `InodeCache.Icache.UnlockedCurrent` | fs.c:217-221 | in every interleaving in which holders write their changes before unlocking, a valid unlocked entry equals its inode on disk |
| `InodeCache.Stepped` | fs.c:196-353 | a step on one referenced entry and its inode keeps one entry per inode, the reference counts and the standing of the whole cache |
| `InodeCache.Recycled` | fs.c:243-273 | giving an unreferenced entry to another inode loses nothing |
| `InodeCache.Unreferenced` | fs.c:333-353 | the last reference takes nothing with it unless a change was never written |
| `InodeCache.Marked` | fs.c:196-215 | ialloc writes the disk alone, and the plain inodes change exactly as the disk does, for no entry answers for an inode free on disk |
| `InodeCache.FreeOnDisk` | fs.c:333-353 | a valid entry of an inode free on disk is that of an iput which has erased it and holds its lock |
| `InodeCache.PickedWhileValid` | fs.c:343-346 | a run in which ialloc picks an inode whose entry is still valid, an iput having erased it and holding its lock |
| `InodeCache.Icache.constructor` | fs.c:173-187 | an empty cache stands for the disk |
| `InodeCache.Icache.Scan` | fs.c:249-260 | the entry of the inode if one is referenced, and the first free entry |
| `InodeCache.Icache.Iget` | fs.c:243-273 | the one entry of the inode gains a reference, else the first free entry is given to it; panics exactly when every entry serves another inode |
| `InodeCache.Icache.Idup` | fs.c:278-284 | one more reference, counted |
| `InodeCache.Icache.Acquire` | fs.c:289-297 | taking the lock with a reference in hand; the panic of ilock on a zero count is unreachable |
| `InodeCache.Icache.Load` | fs.c:299-312 | whoever holds the lock sees the inode as the plain inodes have it, read or cached; panics exactly on an inode that is free |
| `InodeCache.Icache.Modify` | fs.c:217-221 | the holder changes one inode for everyone after |
| `InodeCache.Icache.Iupdate` | fs.c:222-237 | the inode on disk catches up with the copy and the plain inodes stay |
| `InodeCache.Icache.Iunlock` | fs.c:317-323 | panics exactly for one who does not hold the lock; breaks write-through exactly when the holder left a change unwritten |
| `InodeCache.Icache.PutTest` | fs.c:336-340 | iput decides to free exactly when the entry is valid, has no links and this is the last reference |
| `InodeCache.Icache.PutErase` | fs.c:342-344 | copy, disk and plain inode are freed together; besides the caller only those who looked the inode up since the test hold a reference |
| `InodeCache.Icache.PutClear` | fs.c:345 | the entry stops counting as valid and the plain inodes stay |
| `InodeCache.Icache.Unref` | fs.c:350-352 | the count is the references held, and the plain inodes stay when every change was written |
| `InodeCache.Icache.Mark` | fs.c:196-215 | the lowest inode free on disk is blank there and in the plain inodes with no entry touched; panics exactly when there is none |
| `FileLayer.WriteTxn` | file.c:140-145 | one transaction writes one chunk and logs at most MAXOPBLOCKS distinct blocks |
| `FileLayer.Filewrite` | file.c:118-156 | all bytes land, or exactly the prefix before a refused chunk; every transaction fits the log; the short-write panic is unreachable |
| `FreeList.InsertOrdered` | umalloc.c:33-42 | free keeps the list in address order with no two free blocks touching |
| `FreeList.InsertUnits` | umalloc.c:33-42 | after free the free units are those before plus exactly the block's |
| `FreeList.InsertLinked` | umalloc.c:33-42 | the header writes of free leave the ring of the merged list |
| `FreeList.CarveOrdered` | umalloc.c:75-85 | malloc keeps the order and the gaps |
| `FreeList.CarveUnits` | umalloc.c:75-85 | the free units before malloc are those after it plus those handed out, never both |
| `FreeList.FreeUndoesMalloc` | umalloc.c:25-90 | freeing what malloc has just cut off restores the free list exactly |
| `FreeList.GapExists` | umalloc.c:30-32 | every block above the base has a gap in the ordered list where it belongs |
| `Umalloc.RoundingIff` | umalloc.c:69 | the block is large enough if and only if the 32-bit rounding does not wrap |
| `Umalloc.RequestIff` | umalloc.c:52-54 | sbrk receives the size needed if and only if it is below 2^31 bytes or the rounding wrapped |
| `Umalloc.FreedPartition` | umalloc.c:25-44 | after free every unit obtained is still free or held by exactly one caller |
| `Umalloc.CutPartition` | umalloc.c:75-85 | after malloc every unit obtained is still free or held by exactly one caller |
| `Umalloc.NoFit` | umalloc.c:74-88 | a search that has come round to its start has seen every entry |
| `Umalloc.Fresh` | umalloc.c:75-85 | the block malloc hands out is nobody's yet |
| `Umalloc.Heap.FindGap` | umalloc.c:30-32 | from anywhere on the ring the search ends, in the one gap the block belongs in |
| `Umalloc.Heap.Free` | umalloc.c:25-44 | the block is returned and merged with both neighbours; ring and partition kept |
| `Umalloc.Heap.Morecore` | umalloc.c:47-61 | the units obtained grow by exactly the request and a fitting block exists, or nothing changes |
| `Umalloc.Heap.Malloc` | umalloc.c:64-90 | fails exactly when no free block fits and the kernel refuses; otherwise one new block of the rounded size; asks the kernel at most once |
| `Pages.DetachSound` | vm.c:284-298 | letting go of a directory without user memory leaves every other page with its owner |
| `Pages.UnmapSound` | vm.c:256-279 | unmapping frees the one page behind the entry |
| `Vm.KernelMap` | vm.c:105-115 | the ranges of the kernel map are non-empty, in order, disjoint and above KERNBASE |
| `Vm.Undone` | vm.c:222-249 | releasing what a failed allocuvm leased leaves only page tables behind |
| `Vm.GivenBack` | vm.c:316-345 | giving back all that was lent to a new directory restores the owner of every page |
| `Vm.DisjointPages` | vm.c:316-345 | the user memories of two directories share no physical page |
| `Vm.Memory.Kalloc` | kalloc.c:83-95 | a free page changes hands, or there is none |
| `Vm.Memory.Kfree` | kalloc.c:60-77 | the page is free again, once, and overwritten |
| `Vm.Memory.Walk` | vm.c:36-55 | a page table exists for the address; only free pages changed hands; no mapping and no page in use changed |
| `Vm.Memory.MapUser` | vm.c:61-80 | exactly one entry is added, or out of memory and nothing changed |
| `Vm.Memory.Deallocuvm` | vm.c:256-279 | exactly the user pages between the two sizes are unmapped and freed, missing tables skipped without missing a page |
| `Vm.Memory.Allocuvm` | vm.c:222-249 | new zeroed writable pages for exactly the range, or the old user mappings with at most page tables added |
| `Vm.Memory.Freevm` | vm.c:284-298 | every page taken for the directory is returned exactly once and no other page is touched |
| `Vm.Memory.MapRange` | vm.c:61-80 | one range of the kernel map is mapped page by page |
| `Vm.Memory.Setupkvm` | vm.c:119-136 | a directory with exactly the kernel mappings, or nothing changed hands |
| `Vm.Memory.Copyuvm` | vm.c:316-345 | equal flags and contents on pages of its own, or every page owner and directory as before; panics only on an absent page below the size |
| `Links.CreateSound` | sysfile.c:261-279 | create of a file keeps link counts, unique names and the directory tree |
| `Links.MkdirSound` | sysfile.c:261-279 | create of a directory keeps them, counting the parent's new ".." link |
| `Links.UnlinkSound` | sysfile.c:218-229 | unlink of a file keeps them |
| `Links.RmdirSound` | sysfile.c:218-229 | unlink of an empty directory keeps them |
| `Links.OneName` | sysfile.c:185-239 | an empty directory has exactly one name, in the directory its ".." names |
| `Links.TwoNames` | sysfile.c:221-224 | the parent of a removed directory stays linked |
| `Links.ReleaseSound` | fs.c:333-353 | freeing an inode without links leaves no dangling name |
| `Links.NamedIsLinked` | sysfile.c:211-212 | a name in a linked directory means at least one link |
| `Links.ReachesRoot` | sysfile.c:269-276 | directories form one tree: from every linked directory finitely many steps through ".." lead to the root |
| `Links.RootedMore` | sysfile.c:261-279 | a new directory is below the root like its parent |
| `Links.RootedSame` | sysfile.c:185-239 | no other operation puts a directory out of reach of the root |
| `Links.CreateIff` | sysfile.c:248-279 | link counts, and all else that is sound, stay right after create if and only if the directory is still linked |
| `Links.MkdirIff` | sysfile.c:248-279 | the tree and the link counts stay right after mkdir if and only if the parent is still linked |
| `Links.LinkIff` | sysfile.c:144-151 | link counts, and all else that is sound, stay right after link if and only if the directory is still linked |
| `Links.RemovedWhileOpen` | sysfile.c:218-229 | a sound state with a removed directory in which create, mkdir and link go through and leave it unsound |
| `Namespace.Dirlookup` | fs.c:526-549 | finds an entry with that 14-byte name exactly when one is in use |
| `Namespace.Dirlink` | fs.c:553-579 | refuses exactly a name in use, else fills the first free slot or grows by one |
| `Namespace.Isdirempty` | sysfile.c:169-181 | true exactly when nothing but the two dots is in use |
| `Namespace.FileTree.LinkStart` | sysfile.c:119-142 | the link is counted before it exists, and directories are refused |
| `Namespace.FileTree.LinkEnd` | sysfile.c:144-165 | the entry is written exactly when the directory was reached and the name is new, else the count goes back; the state stays sound unless the entry went into a removed directory |
| `Namespace.FileTree.Unlink` | sysfile.c:185-239 | succeeds exactly for a listed name that is no dot and no non-empty directory; the panic on a zero link count is unreachable |
| `Namespace.FileTree.Create` | sysfile.c:242-284 | creates exactly when the name is new; an existing file answers to itself; all else refused without change; the state stays sound unless the directory was removed |
| `Namespace.FileTree.Release` | fs.c:333-353 | only an inode nobody names is freed |
| `Monitor.StepJustified` | proc.c:436-492 | every single lock operation keeps: whoever has given up lk to sleep has reason to, or a wakeup is due |
| `Monitor.StepLocks` | proc.c:436-492 | each lock is held by exactly the process whose place says so |
| `Monitor.NoLostWakeup` | sleep1.p:1-55 | for every client that calls wakeup whenever it unblocks the condition: in every run of any number of processes, whoever sleeps is blocked by the condition or a wakeup is on its way, also when wakeup follows the release |
| `Monitor.WakeRouses` | proc.c:476-492 | after a wakeup nobody sleeps or is about to |
| `Monitor.SomeoneMoves` | proc.c:436-470 | no deadlock between lk and ptable.lock in any run |
| `Monitor.StuckOnlyBlocked` | proc.c:436-492 | where nobody can move, everyone is outside or asleep on a condition that blocks |
| `LogSleep.UnblockedByEndOp` | log.c:126-174 | a step that lets a waiting begin_op through is one of the two branches of end_op that call wakeup |
| `LogSleep.LogDutiful` | log.c:126-174 | log.c meets the condition of NoLostWakeup in every reachable state, its steps without log.lock included |
| `LogSleep.RunDrained` | log.c:146-174 | with nothing outstanding and no commit running the log is empty, in every run |
| `LogSleep.AsleepInBeginOp` | log.c:126-141 | whoever sleeps in begin_op has a commit, an operation or a wakeup to wait for, in every interleaving and a log of any size |
| `SleepLock.AsleepInAcquire` | sleeplock.c:23-42 | whoever sleeps in acquiresleep waits for a lock that is held or for a wakeup on its way, in every interleaving |
| `SleepLock.NobodyStuck` | sleeplock.c:23-42 | nobody is left asleep on a free lock |
| `SleepQueue.QueueDutiful` | sleep1.p:97-133 | producers and consumers meet the condition of NoLostWakeup |
| `SleepQueue.RunBalanced` | sleep1.p:97-133 | no item is lost or made up, in every run of any number of producers and consumers |
| `SleepQueue.NobodyLeftAsleep` | sleep1.p:1-52 | where everyone has gone as far as they can and as many items were produced as were consumed or are still waited for, nobody is left asleep and the queue is empty |
| `ProcTable.WokenSound` | proc.c:476-483 | wakeup keeps pids, families, tickets and the promise of wait |
| `ProcTable.ExitedSound` | proc.c:246-286 | exit keeps them, although the children change parents |
| `ProcTable.ExitedNoMiss` | proc.c:270-283 | after exit nobody sleeps in wait with a zombie child, be it the parent or init |
| `ProcTable.ReapedSound` | proc.c:305-317 | wait reaps a pid that was never reaped before |
| `ProcTable.CpusOff` | proc.c:384-400 | a process that leaves its CPU leaves the others with their processes |
| `ProcTable.FairDispatch` | proc.c:341-374 | a dispatch keeps every waiting process within its bound of NPROC dispatches |
| `ProcTable.BoundedWait` | proc.c:341-374 | no CPU makes NPROC dispatches while a process stays runnable |
| `Processes.Kernel.constructor` | proc.c:125-160 | userinit: one runnable process, init |
| `Processes.Kernel.Wakeup` | proc.c:487-492 | exactly the sleepers on the channel become runnable |
| `Processes.Kernel.Sleep` | proc.c:436-470 | the caller sleeps on the channel and its CPU is idle |
| `Processes.Kernel.Yield` | proc.c:404-410 | the caller is runnable and its CPU idle |
| `Processes.Kernel.Kill` | proc.c:498-515 | the first slot with that pid is marked and roused, or there is none |
| `Processes.Kernel.Schedule` | proc.c:341-374 | the next runnable process of the scan runs on this CPU and no other; the scan reaches the end of the table exactly when nothing runnable is ahead |
| `Processes.Kernel.Allocproc` | proc.c:78-120 | the first unused slot becomes an embryo with a pid nobody has or had |
| `Processes.Kernel.Gettickets` | proc.c:609-625 | the tickets of the one process with that pid |
| `Processes.Kernel.Fork` | proc.c:187-240 | a runnable child with a new pid, this parent and exactly its parent's tickets; fails exactly on no slot or no memory, leaving only a spent pid |
| `Processes.Kernel.Settickets` | sysproc.c:109-131 | changes the caller's tickets exactly when at least 10 |
| `Processes.Kernel.Reparent` | proc.c:273-280 | the loop hands every child to init and wakes init exactly when one is a zombie |
| `Processes.Kernel.Exit` | proc.c:246-286 | the caller is a zombie, its parent woken, its children with init; refused exactly for init |
| `Processes.Kernel.Wait` | proc.c:291-330 | reaps the first zombie child, fails exactly without children or when killed, and else sleeps with no zombie child |
| `ShellSyntax.Get` | sh.c:266-308 | a token never runs backwards, every token but the end makes progress, and a word cannot be made longer |
| `ShellSyntax.Command` | sh.c:328-342 | a command that parses takes up the whole line |
| `Shell.Gettoken` | sh.c:266-308 | the scanning loops find the token of the grammar |
| `Shell.PeekAt` | sh.c:311-320 | the loop skips all space and tells what comes next |
| `Shell.Parseredirs` | sh.c:375-397 | the loop reads the redirections of the grammar in order |
| `Shell.Parseexec` | sh.c:416-446 | arguments and redirections as the grammar has them, with its limit on arguments |
| `Shell.Parseblock` | sh.c:400-413 | a parenthesised line with its redirections |
| `Shell.Parsepipe` | sh.c:362-372 | a pipeline, nesting to the right |
| `Shell.Parseline` | sh.c:345-359 | a line with its background marks and its list |
| `Shell.LineWords` | sh.c:345-359 | every string of a parsed command is a whole word of the input |
| `Shell.NoneClobbered` | sh.c:450-493 | no terminator lands inside another token |
| `Shell.Nulterminate` | sh.c:450-493 | a terminator after each string of the command, and no other byte changed |
| `Shell.Parsecmd` | sh.c:328-342 | always ends; on success each argv and file string reads back from the buffer as exactly its token; on a syntax error the buffer is untouched |
| `ShellText.ShowWritten` | sh.c:328-446 | a command written out occupies the text piece by piece |
| `ShellText.ReadWritten` | sh.c:345-446 | a command written out anywhere before a stop reads back as itself |
| `ShellText.RoundTrip` | sh.c:328-446 | every command tree with legal words and fewer than MAXARGS arguments, written out with parentheses, parses back to itself |
| `Grep.RenderParse` | grep.c:85-96 | reading a pattern loses nothing: written out it is the same text |
| `Grep.FirstItem` | grep.c:85-96 | a pattern matches here exactly when its first item takes some beginning and the rest matches what follows |
| `Grep.MatchHere` | grep.c:85-96 | true exactly when some beginning of the text is spelled by the items, all of it under a final '$' |
| `Grep.MatchStar` | grep.c:99-106 | true exactly when some run of the starred character leads to a match of the rest |
| `Grep.Match` | grep.c:73-82 | true exactly when some position matches, or the start under a leading '^' |

## Left out

- Malloc: a request whose size makes the argument of sbrk negative can shrink the process; the model lets the kernel grant only what `RequestIff` says was asked for.
- Atomicity: every operation is within its budget of MAXOPBLOCKS blocks; the budget is proved for filewrite (`WriteTxn`), and counted for itrunc (`TruncCost`), not for the other system calls. In a log area smaller than the buffer cache what recovery shows is stated for runs that do not overrun it, for the reason `AtomicityFails` gives.
- PanicExactly: counts the buffers that are pinned; a read outside any transaction can hold the last other one, and bget then panics with fewer blocks listed. That is a crash like any other, which `Atomicity` covers.
- Commit: the same.
- WriteLog: the same.
- EndOp: the same.
- Ialloc: the reference that its iget takes is counted in `InodeCache` alone.
- Mark: ends where ialloc calls iget, which is the step `Iget`.
- NobodyLeftAsleep: a consumer tests again when it wakes, as the kernel's callers of sleep do; the consumer of sleep1.p does not.
- Create: one step, although the source holds the inode locks in turn.
- Submit: the block number must be within the disk, where idestart panics; the error status of the controller is not modelled, and every command ends with one interrupt.
- Copyuvm: the size is at most KERNBASE, which growproc and exec see to.
- Deallocuvm: the same of the old size.
- Allocuvm: the range must be unmapped; otherwise mappages panics, or a failure frees pages that were there before.
- MapUser: the page must be unmapped, where mappages panics.
- Allocproc: no statement past INT_MAX pids, where nextpid wraps.
- Fork: the same.
- Writei: after a panic in balloc nothing is said about the volume, for the kernel halts.
- FreeInode: a second look-up of the inode between the tests of iput and the freeing is in `InodeCache.Icache.PutErase` alone.
- File system calls on different inodes are modelled one after the other, each on the plain inodes that the cache stands for; one device only.
- The bits of the bitmap inside their bytes and the bytes of inodes inside their blocks; block numbers of both are modelled for the log's budget.
- Device inodes: readi and writei answer `Device`, and the device's own code is not followed.
- The image mkfs writes is taken as the initial disk; its root directory size can exceed its last block, so the no-holes invariant is assumed of it.
- 16-bit widths of nlink and inode numbers in directory entries.
- Path walking (skipelem, namex), open file table reference counts, pipes, exec, loaduvm, inituvm, clearpteu, copyout and growproc.
- The address checks of kfree, freerange, and the hardware view of page tables (TLB, accessed and dirty bits).
- Spinlocks, context switch and trap entry are taken as atomic steps; acquiresleep is the sleep of `Monitor` with the lock's `locked` field as its condition.
- Clock ticks, the ps snapshot, and the scheduler's switch of address spaces.
- The shell's runcmd, and the order in which its parser allocates nodes before filling them in; the model builds each node once its parts are known.
- grep's loop over input lines, whose output depends on how reads are chunked.
- Console, UART, keyboard, interrupt controllers, boot code, and the other user programs.
