# xv6 with demand paging: a verified model

This project models, in Dafny, the parts of xv6 for RISC-V (with its added demand-paging layer)
whose correctness depends on more than one function at a time, and proves what they keep over all
inputs, all runs or all interleavings.

| files | what they model |
|---|---|
| `LogMachine`, `LogRefinement`, `LogTheorems`, `LogRecovery`, `LogBudget`, `LogBuffers`, `LogCommit`, `LogCode`, `LogSteps` | the write-ahead log of log.c together with the buffer cache as its readers see it: a state machine whose steps are single block writes, with a crash possible between any two; its refinement of histories of whole operations; admission control; running out of log blocks and of buffers; and the code of log.c, tied to the machine |
| `BufferCache` | the LRU ring of bio.c with its pointers |
| `FsDisk`, `FsState`, `FsSpace`, `Fs` | the file layer of fs.c down to bitmap bits and words of indirect blocks, over any number of inodes, and the chunked writes of file.c |
| `Names` | directory entries, path resolution and the inode table of fs.c |
| `PageTable` | the three-level page table of vm.c (Sv39, section 4.4 of the RISC-V Privileged Architecture) over the frames of kalloc.c |
| `UserCopy` | copyout, copyin and copyinstr of vm.c |
| `PageQueue`, `PagingState`, `Paging` | resident pages, swap slots, second-chance replacement, faults, growing and shrinking |
| `Malloc` | the user-level allocator of umalloc.c |
| `Virtio`, `VirtioProof` | the split-queue disk driver of virtio_disk.c (sections 2.6 and 5.2 of VIRTIO 1.1) with the device as environment |
| `Pipe`, `PipeRuns` | the ring buffer of pipe.c, and the sleeping and waking around it |
| `Sched`, `SchedRuns` | scheduler, sched, yield, sleep, wakeup, kill, exit and wait of proc.c, interleaved on any number of CPUs under any number of condition locks, with interrupt handlers that wake processes; what no interleaving can break, and what the calls get done |
| `ShellGrammar`, `ShellLex`, `Shell` | the parser of sh.c, its grammar, and nulterminate |
| `Grep` | the matcher of grep.c |
| `Common` | constants and a few definitions that several modules share |

Code that changes things in place is modelled by classes and loops that are proved against
specification functions; protocols are state machines over their steps. `dafny verify
dfyconfig.toml` checks everything.

Conventions. A panic is an outcome: an operation either returns it with the exact condition under
which it is reached, or is proved not to reach it, except where "Left out" says otherwise. Memory, disk and device inputs that the code
cannot control (what kalloc and sbrk hand out, when a kill becomes visible, where a user address
turns bad, which chain the device completes next and with what status) are parameters or free choices of a run.

Where the code does not do what one would expect, the model follows the code:

- mkfs makes the log LOGSIZE blocks long, but log_write keeps one block back: see
  `LogBudget.LogPanicFreeIff`.
- LOGSIZE and NBUF are the same number, so a full log pins every buffer and leaves none for the
  commit to read with: `LogBuffers.LargeLogRunsOut`, `LogCommit.CommitCompletesIff`.
- log_write asks for space before it looks whether the block is logged already: see
  `LogBudget.AbsorbedWritePanicsIff`.
- getOffset looks for a free swap slot below the size the process had before it grew, and answers
  0 when there is none: `Paging.Process.Grow` states exactly when a page-out then overwrites the
  bytes of another page, and `Paging.TwoRequestsCollide` reaches it.
- removePage stops one rotation short, so the order of the queue can change:
  `PageQueue.Queue.RemovePage`.
- A writer to a pipe that is killed after it has put in bytes returns without waking the reader:
  `PipeRuns.LostWakeupIff`.

## Model

| member | source | states |
|---|---|---|
| `LogTheorems.CommitIsAtomic` | OS-Assignment3/kernel/log.c:68-123 | for every run, every crash point inside a commit and any number of further crashes during recovery: when recovery completes, all home blocks have their old contents or all have their new ones, and the new ones exactly when a non-empty header reached the disk |
| `LogTheorems.QuietIsDurable` | OS-Assignment3/kernel/log.c:146-175 | in every run, when no operation is active and no commit is under way, the disk promises for every home block what readers see: what ended operations wrote survives every crash |
| `LogTheorems.CrashRecovery` | OS-Assignment3/kernel/log.c:116-123 | whatever crashed, and however often recovery was interrupted, a completed recovery leaves on disk exactly the replay of a history of whole operations, namely what the disk promised at the first crash |
| `LogRecovery.RecoveryCompletes` | OS-Assignment3/kernel/log.c:116-123 | recovery can complete from every disk with a well-formed header, however many blocks it lists |
| `LogRecovery.CrashLeavesGoodDisk` | OS-Assignment3/kernel/log.c:52-66 | from the disk that a crash at any point of any run leaves, recovery can complete |
| `LogTheorems.RunRefines` | OS-Assignment3/kernel/log.c:126-235 | every state of every interleaving of operations, readers, evictions, commits, crashes and recoveries refines a pair of histories: the durable one contains only whole operations, the volatile one continues it |
| `LogRefinement.StepRefines` | OS-Assignment3/kernel/log.c:68-235 | each single step keeps that refinement |
| `LogRefinement.StepKeepsInv` | OS-Assignment3/kernel/log.c:68-235 | each single step keeps the joint invariant of log, cache, pins and header |
| `LogTheorems.ReadsLastWrite` | OS-Assignment3/kernel/bio.c:92-103 | over whole runs, a process that holds a block after bread sees the last contents written to it, whatever was evicted, committed or installed in between |
| `LogTheorems.PinnedStaysCached` | OS-Assignment3/kernel/log.c:225-233 | a block that log_write pinned stays cached and cannot be recycled until install_trans unpins it |
| `LogTheorems.CommitExcludesOps` | OS-Assignment3/kernel/log.c:126-175 | while committing, no operation is active, nothing is logged or admitted, and the panic of end_op is unreachable |
| `LogBudget.NoLogPanic` | OS-Assignment3/kernel/log.c:133-135 | logged blocks plus the unused budgets of active operations never exceed LOGSIZE, so with a log area of more than LOGSIZE blocks no operation within its budget meets a panic of log_write or end_op |
| `LogBudget.LogPanicFreeIff` | OS-Assignment3/kernel/log.c:220-223 | operations within their budgets are safe from the panics of log_write and end_op if and only if the log area has more than LOGSIZE blocks; for smaller ones a run that panics is constructed |
| `LogBudget.SmallLogPanics` | OS-Assignment3/mkfs/mkfs.c:25 | with the log size that mkfs chooses, three operations within their budgets run into the panic |
| `LogBudget.AbsorbedWritePanicsIff` | OS-Assignment3/kernel/log.c:220-232 | log_write looks for space before it looks for the block in the log: rewriting a block that is logged already panics exactly when the log is full, whatever its size |
| `LogBudget.AbsorbedWriteCanPanic` | OS-Assignment3/kernel/log.c:220-232 | such a state is reached by a run within budgets, for every log that holds a block at all, the one mkfs makes included |
| `LogBuffers.RunsOutIff` | OS-Assignment3/kernel/bio.c:58-89 | in every state of every run, bget of a block that is not cached panics exactly when pinned blocks and blocks in use are NBUF many |
| `LogBuffers.FullLogNeverCommits` | OS-Assignment3/kernel/log.c:178-203 | over whole runs, a commit of NBUF blocks makes no step whatever other threads do, and its first read panics |
| `LogBuffers.LargeLogRunsOut` | OS-Assignment3/kernel/log.c:178-191 | with a log area of more than LOGSIZE blocks, three operations within their budgets pin all buffers, and the read of the first log block in the commit panics |
| `LogBuffers.EverySizeCanPanic` | OS-Assignment3/kernel/param.h:10-12 | with LOGSIZE equal to NBUF no log size is safe: a small log panics in log_write, a large one in bget |
| `LogCommit.CommitCompletesIff` | OS-Assignment3/kernel/log.c:178-203 | a commit that shares the cache with nobody can complete if and only if fewer than NBUF blocks are logged, and can panic in bget if and only if NBUF are |
| `LogCode.Log.LogWrite` | OS-Assignment3/kernel/log.c:214-235 | the list of logged blocks afterwards, absorption and pinning included, and the exact panic condition |
| `LogCode.Log.BeginOp` | OS-Assignment3/kernel/log.c:126-143 | one pass of the admission loop admits exactly when no commit runs and the worst case of all operations fits |
| `LogCode.Log.EndOp` | OS-Assignment3/kernel/log.c:146-175 | the last operation, and only it, starts a commit |
| `LogCode.Log.WriteLog` | OS-Assignment3/kernel/log.c:178-191 | the loop computes the specified memory; see WriteLogWrites |
| `LogCode.WriteLogWrites` | OS-Assignment3/kernel/log.c:178-191 | log blocks get what readers see of the logged blocks, and nothing else changes |
| `LogCode.Log.InstallTrans` | OS-Assignment3/kernel/log.c:68-83 | the loop computes the specified memory and, outside recovery, drops the pins; see InstallWrites and UnpinsLogged |
| `LogCode.InstallWrites` | OS-Assignment3/kernel/log.c:68-83 | every logged block gets the contents of its log block on disk and in the cache, and nothing else changes |
| `LogCode.UnpinsLogged` | OS-Assignment3/kernel/log.c:79-80 | one pin of each logged block is dropped, and no other |
| `LogCode.Log.ReadHead` | OS-Assignment3/kernel/log.c:86-97 | the in-memory list becomes the one on disk |
| `LogCode.Log.WriteHead` | OS-Assignment3/kernel/log.c:102-114 | the header block becomes the in-memory list |
| `LogCode.Log.Commit` | OS-Assignment3/kernel/log.c:193-203 | after every single write of the commit, the disk would recover to the old contents of all home blocks or to the new contents of all, and to the new ones exactly from the first header with a list on; at the end the memory is the specified one, the list is empty and its pins are dropped |
| `LogCode.CommitImagesAtomic` | OS-Assignment3/kernel/log.c:193-203 | the sequence of disks that write_log, write_head, install_trans and the second write_head go through is atomic |
| `LogCode.RecoverImagesPromise` | OS-Assignment3/kernel/log.c:116-123 | every disk that a recovery goes through promises what the first did |
| `LogCode.CommitMemInstalls` | OS-Assignment3/kernel/log.c:193-203 | run to its end, a commit leaves on disk what readers saw of every home block and an empty header |
| `LogCode.Log.constructor` | OS-Assignment3/kernel/log.c:54-65 | initlog: after it the log is empty, no operation is in it, nothing is pinned, and the disk is what recovery leaves; the disk promised the same after every write |
| `LogCode.Log.RecoverFromLog` | OS-Assignment3/kernel/log.c:116-123 | after every single write of a recovery the disk would recover to the same contents; at the end the memory is the specified one |
| `LogCode.RecoverMemRecovers` | OS-Assignment3/kernel/log.c:116-123 | run to its end, recovery leaves on disk the image the header promised, the cache in step with it, and an empty header |
| `LogSteps.CommitIsCode` | OS-Assignment3/kernel/log.c:193-203 | a commit of the log machine, with other threads reading and evicting meanwhile, ends with the disk and the buffers that the code computes from those at its start |
| `LogSteps.RecoveryIsCode` | OS-Assignment3/kernel/log.c:116-123 | a recovery of the log machine that no crash interrupts ends with the disk and the buffers that the code computes |
| `BufferCache.Bcache.constructor` | OS-Assignment3/kernel/bio.c:36-53 | binit leaves a ring that contains every buffer once in both directions |
| `BufferCache.Bcache.Bget` | OS-Assignment3/kernel/bio.c:58-89 | for dev != 0: the one buffer of the block if there is one, otherwise the unreferenced buffer released longest ago; a panic exactly when every buffer is in use; at most one buffer per block throughout |
| `BufferCache.Bcache.Brelse` | OS-Assignment3/kernel/bio.c:116-137 | the last release makes the buffer the most recently used one and keeps the ring |
| `BufferCache.Bcache.Bpin` | OS-Assignment3/kernel/bio.c:139-144 | one more reference, nothing else |
| `BufferCache.Bcache.Bunpin` | OS-Assignment3/kernel/bio.c:146-151 | one reference less, nothing else |
| `BufferCache.UnlinkKeepsRing` | OS-Assignment3/kernel/bio.c:128-129 | the two pointer updates take exactly one element out of the ring |
| `BufferCache.LinkFrontKeepsRing` | OS-Assignment3/kernel/bio.c:130-133 | the four pointer updates put one element in front |
| `BufferCache.RecycleEvicts` | OS-Assignment3/kernel/bio.c:76-87 | taking a buffer over is the eviction of an unreferenced block followed by a fresh reference, the steps of the log machine |
| `Malloc.Allocator.Malloc` | OS-Assignment3/user/umalloc.c:62-90 | a block of enough units that was not live becomes live, no unit of a live block changes; sbrk is asked at most once and only if every free block is too small; malloc fails if and only if sbrk was asked and refused; the units are the same afterwards, plus those obtained from sbrk |
| `Malloc.Allocator.Free` | OS-Assignment3/user/umalloc.c:24-44 | the block is free afterwards and every other live block is untouched; the list stays circular, address-ordered and without adjacent free blocks |
| `Malloc.FreeOk` | OS-Assignment3/user/umalloc.c:24-44 | insertion with coalescing on either side keeps the heap invariant, all units and every other block |
| `Malloc.TakeAllOk` | OS-Assignment3/user/umalloc.c:76-77 | an exact fit leaves the list and becomes live |
| `Malloc.TakeTailOk` | OS-Assignment3/user/umalloc.c:78-82 | the tail of a larger block becomes live and the rest stays free, with no unit lost or gained |
| `Malloc.Allocator.Morecore` | OS-Assignment3/user/umalloc.c:46-61 | exactly the units obtained from sbrk, at least 4096 and at least as many as asked for, join the free list; a refusal changes nothing |
| `Malloc.GrowOk` | OS-Assignment3/user/umalloc.c:46-61 | a region from sbrk joins the heap as a block of its own |
| `Malloc.Allocator.UserWrite` | OS-Assignment3/user/umalloc.c:24-44 | what the program writes into its own blocks, headers aside, does not disturb the allocator |
| `PageTable.PathInjective` | OS-Assignment3/kernel/riscv.h:344-347 | below MAXVA, pages with the same three indexes are the same page |
| `PageTable.IndexDigits` | OS-Assignment3/kernel/riscv.h:344-347 | the three indexes are the digits of the page number, the top level first |
| `PageTable.PagesOfRange` | OS-Assignment3/kernel/vm.c:145-146 | the pages from first to last are exactly those that hold a byte of the range |
| `PageTable.Vm.constructor` | OS-Assignment3/kernel/vm.c:237-246 | a zeroed root is a valid table in which nothing is mapped |
| `PageTable.Uvmcreate` | OS-Assignment3/kernel/vm.c:237-246 | such a table, or none exactly if there is no free frame |
| `PageTable.Vm.Walk` | OS-Assignment3/kernel/vm.c:82-100 | the table page of an address, or none, or the panic exactly beyond MAXVA; what is mapped does not change, new table pages come from the free list and are shared with nobody; when it may allocate, it succeeds if and only if the table pages missing on the way before the call are no more than the free frames, and then exactly those are hung, one frame each |
| `PageTable.Vm.Walkaddr` | OS-Assignment3/kernel/vm.c:105-123 | the frame of a user page, or none, for every address and without a panic; the address space that the copies below run on |
| `PageTable.AddTableOk` | OS-Assignment3/kernel/vm.c:92-97 | hanging a zeroed table page keeps the tree |
| `PageTable.SetLeafViews` | OS-Assignment3/kernel/vm.c:152 | a stored leaf entry changes the map at its page and nowhere else |
| `PageTable.Vm.Mappages` | OS-Assignment3/kernel/vm.c:139-159 | whatever the outcome, exactly the first k pages of the range are mapped, to consecutive frames, and no other page changes; it succeeds if and only if, before the call, the range lay below MAXVA, none of it was mapped, and there were frames for all table pages missing on the way to it; otherwise it stops, inside the range unless that ends before it begins, at the first page that is out of range, mapped, or takes more table pages than there were frames |
| `PageTable.MapsAllIff` | OS-Assignment3/kernel/vm.c:139-159 | the condition for success follows from where it stops |
| `PageTable.RoundsTable` | OS-Assignment3/kernel/vm.c:147-158 | mapping page after page hangs exactly the table pages that were missing on the way to the range before the first of them, as many as an independent count by level says |
| `PageTable.Vm.Uvmunmap` | OS-Assignment3/kernel/vm.c:194-233 | exactly the pages of the range lose their entries, their frames are freed once each, table pages stay; at an address that is not aligned nothing happens; it goes through if and only if the address is aligned, the range lies below MAXVA and no entry of it points to a table; when it goes through, the pages are those that begin between the address and the 64-bit bound, all npages of them unless the bound wraps; each frame is freed as often as these pages were mapped to it |
| `PageTable.CountsPages` | OS-Assignment3/kernel/vm.c:204 | which pages the loop goes through, in 64-bit arithmetic |
| `PageTable.FreedCounts` | OS-Assignment3/kernel/vm.c:209-212 | what is freed contains a frame as often as the pages were mapped to it |
| `PageTable.Vm.Freewalk` | OS-Assignment3/kernel/vm.c:393-409 | frees the table pages from a slot down in the specified order, and panics exactly if a leaf is left |
| `PageTable.FreesTablesOnce` | OS-Assignment3/kernel/vm.c:393-409 | that order contains every table page exactly once and nothing else |
| `PageTable.NoLeafIff` | OS-Assignment3/kernel/vm.c:404-406 | there is no leaf to stumble on if and only if no page is mapped |
| `PageTable.Vm.Uvmfree` | OS-Assignment3/kernel/vm.c:413-419 | succeeds if and only if no entry below the size points to a table and nothing is mapped above it; then each frame has gone to the free list once for each page that was mapped to it, and once if it was a table page |
| `PageTable.FreedDistinct` | OS-Assignment3/kernel/vm.c:413-419 | if no frame was mapped twice, no frame is free twice afterwards |
| `PageTable.Vm.Kalloc` | OS-Assignment3/kernel/kalloc.c:68-82 | the first free frame, or none exactly when there is none |
| `PageTable.Vm.Kfree` | OS-Assignment3/kernel/kalloc.c:46-63 | the frame becomes the first free one |
| `UserCopy.Copier.Copyout` | OS-Assignment3/kernel/vm.c:472-492 | writes exactly the bytes before the first page that is not mapped and no other byte of the process, and succeeds if and only if these are all |
| `UserCopy.Copyin` | OS-Assignment3/kernel/vm.c:497-517 | returns exactly the bytes before the first page that is not mapped |
| `UserCopy.Copyinstr` | OS-Assignment3/kernel/vm.c:523-560 | returns the string exactly when its NUL comes within the limit and before the first page that is not mapped |
| `UserCopy.SpaceOfOk` | OS-Assignment3/kernel/vm.c:105-123 | the user pages of a page table with frames of their own are an address space, mapped exactly where walkaddr finds a page |
| `FsDisk.SetBitBits` | OS-Assignment3/kernel/fs.c:75-77 | setting a bit sets that bit and no other |
| `FsDisk.ClearBitBits` | OS-Assignment3/kernel/fs.c:97-101 | clearing a bit clears that bit and no other |
| `FsDisk.MarkOne` | OS-Assignment3/kernel/fs.c:66-87 | the bit that balloc sets is the mark of the block it returns and of no other |
| `FsDisk.PutWordWord` | OS-Assignment3/kernel/fs.c:396-400 | a word stored in an indirect block reads back, and the others do not change |
| `Fs.FileSystem.constructor` | OS-Assignment3/mkfs/mkfs.c:245-259 | a formatted disk is a valid file system: the bitmap marks exactly the blocks before the data blocks |
| `Fs.FileSystem.Balloc` | OS-Assignment3/kernel/fs.c:64-87 | the lowest free block, non-zero, formerly free, now marked and zeroed, and nothing else; it panics if and only if no block is free |
| `Fs.FileSystem.Bfree` | OS-Assignment3/kernel/fs.c:90-104 | clears the mark of the block and logs its bitmap block; panics exactly when it is clear |
| `FsState.AllocateOk` | OS-Assignment3/kernel/fs.c:64-87 | marking and zeroing a free block keeps the invariant and every file |
| `FsState.AttachOk` | OS-Assignment3/kernel/fs.c:384-388 | storing a pointer in the inode keeps single ownership |
| `FsState.AttachEntryOk` | OS-Assignment3/kernel/fs.c:396-400 | storing a pointer in the indirect block keeps single ownership and every other pointer |
| `Fs.FileSystem.Bmap` | OS-Assignment3/kernel/fs.c:378-406 | the block of a file position: unchanged state if it is mapped, otherwise a fresh zeroed block owned by this file; every block reachable from an inode stays marked and has one owner; it panics if and only if the position is out of range or takes more blocks, the indirect block included, than are free |
| `Fs.FileSystem.Readi` | OS-Assignment3/kernel/fs.c:456-478 | exactly the requested slice, cut at the size; nothing is allocated, because every block below the size is mapped |
| `Fs.FileSystem.Writei` | OS-Assignment3/kernel/fs.c:487-518 | refuses exactly when it should; panics if and only if the accepted range lacks more blocks, a missing indirect block included, than are free; otherwise the file is overlaid with the bytes, the size becomes the maximum, all other files keep their bytes, exactly the missing blocks are allocated, and only certain blocks are logged; every block it changes, and the block of the inode, is logged |
| `Fs.SizedContent` | OS-Assignment3/kernel/fs.c:487-518 | the blocks that writei leaves stand for the overlay of the byte sequence |
| `Fs.OverlayAt` | OS-Assignment3/kernel/fs.c:500-514 | the overlay byte by byte: the new bytes where they were written, the old ones elsewhere |
| `FsSpace.TooMany` | OS-Assignment3/kernel/fs.c:498-508 | if the rest of a stretch does not fit any more, the whole did not fit in the beginning |
| `FsSpace.MissingJoin` | OS-Assignment3/kernel/fs.c:378-406 | the blocks that a stretch of a file lacks are those its beginning lacks plus those the rest lacks after the beginning was filled in |
| `Fs.ChunkWritten` | OS-Assignment3/kernel/fs.c:498-508 | one round of the loop writes its bytes inside one block and nothing else |
| `Fs.FileSystem.Itrunc` | OS-Assignment3/kernel/fs.c:410-438 | frees every block of the file, indirect block included, exactly once, without reaching the free-block panic, and no block of another file; every block it changes, and the block of the inode, is logged |
| `FsState.TruncateOk` | OS-Assignment3/kernel/fs.c:410-438 | afterwards the blocks in use are those in use before that this file did not own |
| `Fs.TruncateRestores` | OS-Assignment3/kernel/fs.c:410-438 | truncating a file that was empty before it grew restores the bitmap bit by bit |
| `Fs.ChunkFits` | OS-Assignment3/kernel/file.c:155-162 | with one bitmap block, a chunk of at most 3*BSIZE bytes logs at most seven distinct blocks |
| `Fs.FileSystem.WriteTransaction` | OS-Assignment3/kernel/file.c:162-167 | one transaction of a write logs at most MAXOPBLOCKS blocks; refusal and panic exactly as for writei; every block that differs afterwards is logged |
| `Fs.FileSystem.Filewrite` | OS-Assignment3/kernel/file.c:148-176 | writes exactly the chunks before the first that would make the file too large, overlaying the file with their bytes and moving the file offset by their length; an error exactly if these are not all; panics if and only if these chunks lack more blocks than are free; the whole write succeeds only if the file stays within its largest size |
| `Fs.AcceptedIs` | OS-Assignment3/kernel/file.c:155-176 | all bytes are written if the file stays within its largest size, otherwise as many whole chunks as fit |
| `Names.SkipElem` | OS-Assignment3/kernel/fs.c:600-623 | the next non-empty element, cut to 14 bytes, and the position of the one after it |
| `Names.ElementsAre` | OS-Assignment3/kernel/fs.c:600-623 | the elements are the longest stretches without a slash, all of them and in order, each cut to 14 bytes |
| `Names.Namecmp` | OS-Assignment3/kernel/fs.c:522-526 | strncmp over 14 bytes finds exactly the names that are equal when cut to 14 bytes |
| `Names.StoredName` | OS-Assignment3/kernel/fs.c:578 | a name stored by strncpy reads back, cut |
| `Names.Dirlookup` | OS-Assignment3/kernel/fs.c:530-554 | the first entry in use with that name, or none |
| `Names.DirMapIs` | OS-Assignment3/kernel/fs.c:530-554 | with unique names, a directory is a finite map and its entries are the map |
| `Names.Dirlink` | OS-Assignment3/kernel/fs.c:556-584 | fails exactly if the name is there, and panics exactly if it is not and the directory is full; otherwise the map gains exactly this name, and names stay unique |
| `Names.Inodes.Iget` | OS-Assignment3/kernel/fs.c:243-274 | one more reference to the inode, at most one table entry per inode; panics exactly when it is not in the table and no entry is unused |
| `Names.Inodes.Iput` | OS-Assignment3/kernel/fs.c:333-359 | one reference less, and one unused entry more exactly if it was the last |
| `Names.Inodes.Namex` | OS-Assignment3/kernel/fs.c:629-662 | finds an inode if and only if there is a chain of inodes from the root or the working directory to it, each a directory that has the next element of the path as a name of the next inode, whatever the type of the last (for the parent: one element fewer, and the last a directory); one reference more on success, none on failure; it panics if and only if the walk comes to an inode for which the table has no entry beside the one it holds |
| `Names.ResolveIff` | OS-Assignment3/kernel/fs.c:639-661 | the fold over the elements and the chain of inodes agree |
| `Names.OverflowsIff` | OS-Assignment3/kernel/fs.c:639-656 | the walk needs an entry that the inode table does not have exactly if a chain along the elements comes to such an inode |
| `Names.ResolveStep` | OS-Assignment3/kernel/fs.c:638-655 | the fold, one element at a time |
| `Names.TwoSuffice` | OS-Assignment3/kernel/fs.c:629-662 | two unused entries of the inode table are enough for every path |
| `PageQueue.Queue.In` | OS-Assignment3/kernel/vm.c:161-168 | one page more at the end of the ring queue |
| `PageQueue.Queue.Out` | OS-Assignment3/kernel/vm.c:170-177 | one page less at its front |
| `PageQueue.Queue.RemovePage` | OS-Assignment3/kernel/vm.c:179-189 | the exact queue afterwards: the order is kept if the page is last or absent; otherwise the loop stops one rotation short and the last page comes first |
| `PageQueue.RemovedKeeps` | OS-Assignment3/kernel/vm.c:179-189 | every other page stays in the queue exactly once |
| `PageQueue.Queue.Scfifo` | OS-Assignment3/kernel/vm.c:608-629 | the first page with a clear accessed bit, or the head; exactly the bits passed over are cleared; the later pages are followed by the skipped ones |
| `Paging.Process.GetOffset` | OS-Assignment3/kernel/vm.c:292-307 | the lowest free slot below the size, or 0 if there is none |
| `PagingState.LowestFits` | OS-Assignment3/kernel/fs.c:493-496 | the lowest free slot is at or before the end of the swap file, so the write is accepted |
| `Paging.Process.PageToFile` | OS-Assignment3/kernel/vm.c:650-664 | the second-chance victim goes to the slot with its bytes; panics exactly when the slot is beyond the end of the file |
| `PagingState.PageOutOk` | OS-Assignment3/kernel/vm.c:650-664 | paging out to a free slot keeps the paging invariant |
| `PagingState.PageOutOkIff` | OS-Assignment3/kernel/vm.c:650-664 | a page-out keeps the invariant if and only if its slot is free |
| `PagingState.PageOutClashes` | OS-Assignment3/kernel/vm.c:650-664 | a page-out to a slot that another page has gives both pages this slot, and the bytes of the other page are lost unless the two were equal |
| `Paging.Process.SwapIn` | OS-Assignment3/kernel/vm.c:666-689 | the page becomes resident, no byte of any page changes, at most 16 pages are resident, slots stay distinct; no frame is lost or gained |
| `PagingState.SwapExchangeOk` | OS-Assignment3/kernel/vm.c:680-688 | exchanging two pages through one slot keeps the bytes of both |
| `Paging.Process.Fault` | OS-Assignment3/kernel/trap.c:68-75 | a fault is served exactly for pages that are swapped out, with the exact conditions of the panics for lack of a frame and beyond MAXVA; no frame is lost or gained |
| `Paging.Process.UnmapPage` | OS-Assignment3/kernel/vm.c:205-230 | a page loses its frame or its slot, and its place in the queue; its frame goes to the free list, and no frame is lost or gained |
| `Paging.Process.Grow` | OS-Assignment3/kernel/vm.c:309-371 | old pages keep their bytes; memory runs out exactly if there are fewer free frames than pages that must stay resident; a page-out overwrites another page, and leaves the two with one slot, exactly if there are more page-outs than slots free below the old size; resident pages, free frames and free slots afterwards; no frame is lost or gained, and when memory runs out the free list holds the same frames as before; pages are cleared only while there is room in memory |
| `PagingState.RolledBack` | OS-Assignment3/kernel/vm.c:340-343 | giving back the pages of a growth that runs out of memory returns exactly the frames it took |
| `Paging.UnswappedSlots` | OS-Assignment3/kernel/vm.c:292-307 | with nothing swapped out there is one free slot per page of the old size |
| `Paging.TwoRequestsCollide` | OS-Assignment3/kernel/vm.c:292-371 | a new process that asks for 4 pages and then for 17 more ends with two pages in one slot |
| `Paging.Process.Shrink` | OS-Assignment3/kernel/vm.c:377-389 | exactly the pages above the new size go; the free list gains their frames once each, and no frame is lost or gained |
| `Virtio.Descriptors.AllocDesc` | OS-Assignment3/kernel/virtio_disk.c:144-154 | the first free descriptor, or none |
| `Virtio.Descriptors.FreeDesc` | OS-Assignment3/kernel/virtio_disk.c:157-170 | the descriptor is cleared and free; the exact panic condition |
| `Virtio.Descriptors.Alloc3Desc` | OS-Assignment3/kernel/virtio_disk.c:188-201 | three descriptors or none; a partial allocation is undone |
| `Virtio.Descriptors.FreeChain` | OS-Assignment3/kernel/virtio_disk.c:173-185 | on a chain of three it frees these three and does not panic |
| `Virtio.Pick3Iff` | OS-Assignment3/kernel/virtio_disk.c:188-201 | it succeeds if and only if three descriptors are free, and they are distinct |
| `VirtioProof.Conserved` | OS-Assignment3/kernel/virtio_disk.c:203-315 | in every state of every run, free descriptors plus three per chain make NUM, and chains are disjoint |
| `VirtioProof.RunKeepsInv` | OS-Assignment3/kernel/virtio_disk.c:203-315 | the invariant of descriptors, rings, buffers and requests holds in every run with any device that completes chains once each, in any order and with any status |
| `VirtioProof.SubmitKeepsInv` | OS-Assignment3/kernel/virtio_disk.c:226-265 | a new entry of the available ring overwrites none that is pending |
| `VirtioProof.RingPush` | OS-Assignment3/kernel/virtio_disk.c:260-265 | the same for a ring of its own, at any 16-bit index |
| `VirtioProof.SlotIs` | OS-Assignment3/kernel/virtio_disk.c:260-265 | a wrapped 16-bit index finds the same ring entry |
| `VirtioProof.TransfersRequest` | OS-Assignment3/kernel/virtio_disk.c:226-257 | walking the descriptor table and honouring its write flags, the device moves exactly the block asked for between the disk and exactly this buffer, or nothing if it reports a failure |
| `VirtioProof.ReturnsAfterCompletion` | OS-Assignment3/kernel/virtio_disk.c:272-277 | virtio_disk_rw returns only after the device, since this very call submitted its chain, completed the chain and reported success |
| `VirtioProof.IntrSees` | OS-Assignment3/kernel/virtio_disk.c:300-312 | the interrupt handler finds a chain that the device completed, with its buffer |
| `VirtioProof.IntrPanicsIff` | OS-Assignment3/kernel/virtio_disk.c:303-304 | in every run the handler panics exactly when it comes to a chain that the device reported as failed |
| `VirtioProof.NoFailureNoPanic` | OS-Assignment3/kernel/virtio_disk.c:303-304 | with a device that reports no failure no run panics |
| `VirtioProof.RequestCompletes` | OS-Assignment3/kernel/virtio_disk.c:203-315 | a call on an idle disk goes through in five steps: the block has moved and every descriptor is free again |
| `VirtioProof.FinishIsSafe` | OS-Assignment3/kernel/virtio_disk.c:272-277 | free_chain finds three linked descriptors that are not free, so free_desc does not panic |
| `Pipe.Buffer.Put` | OS-Assignment3/kernel/pipe.c:95 | a byte goes in at the end, also when the counter wraps |
| `Pipe.Buffer.Get` | OS-Assignment3/kernel/pipe.c:123 | the oldest byte comes out, also when the counter wraps |
| `Pipe.Buffer.WriteSection` | OS-Assignment3/kernel/pipe.c:83-102 | a stay of pipewrite under the lock does what the recursive specification says |
| `Pipe.WriteRunPuts` | OS-Assignment3/kernel/pipe.c:83-102 | how many of the remaining bytes go in, and why it stops: all done, nobody to read or killed, a full buffer, bad memory, in this order |
| `Pipe.Buffer.ReadSection` | OS-Assignment3/kernel/pipe.c:120-126 | with good memory the smaller of n and what is there, the oldest bytes in order; with bad memory one byte more is taken than copied |
| `PipeRuns.PipeSafety` | OS-Assignment3/kernel/pipe.c:58-130 | in every state of every interleaving: bytes written are bytes consumed followed by bytes buffered; a sleeping writer means a full buffer, an open read end and no sleeping reader; a sleeping reader an open write end |
| `PipeRuns.ReadsOldest` | OS-Assignment3/kernel/pipe.c:120-128 | a reader that does not wait takes the oldest bytes, as many as it wants and as there are, and wakes every writer |
| `PipeRuns.Delivers` | OS-Assignment3/kernel/pipe.c:76-130 | what a write puts into an empty pipe is what the next large enough read returns |
| `PipeRuns.LostWakeupIff` | OS-Assignment3/kernel/pipe.c:84-87 | a reader is left asleep beside a non-empty buffer exactly when a writer has put in bytes and then sees itself killed before it is done, full or at a bad address: it returns without waking anybody |
| `PipeRuns.LostWakeupHappens` | OS-Assignment3/kernel/pipe.c:84-87 | two threads suffice |
| `Sched.RunningOnOneCpu` | OS-Assignment3/kernel/proc.c:478-506 | in every interleaving over any number of CPUs, processes, condition locks and channels, a RUNNING process is the current process of exactly one CPU |
| `Sched.CurrentLocked` | OS-Assignment3/kernel/proc.c:478-544 | a CPU whose current process is not RUNNING holds the lock of that process |
| `Sched.NoLostWakeup` | OS-Assignment3/kernel/proc.c:569-614 | when wakeup, called by a process or an interrupt handler, looks at a process that released the lock of the channel to wait on it, that process is asleep on the channel or already woken |
| `Sched.WakeupWakesAll` | OS-Assignment3/kernel/proc.c:600-614 | when wakeup is through, every process that waited on the channel has been woken, whatever sleeps and wakeups went on under other locks |
| `Sched.SchedHoldsOneLock` | OS-Assignment3/kernel/proc.c:515-533 | whoever calls sched holds the lock of its process and no other lock, so that sched does not panic about locks |
| `Sched.StepKeepsInv` | OS-Assignment3/kernel/proc.c:377-638 | every step of scheduler, yield, sleep, wakeup, kill, exit, wait and interrupt handlers keeps the invariant |
| `Sched.ReapsOffCpu` | OS-Assignment3/kernel/proc.c:438-456 | when wait finds a zombie under its lock, no CPU runs that process any more |
| `Sched.WakeupsContend` | OS-Assignment3/kernel/proc.c:600-614 | two wakeups under different locks can contend for the lock of one process: such a run exists |
| `SchedRuns.Picks` | OS-Assignment3/kernel/proc.c:489-497 | in every reachable state, a RUNNABLE process that scheduler comes to with its lock free runs on that CPU two steps later, where it left off |
| `SchedRuns.PassesOver` | OS-Assignment3/kernel/proc.c:489-504 | any other process is passed over unchanged, and after the last the scan begins again |
| `SchedRuns.Yields` | OS-Assignment3/kernel/proc.c:536-544 | yield leaves the process RUNNABLE, off the CPU and unlocked |
| `SchedRuns.Sleeps` | OS-Assignment3/kernel/proc.c:569-590 | sleep releases the lock of the channel and leaves the process asleep on the channel, off the CPU and unlocked |
| `SchedRuns.GoesOn` | OS-Assignment3/kernel/proc.c:587-595 | a woken sleeper leaves the channel and holds its lock again |
| `SchedRuns.WakeupCompletes` | OS-Assignment3/kernel/proc.c:600-614 | a wakeup that nobody disturbs comes to its end; the processes asleep on the channel are RUNNABLE and no other changes |
| `SchedRuns.KillsAndWakes` | OS-Assignment3/kernel/proc.c:626-634 | after the step of kill under the lock of the victim, the victim is killed and not SLEEPING, and no other process has changed |
| `SchedRuns.Exits` | OS-Assignment3/kernel/proc.c:377-421 | exit leaves a zombie that no CPU has, with its locks free |
| `SchedRuns.WaitFrees` | OS-Assignment3/kernel/proc.c:442-454 | wait frees a child under its lock if and only if it is a zombie |
| `SchedRuns.SleepsAndGoesOn` | OS-Assignment3/kernel/proc.c:478-614 | there is a run in which a process goes to sleep, another calls wakeup, and the first goes on with the lock of the channel held again |
| `ShellGrammar.ParsesIff` | OS-Assignment3/user/sh.c:344-446 | the parser accepts exactly the token sequences that the grammar derives, and returns the derived command |
| `ShellGrammar.Unambiguous` | OS-Assignment3/user/sh.c:344-446 | derivations of the same tokens stand for the same command |
| `ShellGrammar.ParsesRendering` | OS-Assignment3/user/sh.c:344-446 | parsing the tokens of any command, with parentheses where needed, returns the command |
| `ShellLex.RoundTrip` | OS-Assignment3/user/sh.c:265-446 | writing any command as text and parsing the text returns the command |
| `ShellLex.LexWritten` | OS-Assignment3/user/sh.c:265-308 | tokens written with spaces are lexed back |
| `ShellLex.LexIs` | OS-Assignment3/user/sh.c:265-308 | for every input, with or without spaces between tokens: the tokens are all of it but the white space, in order, and each word and >> is as long as can be |
| `Shell.Parser.GetToken` | OS-Assignment3/user/sh.c:265-308 | consumes exactly the first token |
| `Shell.Parser.Peek` | OS-Assignment3/user/sh.c:310-320 | skips white space and sees the first character of the next token |
| `Shell.Parser.ParseRedirs` | OS-Assignment3/user/sh.c:374-397 | the redirections in front, in order, or the panic for a missing file |
| `Shell.Parser.ParseArgs` | OS-Assignment3/user/sh.c:428-446 | words and redirections up to the next control symbol; the panics for a stray symbol and for too many words |
| `Shell.Parser.ParseExec` | OS-Assignment3/user/sh.c:415-446 | agrees with the grammar |
| `Shell.Parser.ParseBlock` | OS-Assignment3/user/sh.c:399-413 | agrees with the grammar |
| `Shell.Parser.ParsePipe` | OS-Assignment3/user/sh.c:361-372 | agrees with the grammar |
| `Shell.Parser.ParseLine` | OS-Assignment3/user/sh.c:344-359 | agrees with the grammar |
| `Shell.Parser.ParseCmd` | OS-Assignment3/user/sh.c:327-342 | on every input it terminates; it panics exactly if the tokens are no command line, and otherwise returns their command |
| `Shell.Nulterminate` | OS-Assignment3/user/sh.c:448-493 | writes NULs exactly at the ends of the words of the command |
| `Shell.LineWords` | OS-Assignment3/user/sh.c:344-446 | every word of a parsed command is a word of the input |
| `Shell.WordsSurvive` | OS-Assignment3/user/sh.c:448-493 | no NUL falls inside a word, so every argument and file name is a C string equal to its token |
| `Grep.Match` | OS-Assignment3/user/grep.c:70-80 | true if and only if some position of the text (the start, if anchored) has a split into instances of the pattern elements |
| `Grep.MatchHere` | OS-Assignment3/user/grep.c:82-94 | the same at the beginning of the text |
| `Grep.MatchStar` | OS-Assignment3/user/grep.c:96-104 | the same for a starred element followed by the rest of the pattern |
| `Grep.AcceptsStar` | OS-Assignment3/user/grep.c:96-104 | a star followed by a pattern means some number of instances followed by the pattern |

## Left out

- Machine-level code and devices: boot, traps and context switches in assembly, the UART, the interrupt controller, control registers, fences and TLB flushes.
- The insides of spinlock.c and sleeplock.c: acquiring and releasing are atomic, and what runs between two lock operations of one CPU is one step.
- System-call argument handling, printf, the text of panics, ELF loading, mkfs's host I/O and the small user programs.
- fork's copying of the swap file, and what exec and wait do to the paging fields: they do not keep the paging invariant as written, so whole-run claims are about a process growing, faulting, writing and shrinking its own memory.
- The replacement policies other than second chance (nfua and lapa), which are chosen at build time.
- Permission bits of page-table entries in the paging model: the branch of swap_in without page-out rebuilds the entry without them, so the claims are about residency and bytes.
- Fs.FileSystem.Writei: the short write when copyin cannot read the source is left out; the cached block may then hold some of the bytes.
- The on-disk encoding of inodes (iupdate, ilock): inodes are values, and iupdate only logs their block.
- Names.Inodes.Iput: does not free the inode when its last reference goes and it has no links.
- Names.Dirlink: appends or fills in an entry as a value; its bytes go through Fs.FileSystem.Writei, which is modelled on its own.
- Other processes that change directories while namex runs: resolution is over one state of the tree.
- PageTable.Vm.Kalloc: the bytes it writes into the page are not modelled.
- PageTable.Vm.Kfree: frames are page numbers inside the memory of the machine, so its panic for a bad address is not modelled, nor are the bytes it writes.
- Running out of table pages while a process grows: the pages below 32 share one table page, which exists as soon as one of them is mapped.
- Sleeping for descriptors in virtio_disk_rw: a call that finds fewer than three free starts later.
- Process creation in the scheduler model: the processes exist from the start, runnable or unused, and a process that wait has freed is not used again.
- In the scheduler model a CPU holds at most one condition lock at a time, which is how xv6 uses sleep and wakeup with one exception: iput holds the lock of the inode table while it takes the sleep lock of an inode that nobody else refers to, so it does not sleep there, and that pair of locks is left out. Spinlocks that are taken and released in between, such as the one of kalloc, are left out, and an interrupt handler is one lock and the wakeups under it, entered where a CPU holds no lock.
- What a disk that reports a failure has done to the block: it is taken to have moved nothing.
- The branch of uvmalloc for the first process (pid at most 1), which keeps no paging records.
- Malloc.Allocator.Malloc: sizes fit the argument of sbrk, the break is never moved down, and the static header lies below the heap.
- Paging.Process.Grow: the run ends with the first collision; what further growing does to a process that has lost a page is not said. Sizes above 32 pages are left out: uvmalloc then writes past its table of 32 pages, and its error return is not 0, which growproc takes for success.
- Fs.FileSystem.Readi: the -1 for a destination that copyout cannot write is left out.
- Fs.FileSystem.Filewrite: a negative count, for which nothing is written and -1 returned, is left out.
- PageTable.Vm.Freewalk: a level-0 entry that is valid but grants no access, which freewalk would follow as if it were a table, is left out; mappages is never asked for one.
- PageTable.Vm.Uvmunmap: the paging bookkeeping that uvmunmap also does for the current process is in Paging.Process.UnmapPage.
