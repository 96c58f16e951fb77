# xv6 (x86, "Lab 2") in Dafny

A model of the parts of this xv6 kernel and its user programs whose correctness is hard to
see from one function at a time, with proofs of what they promise. `dafny verify
dfyconfig.toml` checks everything.

| files | what they model |
|---|---|
| `LogDisk`, `BufferCache`, `Log`, `LogAdmission`, `LogWait` | the redo log of `log.c` over the buffer cache of `bio.c`, with a crash between any two block writes, and the admission of operations |
| `BufferUse` | the buffer cache used by many processes at once |
| `DiskLayout`, `Fs` | bitmap, block map, and byte-level reads and writes of `fs.c`; the chunk loop of `filewrite()` |
| `FsImage`, `FsCrash` | how the file system lies on the disk of the log, and what a power failure at any block write makes of it |
| `Links` | directories and link counts: `create()`, `sys_link()`, `sys_unlink()` |
| `PageTables`, `AddressSpace` | `kalloc.c`, the page tables of `vm.c`, and the stack below KERNBASE that this version of xv6 adds to `exec()`, `fork()` and the page-fault handler |
| `Machine`, `LayoutFailures` | several processes in one memory, over whole runs from boot, and runs in which a process loses its layout or the kernel a frame |
| `Monitor`, `SleepLock`, `Pipe`, `Proc` | `sleep()` and `wakeup()` under a spin-lock, the sleep-lock and the pipe that use them, and the process table with its lock handed across `swtch()` |
| `Basics` | facts about sequences and sets that several files use |
| `Umalloc` | the free list of `umalloc.c` (section 8.7 of The C Programming Language, 2nd ed.) |
| `Shell`, `Grep` | the parser of `sh.c` and the matcher of `grep.c` |

Code that works in place is a class with the source's fields and loops, proved against a
simpler description: the disk after each block write, a ring as a sequence, a file as a byte
sequence, a bitmap as a map from block to owner, an address space as its entries. Code that
runs on several processes or CPUs at once is a state machine whose events are the steps
between two lock operations, and its theorems are about every run. What `sbrk()` returns is
a parameter.

Some promises fail on this code as it stands. Each is stated with an input, state or run that
shows it and with the exact condition under which it holds:

- with at most `c` calls of log_write() per operation, "too big a transaction" is out of reach exactly
  when `c` is 0, or `c` is at most MAXOPBLOCKS and the log has more than MAXOPBLOCKS + 2c blocks; at
  MAXOPBLOCKS calls that is more than LOGSIZE, and mkfs gives it LOGSIZE (`LogAdmission.PanicFreeIff`,
  `LogAdmission.SmallLogPanics`). filewrite() does not keep to MAXOPBLOCKS: every full chunk logs
  at least 13 blocks (`FsCrash.ChunkLogs`);
- no size of the log avoids both that panic and a commit() without a buffer, unless operations make
  fewer than MAXOPBLOCKS calls (`LogAdmission.SafeIff`, `LogAdmission.FullCommit`,
  `Log.CommitNeedsBuffer`);
- log_write() tests the room in the log before it takes log.lock, and calls that pass together can log
  more blocks than the log holds; exactly when it does not overflow is `LogAdmission.LogFitsIff`, with
  `LogAdmission.LogOverflows` for the rest;
- a writer killed at a full pipe leaves without the wakeup it owes: in every run without such a
  writer each sleeper has reason to sleep, whoever else is killed, and with them a reader can be
  left asleep on a full pipe (`Pipe.SleepersOfRun`, `Pipe.SleepersJustifiedIff`,
  `Pipe.KilledWriterLosesWakeup`);
- create() and link() keep the link counts exactly when their directory is still linked
  (`Links.CreateIff`, `Links.LinkIff`, `Links.CreateInRemoved`, `Links.LinkInRemoved`);
- a stack fault keeps the layout of a process exactly when it is in the page just below the
  stack (`AddressSpace.Process.Fault`, `AddressSpace.FaultIff`, `LayoutFailures.DeepFault`);
- growproc() keeps it exactly when the growth stays below the stack and the heap is not given up
  whole (`AddressSpace.Process.Growproc`, `AddressSpace.GrowthIff`,
  `LayoutFailures.GrowthTakesStack`, `LayoutFailures.ShrinkToNothing`);
- fork() gives back every frame it takes when it fails, exactly unless the frames run out at a page for
  which one has been taken and whose table is missing (`PageTables.Vm.Copyuvm`,
  `LayoutFailures.ForkLosesFrame`);
- malloc() gives room for the request, and asks sbrk() for all the memory it then uses, exactly up
  to 2^31 - 16 bytes (`Umalloc.PayloadIff`, `Umalloc.RequestIff`, `Umalloc.WrappingRequests`).

## Model

| member | source | states |
|---|---|---|
| `LogDisk.HeadRoundTrip` | xv6-lab2/log.c:85-113 | what write_head() stores in the header block, read_head() gets back, and the words behind the entries are kept |
| `LogDisk.RecoveryRestarts` | xv6-lab2/log.c:69-122 | recovery stopped after any number of its block writes and run again ends on exactly the disk of an uninterrupted recovery |
| `LogDisk.CommitIsAtomic` | xv6-lab2/log.c:177-202 | stopped before the header write, no home block has changed and recovery shows the old file system; stopped at or after it, recovery shows the whole transaction |
| `LogDisk.CommitDisksRecover` | xv6-lab2/log.c:69-202 | the same for the sequence of disks that commit() produces write by write, and for any write of a recovery begun on one of them |
| `LogDisk.CrashSafety` | xv6-lab2/log.c:69-202 | over every life of the machine (transactions, crashes anywhere, interrupted recoveries) a completed recovery shows exactly the transactions that reached their header write, in order |
| `BufferCache.RingUnlink` | xv6-lab2/bio.c:120-141 | unlinking one buffer leaves one doubly linked ring of the others, in the same order |
| `BufferCache.RingPush` | xv6-lab2/bio.c:38-56 | pushing a buffer behind the head gives one doubly linked ring with it in front |
| `BufferCache.MoveToFront` | xv6-lab2/bio.c:131-138 | the two together keep one ring of all NBUF buffers |
| `BufferCache.Bcache.constructor` | xv6-lab2/bio.c:38-56 | binit() leaves one ring of all buffers, all with key (0,0), not valid |
| `BufferCache.Bcache.FindCached` | xv6-lab2/bio.c:68-76 | the forward scan finds a buffer with the key exactly if there is one |
| `BufferCache.Bcache.FindIdle` | xv6-lab2/bio.c:78-92 | the backward scan finds the least recently used buffer that is neither referenced nor dirty, or there is none |
| `BufferCache.Bcache.Claim` | xv6-lab2/bio.c:61-93 | up to the wait for the sleep-lock, whoever holds it: it panics if and only if the block is not cached and every buffer is referenced or dirty; otherwise a cached block gets one more reference and an idle buffer is recycled for any other; at most one buffer per key other than (0,0) |
| `BufferCache.Bcache.Bget` | xv6-lab2/bio.c:61-93 | without a wait: a cached block keeps its buffer; otherwise the least recently used idle one is recycled; at most one buffer per key other than (0,0), and a dirty buffer is never recycled |
| `BufferCache.Bcache.Iderw` | xv6-lab2/memide.c:39-60 | a dirty buffer is written to its block, a buffer that is not valid is read from it; one block changes at a time |
| `BufferCache.Bcache.Bread` | xv6-lab2/bio.c:96-106 | the buffer returned is locked and holds the cached data, or the block on disk if nothing valid was cached; the disk does not change |
| `BufferCache.Bcache.Bwrite` | xv6-lab2/bio.c:109-116 | exactly the buffer's block changes on disk, and the buffer is clean |
| `BufferCache.Bcache.Brelse` | xv6-lab2/bio.c:120-141 | one reference less; the last one moves the buffer to the front of the ring and nothing else in it |
| `BufferUse.StepInv` | xv6-lab2/bio.c:61-141 | each critical section of bget() and brelse(), and each change by a holder, keeps: refcnt is the number of uses of a buffer, its lock is held by one of them or none, and the buffer of a use has the block asked for |
| `BufferUse.OneHolderPerBlock` | xv6-lab2/bio.c:61-141 | in every interleaving of any number of processes, a buffer that bget() has returned is locked and is the one of the block asked for, however long the wait for it, and no block is held twice |
| `Log.CommitNeedsBuffer` | xv6-lab2/log.c:177-190 | commit() can get a buffer for a log block if and only if the block is cached or the logged blocks and the buffers that readers use are fewer than NBUF; with NBUF blocks logged it cannot |
| `Log.Log.constructor` | xv6-lab2/log.c:53-66 | initlog() leaves the recovered disk, by exactly the writes of a recovery, and an empty log; blocks may be cached already, as the superblock is, if they are clean |
| `Log.Log.Bread` | xv6-lab2/bio.c:96-106 | in every run, bread() of a home block returns what log_write() last stored for it, or what initlog() left |
| `Log.Log.Release` | xv6-lab2/bio.c:120-141 | releasing a buffer keeps cache, log and disk in agreement with the block map, and the log ready for the next operation |
| `Log.Log.Modify` | xv6-lab2/bio.c:96-116 | the holder of a buffer stores into it: cache, log and disk stay in agreement, and no disk block changes |
| `Log.Log.LogWrite` | xv6-lab2/log.c:213-233 | the block map gets the new contents, the block is in the log once and pinned, and no disk block changes |
| `Log.Log.WriteHead` | xv6-lab2/log.c:101-113 | one block write: the header names the logged blocks; buffers that others use stay as they are |
| `Log.Log.WriteLog` | xv6-lab2/log.c:177-190 | the log blocks get the cached contents, one block write each; no home block changes, and buffers that others use stay as they are |
| `Log.Log.InstallTrans` | xv6-lab2/log.c:69-82 | each log block goes to its home, in order, one block write each; at a commit the cache already shows the same; buffers that others use stay as they are |
| `Log.Log.RecoverFromLog` | xv6-lab2/log.c:115-122 | the writes are those of a recovery of the disk, and disk and cache then show what was committed |
| `Log.Log.Commit` | xv6-lab2/log.c:192-202 | while readers use any buffers but those of the log and of logged blocks: the disk shows the block map, through exactly the sequence of disks for which crash atomicity is proved, and the readers' buffers are untouched |
| `Log.Log.EndOp` | xv6-lab2/log.c:145-174 | the last operation out commits, with readers about, and leaves an empty log with everything on disk; any other changes nothing on disk |
| `Log.Log.WriteBlock` | xv6-lab2/log.c:204-233 | bread, modify, log_write, brelse of a block that nobody else uses: the block map has the new block, the disk is untouched, and so are the buffers in use |
| `Log.Log.Operation` | xv6-lab2/log.c:124-202 | begin_op(), up to MAXOPBLOCKS such block writes, end_op(), with readers about: all of them are on disk and the log is empty; after each single disk write, a recovery would show none or all of them |
| `LogAdmission.CheckHasRoom` | xv6-lab2/log.c:213-219 | in a reachable state, an operation within its calls, at most MAXOPBLOCKS, finds fewer than LOGSIZE blocks logged |
| `LogAdmission.BeginKeepsInv` | xv6-lab2/log.c:125-141 | admitting an operation keeps the reservation: the blocks logged and the calls left to every operation outstanding are at most MAXOPBLOCKS and twice the calls of one |
| `LogAdmission.CommitsAlone` | xv6-lab2/log.c:125-202 | in every interleaving, however many calls an operation makes, a commit runs with no operation outstanding, and an idle log is empty, so that a new operation is admitted; and the most blocks that are ever logged |
| `LogAdmission.SmallLogPanics` | xv6-lab2/mkfs.c:25 | for every number of calls and size of the log that do not suffice, a run of at most two operations at a time that panics |
| `LogAdmission.PanicFreeIff` | xv6-lab2/log.c:213-219 | no interleaving of operations of at most c calls reaches the panic if and only if c is 0, or c is at most MAXOPBLOCKS and the log has more than MAXOPBLOCKS + 2c blocks |
| `LogAdmission.LogOverflows` | xv6-lab2/log.c:213-232 | for every such log that is too small, a run without panic in which one block more is logged than the log holds |
| `LogAdmission.LogFitsIff` | xv6-lab2/log.c:213-232 | in every interleaving the logged blocks fit in the log if and only if none can be logged or the log has more blocks than MAXOPBLOCKS + 2c, or LOGSIZE + 2 for more than MAXOPBLOCKS calls |
| `LogAdmission.FullCommit` | xv6-lab2/param.h:10-12 | for every log of more than LOGSIZE blocks, a run of operations of MAXOPBLOCKS calls that commits with NBUF blocks pinned |
| `LogAdmission.SafeIff` | xv6-lab2/param.h:10-12 | neither the panic nor a commit with NBUF blocks pinned is in reach if and only if c is 0, or c is below MAXOPBLOCKS and the log has more than MAXOPBLOCKS + 2c blocks |
| `LogWait.NobodyWaitsInVain` | xv6-lab2/log.c:125-174 | in every interleaving, while log.lock is free, an operation sleeps in begin_op() only while a commit runs or the log has no room for it |
| `DiskLayout.BitWith` | xv6-lab2/fs.c:56-96 | setting or clearing one block's bit in the bitmap bytes changes no other block's bit |
| `DiskLayout.WordPut` | xv6-lab2/fs.c:387-396 | a block number stored in an indirect block is read back, and no other entry changes |
| `Fs.NoSharing` | xv6-lab2/fs.c:373-401 | no block is in two slots (direct, indirect pointer, or indirect entry), of one inode or of two |
| `Fs.BitIffOwned` | xv6-lab2/fs.c:56-96 | a data block's bit is set if and only if some slot of some inode holds it |
| `Fs.RoomIsFree` | xv6-lab2/fs.c:56-78 | while fewer blocks are owned than there are data blocks, the bitmap has a free one |
| `Fs.FileSystem.constructor` | xv6-lab2/mkfs.c:237-251 | mkfs sets exactly the bits of the blocks before the data, and the data blocks are zero |
| `Fs.FindFree` | xv6-lab2/fs.c:56-78 | the two loops over bitmap blocks and bits find the first clear bit of the whole bitmap |
| `Fs.FileSystem.Balloc` | xv6-lab2/fs.c:56-78 | the first free block is marked and zeroed, and nothing else changes |
| `Fs.FileSystem.Bfree` | xv6-lab2/fs.c:81-96 | the block is free and every other block is as free as it was; no data block changes; that the bit was set is proved at every call |
| `Fs.FileSystem.Bmap` | xv6-lab2/fs.c:373-401 | the block of a file block, allocated zeroed with its indirect block if missing; single ownership and bitmap are kept, no other slot and no other inode changes, exactly the missing blocks are taken, the lowest free ones, and exactly what changed is passed to log_write() |
| `Fs.FileSystem.Itrunc` | xv6-lab2/fs.c:408-436 | every block of the inode becomes free, no bit is cleared twice, and all other files keep blocks and contents; exactly the bitmap blocks of the freed blocks and the inode are logged |
| `Fs.MappedBlocks` | xv6-lab2/fs.c:373-401 | bmap() of a file's next block extends it by just that block: no hole arises |
| `Fs.OthersKept` | xv6-lab2/fs.c:482-512 | a change confined to one inode's blocks leaves the contents of every other file |
| `Fs.FileSystem.Readi` | xv6-lab2/fs.c:453-477 | exactly the slice of the file from `off`, at most `n` bytes, and nothing changes; it fails if and only if `off` is past the end or `off + n` wraps around |
| `Fs.WriteBytes` | xv6-lab2/fs.c:499-505 | writing into one block splices the bytes into the file |
| `Fs.FileSystem.WriteBlocks` | xv6-lab2/fs.c:499-505 | the loop splices all of `src` into the bytes, allocates exactly the blocks up to the new end, touches no other inode, and logs exactly the data blocks, the bitmap blocks of the new ones, and the indirect block if an entry is added |
| `Fs.FileSystem.Writei` | xv6-lab2/fs.c:482-512 | the file is the old one with `src` spliced in at `off`, without holes, memory and disk inode agree, all other files are unchanged, and exactly the blocks above and, if the size grows, the inode are logged; or it fails, if and only if `off` is past the end or the file would be too large, and nothing changes |
| `Fs.SpliceSplice` | xv6-lab2/file.c:126-153 | two splices one after the other are one |
| `Fs.FileSystem.FileWrite` | xv6-lab2/file.c:117-155 | it succeeds if and only if the whole write fits, and is then one splice; otherwise the whole chunks that fit were written |
| `Fs.RoomCounted` | xv6-lab2/fs.c:56-78 | whether a number of blocks can be had is whether so many bits are clear |
| `Fs.NewIsLow` | xv6-lab2/fs.c:56-78 | the blocks that a call allocates are the lowest whose bit was clear before it |
| `Fs.WriteCounted` | xv6-lab2/fs.c:482-512 | the number of blocks that a write logs is a function of the file system before it: the file blocks it spans, one for the indirect block if the file grows past the direct ones, and the bitmap blocks of the lowest free blocks |
| `Fs.WriteBound` | xv6-lab2/file.c:127-132 | it is at least the data blocks, and at most those, the indirect block and the bitmap |
| `FsImage.BytesOfWords` | xv6-lab2/fs.c:387-396 | the bytes of a block are read back from its words |
| `FsImage.EncodeShows` | xv6-lab2/fs.c:221-237 | inodes, bitmap and data written to the disk of the log are read back, and no block below the inodes changes |
| `FsImage.HomeDecides` | xv6-lab2/mkfs.c:94-108 | the file system that a disk shows does not depend on the log blocks |
| `FsImage.ReadBack` | xv6-lab2/fs.c:291-320 | a file system read from the disk that shows it has the same owners of blocks, no holes, and the same contents |
| `FsImage.PatchShows` | xv6-lab2/log.c:69-82 | storing the blocks that a call logged turns the image of the file system before it into the image after |
| `FsCrash.Mount.constructor` | xv6-lab2/mkfs.c:75-162 | the disk that mkfs makes has an empty log and shows a sound file system of empty files |
| `FsCrash.Mount.Do` | xv6-lab2/log.c:69-202 | a writei() or itrunc() as the transaction of the blocks it logs, with the power cut at any of its block writes and recovery cut short any number of times: it panics if and only if, by the file system before it, blocks are short or it logs more than the log takes; otherwise it is committed unless the power fails; the file system that comes up is sound (every block has one owner, the bitmap says so, no file has a hole), every file is as after the call if the header was written and exactly as before it if not, and free blocks hold what they held |
| `FsCrash.Mount.Life` | xv6-lab2/log.c:69-202 | over any number of calls with power failures anywhere, each call goes from the file system before it to the one after in just that way, panics included, and every file is the result of exactly the calls whose header was written |
| `FsCrash.LogsBound` | xv6-lab2/file.c:127-132 | a write logs at most its data blocks, the indirect block, the inode and the bitmap blocks, and a truncation the bitmap blocks and the inode |
| `FsCrash.ChunkLogs` | xv6-lab2/file.c:127-139 | on every file system, every full chunk of filewrite() logs at least 13 blocks, more than MAXOPBLOCKS, and with one bitmap block at most 17 |
| `Links.FindEntry` | xv6-lab2/fs.c:525-549 | finds an entry in use with the name exactly if there is one |
| `Links.IsDirEmpty` | xv6-lab2/sysfile.c:168-181 | true if and only if no entry after "." and ".." is in use |
| `Links.FindFree` | xv6-lab2/fs.c:195-215 | the first free inode from 1 on, or 0 if and only if all are in use |
| `Links.CreatedKeepsInv` | xv6-lab2/sysfile.c:241-284 | creating a file or directory in a linked directory keeps: link count equals the number of non-"." entries in linked directories, unique names, "." and ".." right, every directory named once by its parent, inodes in use exactly while named or referenced |
| `Links.CreateIff` | xv6-lab2/sysfile.c:241-284 | it does so if and only if the directory is linked |
| `Links.LinkKeepsInv` | xv6-lab2/sysfile.c:118-165 | a link into a linked directory keeps all of that |
| `Links.LinkIff` | xv6-lab2/sysfile.c:118-165 | it does so if and only if the directory is linked |
| `Links.RemovedKeepsInv` | xv6-lab2/sysfile.c:184-239 | removing a file or an empty directory keeps all of that, and the parent stays linked |
| `Links.PutKeepsInv` | xv6-lab2/fs.c:332-353 | dropping a reference keeps all of that: an inode is freed with its last name and reference, and no entry names it |
| `Links.ReachesRoot` | xv6-lab2/sysfile.c:241-284 | from every linked directory ".." leads to the root |
| `Links.FilledListing` | xv6-lab2/fs.c:552-579 | filling a free slot adds exactly one name to the directory |
| `Links.ErasedListing` | xv6-lab2/sysfile.c:218-220 | erasing a slot removes exactly one name |
| `Links.FileSystem.constructor` | xv6-lab2/mkfs.c:117-128 | the empty root directory and otherwise free inodes satisfy the invariant |
| `Links.FileSystem.Iget` | xv6-lab2/fs.c:242-273 | one reference more to an inode in use |
| `Links.FileSystem.Iput` | xv6-lab2/fs.c:332-353 | one reference less; an inode without names is freed with the last one |
| `Links.FileSystem.Dirlookup` | xv6-lab2/fs.c:525-549 | the inode of the name, referenced, or nothing |
| `Links.FileSystem.Dirlink` | xv6-lab2/fs.c:552-579 | fails, changing nothing, if and only if the name is there; panics if and only if it is not and the directory is full; otherwise the first free slot gets the entry |
| `Links.FileSystem.Create` | xv6-lab2/sysfile.c:241-284 | in any directory, linked or removed: an existing name gives its inode only for a file wanted and found; a new name is listed for a fresh inode with one link, and the invariant is then kept if and only if the directory is linked; it panics if and only if a new name finds no inode or no slot, or ".." of a removed directory leads to a freed inode |
| `Links.FileSystem.Link` | xv6-lab2/sysfile.c:118-165 | in any directory: succeeds if and only if the inode is no directory and the name is new and there is a slot; the invariant is then kept if and only if the directory is linked; a failure restores the link count and everything else |
| `Links.FileSystem.Unlink` | xv6-lab2/sysfile.c:184-239 | in any directory: keeps the invariant; succeeds if and only if the name is listed, is not a dot name, and names a file or an empty directory; exactly that name goes, and the panic "nlink < 1" is out of reach |
| `Links.RemoveWorkingDirectory` | xv6-lab2/sysfile.c:184-239 | from an empty file system: a directory is made, entered and removed, and a file is made |
| `Links.CreateInRemoved` | xv6-lab2/sysfile.c:241-284 | after that run, creating a file in the removed directory succeeds and breaks the link counts |
| `Links.LinkInRemoved` | xv6-lab2/sysfile.c:118-165 | after that run, linking the file into the removed directory succeeds and breaks the link counts |
| `PageTables.PteParts` | xv6-lab2/vm.c:60-80 | an entry made from frame and permissions is present and gives both back |
| `PageTables.ReachableIffOwned` | xv6-lab2/vm.c:35-55 | the frames accounted for as used are exactly those reachable from page directories, and none of them is free |
| `PageTables.FramesApart` | xv6-lab2/vm.c:316-359 | no frame is mapped at two user addresses, of one space or of two |
| `PageTables.SweepReleases` | xv6-lab2/vm.c:256-280 | a page-by-page sweep unmaps exactly its range, returns every frame to the free list, and changes no other entry or page |
| `PageTables.SkipTable` | xv6-lab2/vm.c:268-270 | where a table is missing, skipping to the next one does what the sweep does |
| `PageTables.Vm.constructor` | xv6-lab2/kalloc.c:32-44 | every frame between the kernel's end and PHYSTOP is free, once, and they are so many |
| `PageTables.Vm.Freerange` | xv6-lab2/kalloc.c:46-53 | every whole page of the range becomes free |
| `PageTables.Vm.Kalloc` | xv6-lab2/kalloc.c:82-95 | the first free frame, which nobody uses, or 0 if there is none |
| `PageTables.FreedFrame` | xv6-lab2/kalloc.c:59-77 | a frame that nobody uses, filled with junk and put on the free list, is accounted for again, and no entry and no page of any address space changes |
| `PageTables.Vm.Walkpgdir` | xv6-lab2/vm.c:35-55 | the table of a page, made empty if missing; no mapping of any space changes and every frame stays accounted for |
| `PageTables.Vm.Mappages` | xv6-lab2/vm.c:60-80 | the pages are mapped to consecutive frames up to the first that is mapped already ("remap") or whose table finds no memory, and exactly those; "mapped" if and only if all of them; tables taken, frames and other spaces are accounted for in each case |
| `PageTables.Vm.Deallocuvm` | xv6-lab2/vm.c:256-280 | terminates for `oldsz` up to KERNBASE and, skipping 4 MB where a table is missing, does exactly what the page-by-page sweep does, down to the order of the free list |
| `PageTables.Vm.Allocuvm` | xv6-lab2/vm.c:221-250 | it panics with "remap" if and only if a page of the range is mapped and the frames last beyond the pages before it; otherwise it succeeds, with zeroed user pages over the range, if and only if the range is unmapped and there are frames for it and its tables, and fails with the whole range unmapped; no frame is lost and no other space changes |
| `PageTables.Vm.Freevm` | xv6-lab2/vm.c:284-299 | user pages, tables and directory go back to the free list, each once; every other space and its pages are unchanged |
| `PageTables.Vm.Setupkvm` | xv6-lab2/vm.c:118-136 | with at least 65 free frames, and only then, a directory that maps exactly the kernel's four ranges, for exactly 65 frames, with no user table; otherwise everything as before |
| `PageTables.Vm.Copyuvm` | xv6-lab2/vm.c:316-359 | it succeeds if and only if the free frames cover the kernel's part, the pages and the tables they need: the child has the same user pages with the same flags and contents in other frames and nothing else below KERNBASE, and the parent is unchanged; otherwise all is as before, except for one frame if and only if the frames run out at a page for which one was taken and whose table is missing |
| `PageTables.Vm.Inituvm` | xv6-lab2/vm.c:180-194 | the first page holds the image, and at most a frame and a table are taken |
| `PageTables.FramesFit` | xv6-lab2/vm.c:316-359 | the user pages of a space, its directory and the free frames are different frames of memory |
| `AddressSpace.NeverFull` | xv6-lab2/memlayout.h:4-8 | there are fewer frames than pages between heap and stack, whatever the layout |
| `AddressSpace.OthersKeepLayout` | xv6-lab2/vm.c:221-299 | a step that keeps the entries and the roles of all frames of other processes, as the contracts below say of each, keeps their layout |
| `AddressSpace.GrowthIff` | xv6-lab2/vm.c:234-246 | with the pages between heap and some end unmapped, the layout holds if and only if that end is the start of the stack |
| `AddressSpace.FaultIff` | xv6-lab2/trap.c:81-97 | with the pages from a fault on mapped, the layout holds with one more stack page if and only if the fault was in the page just below the stack |
| `AddressSpace.CopyLayout` | xv6-lab2/proc.c:191-200 | a copy has the layout of the original, which keeps it |
| `AddressSpace.Process.Growproc` | xv6-lab2/proc.c:158-175 | for every change of the size: it never panics, and succeeds exactly when the range is free and the frames last; new pages are zeroed, kept pages hold what they held, no frame is lost and no other process changes; a growth that meets the stack fails and unmaps the stack's pages in its range; the mapped pages are exactly heap and stack afterwards if and only if the growth stays below the stack and the heap is not given up whole |
| `AddressSpace.Process.Fault` | xv6-lab2/trap.c:81-97 | for every address: exactly when it panics; otherwise zeroed pages are mapped from the fault up to the stack and the stack's size grows by one page, or nothing changes; heap and stack hold what they held, no frame is lost and no other process changes; the layout holds if and only if at most one page was mapped |
| `AddressSpace.Process.Fork` | xv6-lab2/proc.c:191-200 | it succeeds exactly when the frames suffice: child and parent have the same layout and contents in different frames, every frame of other processes keeps its role and contents, and copyuvm()'s panics are out of reach; exactly when a frame is lost |
| `AddressSpace.Process.LoadSegments` | xv6-lab2/exec.c:41-58 | it succeeds exactly when every header passes the checks and the frames suffice; the image then reaches up to the highest segment end and nothing above is mapped |
| `AddressSpace.Process.Exec` | xv6-lab2/exec.c:20-121 | it never panics, and succeeds exactly when every header passes the checks, the arguments can be pushed and the frames suffice: the new image is mapped from 0 to its end, rounded up, with one stack page under KERNBASE, and of all frames in use exactly those of the old space are given up; otherwise nothing changes; no frame is lost and no other process changes |
| `Machine.System.constructor` | xv6-lab2/proc.c:120-154 | after main() and userinit() there is one process with a page of heap and no stack, and every frame up to PHYSTOP is accounted for |
| `Machine.System.StepGrow` | xv6-lab2/proc.c:158-175 | with any number of processes in one memory, growproc() never halts the machine, and all processes are laid out as they should be if and only if the growth meets no stack and does not bring the size down to 0 |
| `Machine.System.StepTouch` | xv6-lab2/trap.c:81-97 | a fault halts the machine if and only if it is in the heap or the frames do not last; otherwise all processes are laid out as they should be if and only if it is at most one page below the stack |
| `Machine.System.StepFork` | xv6-lab2/proc.c:180-224 | fork() keeps the layout of all processes and of the child, which is there if and only if the frames suffice; exactly when a frame is lost |
| `Machine.System.StepExec` | xv6-lab2/exec.c:20-121 | exec() keeps the layout of all processes, loses no frame, and takes effect if and only if the program is accepted and the frames suffice |
| `Machine.System.StepReap` | xv6-lab2/proc.c:285-301 | freeing the space of a collected process keeps the layout of the others and loses no frame |
| `Machine.System.Step` | xv6-lab2/proc.c:158-313 | whatever a process does (growproc(), fault, fork(), exec(), being collected): the machine halts if and only if it is a fault in the heap or without frames; otherwise sizes and stacks of all processes are exactly as the operation says, all are laid out as they should be if and only if the step is disciplined, and a frame is lost if and only if it is a fork() whose frames run out at a missing table |
| `Machine.System.Run` | xv6-lab2/proc.c:158-313 | every run goes on, step by step, up to the first step that cannot occur, is not disciplined or halts the machine; all processes stay laid out as they should be, and frames are lost if and only if a fork() loses one |
| `LayoutFailures.DeepFault` | xv6-lab2/trap.c:81-97 | a run from boot: a fault two pages below the top leaves the first process with two stack pages mapped and one counted |
| `LayoutFailures.GrowthTakesStack` | xv6-lab2/vm.c:234-246 | a run from boot: after one stack page, a growth to the end of user space fails and leaves the first process without its stack |
| `LayoutFailures.ShrinkToNothing` | xv6-lab2/proc.c:168-171 | a run from boot: sbrk() down to 0 fails and leaves the first process with a heap that is counted and not mapped |
| `LayoutFailures.ForkLosesFrame` | xv6-lab2/vm.c:328-335 | a run from boot: a first process that leaves 66 free frames forks, which fails, and a frame is neither free nor in use |
| `Monitor.SharedInvariant` | xv6-lab2/proc.c:418-475 | what each action under the lock keeps holds in every interleaving whenever the lock is free |
| `Monitor.NoLostWakeup` | xv6-lab2/proc.c:418-475 | if every action sleeps only with reason and repays a reason it removes with a wakeup before releasing the lock, then in every interleaving, while the lock is free, each process asleep or committed to sleeping has reason to |
| `SleepLock.NobodySleepsOnAFreeLock` | xv6-lab2/sleeplock.c:22-42 | in every interleaving, while the inner lock is free and `locked` is 0, nobody is asleep on the sleep-lock or about to be |
| `SleepLock.MutualExclusion` | xv6-lab2/sleeplock.c:22-42 | in every interleaving in which only the holder releases, at most one process holds the lock, and `locked` says whether one does |
| `Pipe.PipeIsFifo` | xv6-lab2/pipe.c:78-121 | in every interleaving of any number of readers and writers, killed or not, the bytes read are a prefix of the bytes written, and the wrapping counters differ by what is in between, at most PIPESIZE |
| `Pipe.FairSleepers` | xv6-lab2/pipe.c:59-121 | in every interleaving in which no writer sees itself killed, readers killed or not, while the lock is free, each sleeper has reason to sleep |
| `Pipe.SleepersMean` | xv6-lab2/pipe.c:59-121 | if the read end is closed only when nobody is in piperead(), as file references ensure, a sleeper on nread means an empty pipe that someone may write to, on nwrite a full one that someone may read |
| `Pipe.KilledWriterLosesWakeup` | xv6-lab2/pipe.c:78-98 | a run in which a killed writer leaves a reader asleep on a full pipe, the read end open |
| `Pipe.SleepersOfRun` | xv6-lab2/pipe.c:78-98 | every single run, with kills of readers and writers, in which no writer finds itself killed at a full pipe: sleepers have reason to sleep |
| `Pipe.SleepersJustifiedIff` | xv6-lab2/pipe.c:59-121 | sleepers have reason to sleep in every interleaving if and only if writers do not notice that they are killed |
| `Proc.StepInv` | xv6-lab2/proc.c:180-475 | every step of scheduler(), yield(), sleep(), wakeup(), kill(), fork(), exit() and wait() on any CPU, with a clock tick anywhere outside the lock, also inside fork(), and wakeups from interrupts on idle and busy CPUs, keeps the invariant of lock, CPUs, table, families and pids |
| `Proc.RunningMatchesCpus` | xv6-lab2/proc.c:323-393 | in every reachable state with ptable.lock free, RUNNING processes and CPUs with a process correspond one to one |
| `Proc.NoProcessRunsTwice` | xv6-lab2/proc.c:323-383 | no kernel stack is run on by two CPUs |
| `Proc.ReapedStackIsIdle` | xv6-lab2/proc.c:273-313 | when wait() frees a kernel stack, no CPU is on it |
| `Proc.EveryProcessHasAParent` | xv6-lab2/proc.c:180-269 | every process but init has a parent that is neither unused nor a zombie |
| `Proc.ReapedOnce` | xv6-lab2/proc.c:273-313 | no pid is returned by two waits, none before it exited, and each only to the process that forked it or, if that one had exited before, to init |
| `Proc.NobodySleepsOnAZombie` | xv6-lab2/proc.c:228-313 | a process asleep in wait() has no zombie child to collect |
| `Proc.DeadStayDead` | xv6-lab2/proc.c:228-269 | exit() never returns |
| `Umalloc.MergeTiling` | xv6-lab2/umalloc.c:33-42 | joining adjacent blocks keeps the blocks a disjoint cover of the units |
| `Umalloc.PayloadIff` | xv6-lab2/umalloc.c:63-69 | the unit count has room for the request if and only if the rounding does not wrap around |
| `Umalloc.RequestIff` | xv6-lab2/umalloc.c:46-69 | there is room for the request and sbrk() is asked for all the units taken if and only if the request is at most 2^31 - 16 bytes |
| `Umalloc.WrappingRequests` | xv6-lab2/umalloc.c:46-69 | a request that gets a block without payload, and one that asks sbrk() for a negative number of bytes |
| `Umalloc.StopsAtSlot` | xv6-lab2/umalloc.c:30-32 | the walk of free() stops at the one place in the ring where the block belongs |
| `Umalloc.FreeHeap` | xv6-lab2/umalloc.c:24-44 | free() keeps one circular ring in address order with no two free blocks adjacent, and all blocks a disjoint cover of the units from sbrk() |
| `Umalloc.Heap.constructor` | xv6-lab2/umalloc.c:21-22 | before the first call there is no block |
| `Umalloc.Heap.FindSlot` | xv6-lab2/umalloc.c:30-32 | the loop ends at the free block just below, or at the end of the ring |
| `Umalloc.Heap.Free` | xv6-lab2/umalloc.c:24-44 | the block is no longer live and the free list has room for it again; every other live block is as it was, and the invariant is kept |
| `Umalloc.Heap.Morecore` | xv6-lab2/umalloc.c:46-61 | the units from sbrk() join the heap as a free block large enough, or nothing changes |
| `Umalloc.Heap.Carve` | xv6-lab2/umalloc.c:74-84 | a block of exactly the units asked for becomes live, from the tail of a larger one or whole |
| `Umalloc.Heap.Malloc` | xv6-lab2/umalloc.c:63-90 | for every request: terminates after at most one morecore(), called if and only if no free block is large enough, with a new live block of the right size, disjoint from all others, or fails only because sbrk() did; except when morecore() takes more units than it asked for |
| `Shell.PointersDenoteWords` | xv6-lab2/sh.c:327-342 | whatever line parses, after nulterminate() each argv and file pointer reads, up to its NUL, as exactly its word of the line |
| `Shell.NulTerminate` | xv6-lab2/sh.c:449-493 | the buffer gets a NUL at the end of each word of the command and nowhere else |
| `Shell.ParsePrint` | xv6-lab2/sh.c:265-446 | for every command with legal words and fewer than MAXARGS arguments, parsing its parenthesised printing gives it back |
| `Shell.LineParses` | xv6-lab2/sh.c:344-359 | the same in the middle of a line, as used for blocks |
| `Grep.MatchHere` | xv6-lab2/grep.c:85-96 | 1 if and only if the denotation of the pattern accepts a prefix of the text |
| `Grep.MatchStar` | xv6-lab2/grep.c:99-106 | 1 if and only if some number of the item, then the rest, does |
| `Grep.Match` | xv6-lab2/grep.c:72-82 | 1 if and only if the denotation of the pattern (literals, '.', stars, leading '^', final '$') accepts the text at some start |

## Left out

- The boot loader, interrupt controllers, serial line, keyboard, display and IDE port I/O: the disk is the in-memory one of memide.c.
- `swtch()` and trap frames: a context switch hands control over and keeps ptable.lock held.
- shm.c: its calls are empty stubs.
- grep()'s line buffering, printf, usertests and the simple user programs: they would only add easy members.
- Path lookup (namei, skipelem): the directory, the name and the inode are parameters, with the references that lookup takes.
- Device files in readi() and writei(), and loading of segments from the file in exec(): whether loaduvm() and copyout() succeed are parameters.
- Panics for want of disk blocks in balloc() below writei(), and of buffers inside the log's operations: enough of them is a precondition; FsCrash counts the blocks.
- kill() by pid: it may hit any process, without the search through the table.
- Overflow of the 16-bit link count.
- Type and link count in the on-disk inode: FsImage leaves those words as they are.
- Transactions of several calls: FsCrash commits each writei() or itrunc() by itself. Its blocks go to the disk through the writes of commit(), not through the buffers of Log.
- uva2ka() and copyout() on absent tables.
- The pages of kernel stacks and pipe buffers in the account of frames.
- BufferCache.Bcache.Bget: is bget() with a buffer to be had and without the wait for another holder; the panic is in Claim, the wait in BufferUse and SleepLock.
- BufferCache.Bcache.Bread: as Bget, does not wait for a buffer that another process holds.
- Log.Log.Bread: as Bget, does not wait for a buffer that another process holds.
- Log.Log.Commit: readers keep the buffers they have while it runs; that they take and release others meanwhile is not modelled. The same holds for WriteHead, WriteLog, InstallTrans and EndOp.
- Log.Log.WriteBlock: nobody else uses the buffer of the block; waiting for it is in BufferUse.
- Log.Log.Operation: one process on an idle log; operations that overlap are in LogAdmission.
- Links.FileSystem.Link: one device only.
- PageTables.Vm.Kalloc: the free list is a sequence, not linked through the free pages.
- AddressSpace.Process.Fork: the frame of the child's kernel stack, taken before copyuvm(), is not counted.
- Machine.System.constructor: kinit1() and kinit2() are one step.
- Pipe.SleepersMean: file references are not modelled; that the read end is not closed under a reader is a condition on the run.
- Umalloc.Heap.Malloc: promises nothing when morecore() takes more units than it asked sbrk() for.
