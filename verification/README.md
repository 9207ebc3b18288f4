# xv6-riscv: storage, memory, processes and devices

A Dafny model of the kernel in `kernel/` and of the image builder in `mkfs/`, with proofs about the
parts that are hardest to get right:

- **Storage.** The buffer cache (a circular list relinked in place), the write-ahead log with group
  commit, crashes and recovery. `Storage` is the whole stack as a transition system of many processes,
  sleep locks, cache, log and disk; it refines an atomic specification, and over every run what recovery
  would restore is the logical disk at the last commit.
- **File system.** Bitmap, inodes, the indirect block, `readi`/`writei`, directories, path lookup, link
  counts, `link`/`unlink`/`create` on one state, how many blocks each of them passes to the log, and the image
  that `mkfs` writes.
- **Virtual memory.** Three-level page tables over a physical memory of pages, `mappages`, `uvmunmap`,
  `uvmalloc`, `uvmcopy`, `freewalk`, and the free list that pays for it all: pages are counted exactly, so
  every operation says when it succeeds, when it fails and when it stops the kernel.
- **exec.** Program headers to a loaded image, byte by byte from the file, with guard page and stack, and the
  argument stack.
- **Processes.** fork, exit, wait, sleep, wakeup, yield and the scheduler as interleaved steps on any number
  of processes and CPUs, with the spin locks they take.
- **Devices.** The virtio queue shared with the device, pipes, console input.

Objects that the kernel updates in place are classes (`Bcache`, `WriteAheadLog`, `PhysMem`, `Fs`, `Image`,
`Memdisk`, `PipeBuf`, `Cons`, `UserMem`); each method is proved against a function or predicate on values,
and the laws are proved about those. Concurrent protocols are transition systems with invariants over whole runs.
`dafny verify dfyconfig.toml` checks everything.

Places where the code does not do what it seems to promise are kept as they are, with the exact condition:

- `uvmalloc` stops the kernel when memory runs out after the first page, because `uvmdealloc` takes a byte
  difference for a number of pages (`Uvm.Uvmalloc`, `Uvm.Uvmdealloc`).
- `commit` panics in `bget` when the log list is full, since it pins all 30 buffers (`Log.WriteAheadLog.Commit`);
  `log_write` refuses a full list before it looks for absorption, so ten blocks per operation are one too many
  (`GroupCommit.LogNeverOverflows`). What link, unlink, create and a piece of a write can log stays below that exactly
  on disks with at most three bitmap blocks (`LogBudget.CallsNeverOverflow`).
- An image whose root directory fills its last block exactly gets a size that covers a block it does not have
  (`MkfsMain.MkfsEstablishes`), and clashing file names give a root that is not a map (`MkfsTree.MkfsSane`).
- A name made in a directory that has been removed leaves a wrong link count (`Links.LinkNeedsLinkedDir`,
  `Links.FileNeedsLinkedDir`, `Links.DirNeedsLinkedDir`); three system calls get there from any tree with two free inodes
  (`Links.RemovedDirectory`). `LinkOps.Link` and `LinkOps.Create` keep the counts exactly outside such directories.
- The ".." of a removed working directory may lead to a freed inode; `namex` through it panics in `ilock`, and so does
  `create` of that name (`Links.OrphanedDangles`, `NamexSafe.OrphanDies`, `Namex.Namex`, `LinkOps.Create`).
- `freeproc` keeps the size of the last process in the slot, so a fork that runs out of memory while copying panics
  exactly when that size is not 0 (`ForkMemory.ForkSpace`).
- mkfs does not count its inodes: the 199th file gets inode 200, which the superblock does not have, and mkfs goes on
  (`MkfsMain.MakeImage`, `Mkfs.MkfsIalloc`).
- `kfree` of a page that is free already turns the free list into a loop (`Kalloc.PhysMem.Kfree`).
- With exactly MAXARG arguments exec writes past `ustack` (`ExecStack.ArgStack`).
- `piperead` and `consoleread` lose the byte whose copy to the user fails, exactly when there is one more than can be
  copied (`Pipe.PipeBuf.ReadBytes`, `Console.Cons.Consoleread`).

## Model

| member | source | states |
|---|---|---|
| `LogFormat.HeaderRoundTrip` | kernel/src/log.c:175-202 | Whatever the buffer held, the list write_head stores is the list read_head reads. |
| `LogFormat.AttemptIsHarmless` | kernel/src/log.c:158-210 | Recovery stopped after any of its writes leaves a disk that recovers to the same home blocks. |
| `LogFormat.HeaderCommits` | kernel/src/log.c:191-228 | Once the header is on disk after the slots, recovery yields the whole new disk. |
| `Log.CommitIsAtomic` | kernel/src/log.c:204-241 | Stop commit after any write, then stop recovery any number of times before or after any of its writes: a final recovery gives the old disk before the header write and the new one from it on. |
| `Log.CrashedState` | kernel/src/log.c:213-241 | The disk after write k of commit: filled slots, the header, or a state of an interrupted recovery. |
| `Log.CommitKeepsView` | kernel/src/log.c:231-241 | After a commit the home blocks on disk are the logical disk. |
| `Log.RecoveryIsIdempotent` | kernel/src/log.c:204-210 | Every disk state recovery passes through recovers, with any interruptions, to the same home blocks. |
| `Log.WriteAheadLog.constructor` | kernel/src/log.c:62-73 | The log starts with an empty list, nothing outstanding and the logical disk equal to the disk. |
| `Log.WriteAheadLog.LogWrite` | kernel/src/log.c:76-103 | Panics exactly on a full list, a full log or outside an operation; otherwise the logical disk takes the data, a new block is appended and pinned once, one already listed is absorbed. |
| `Log.WriteAheadLog.TryBeginOp` | kernel/src/log.c:107-121 | Admits exactly when no commit runs and every admitted operation could still add MAXOPBLOCKS blocks. |
| `Log.WriteAheadLog.EndOp` | kernel/src/log.c:125-155 | Panics exactly during a commit or when the last one meets a full list; the last operation leaves an empty list and the logical disk on disk, any other leaves everything alone. |
| `Log.WriteAheadLog.InstallTrans` | kernel/src/log.c:158-172 | Every listed block is home, nothing is pinned, and the disk went through exactly the states of InstallTrace. |
| `Log.WriteAheadLog.ReadHead` | kernel/src/log.c:175-186 | The list in memory is the one in the header block on disk, and only the cache was used. |
| `Log.WriteAheadLog.WriteHead` | kernel/src/log.c:191-202 | One disk write: the header block now holds the list, over what the block held before. |
| `Log.WriteAheadLog.RecoverFromLog` | kernel/src/log.c:204-210 | The disk passes exactly through RecoverTrace and ends as Recover says. |
| `Log.WriteAheadLog.WriteLog` | kernel/src/log.c:213-228 | Fills one slot per listed block, one disk write each; panics exactly when the list is full. |
| `Log.WriteAheadLog.Commit` | kernel/src/log.c:231-241 | The disk passes exactly through CommitTrace, the logical disk is unchanged and the list is empty; panics exactly when the list is full. |
| `GroupCommit.CommitIsExclusive` | kernel/src/log.c:107-155 | In every reachable state, however many blocks operations add, a commit runs with no operation open; below MAXOPBLOCKS each the list is never full, and with no operation open and no commit running it is empty. |
| `GroupCommit.NeverStuck` | kernel/src/log.c:76-121 | With fewer than MAXOPBLOCKS new blocks per operation no reachable state makes log_write panic. |
| `GroupCommit.LogNeverOverflows` | kernel/src/log.c:76-155 | log_write cannot panic in any interleaving if and only if every operation adds fewer than MAXOPBLOCKS blocks. |
| `BufferCache.BgetPanics` | kernel/src/bio.c:43-74 | bget panics exactly when the block is not cached and every buffer is referenced. |
| `Bio.Bcache.constructor` | kernel/src/bio.c:22-38 | All buffers unreferenced and linked in one circular list. |
| `Bio.Bcache.Bget` | kernel/src/bio.c:43-74 | The two scans over the links pick the buffer the function on lists picks, and change it as that function does, or nothing. |
| `Bio.Bcache.Bread` | kernel/src/bio.c:77-87 | The buffer returned holds the cached copy, or the disk block if it was recycled. |
| `Bio.Bcache.Bwrite` | kernel/src/bio.c:91-96 | Panics exactly without the buffer's sleep lock; otherwise exactly the block of the buffer changes on disk. |
| `Bio.Bcache.Brelse` | kernel/src/bio.c:115-138 | Panics exactly without the buffer's sleep lock; when the last reference goes the buffer is linked right behind the sentinel and the list is the one `CacheRuns.BrelseOrder` describes; with references left no link changes. |
| `Bio.Bcache.Bpin` | kernel/src/bio.c:99-104 | One reference more on that buffer; the list, the data and every other buffer as before. |
| `Bio.Bcache.Bunpin` | kernel/src/bio.c:107-112 | One reference less on that buffer; the list, the data and every other buffer as before. |
| `CacheInvariant.BgetKeeps` | kernel/src/bio.c:43-74 | bget never takes the buffer of a pinned or held block, and one buffer per block remains. |
| `CacheInvariant.BreadKeeps` | kernel/src/bio.c:77-87 | bread returns the logical contents of a block that is pinned or agrees with the disk. |
| `CacheInvariant.BgetSucceeds` | kernel/src/bio.c:43-74 | With no buffer held and fewer pins than buffers bget finds one. |
| `CacheInvariant.FullyPinnedPanics` | kernel/src/bio.c:43-74 | With every buffer pinned a block outside the transaction makes bget panic. |
| `CacheRuns.BrelseOrder` | kernel/src/bio.c:115-138 | The last reference puts the buffer first in the list and keeps the order of all others; any other release leaves the list as it is. |
| `CacheRuns.RecyclesOldest` | kernel/src/bio.c:43-138 | In every run of bget, brelse, bpin and bunpin, the buffer bget recycles for a block that is not cached is unreferenced, and every other unreferenced one was released later. |
| `StorageInvariant.InvNext` | kernel/src/log.c:62-241 | Every step of every process, the device or a crash keeps the invariant of cache, log and disk. |
| `StorageRefinement.Refines` | kernel/src/log.c:62-241 | Every step of the stack is a step, or no step, of the specification: operations on a logical disk, atomic commit, crash to the durable disk. |
| `StorageRefinement.DurableByPhase` | kernel/src/log.c:204-241 | What recovery would restore is the home blocks on disk before the header write and the logical disk after it. |
| `StorageRefinement.NoEarlyHomeWrite` | kernel/src/log.c:213-241 | Until the header is written no home block changes on disk. |
| `StorageRefinement.ReadsAreCurrent` | kernel/src/bio.c:77-87 | A process that holds a buffer sees the current logical contents of its block. |
| `StorageRefinement.CrashSafety` | kernel/src/log.c:62-241 | At every moment of every interleaving, with any crashes, recovery would restore exactly the logical disk at the last commit, taken with no operation open, or the initial disk. |
| `StorageRefinement.QuietIsDurable` | kernel/src/log.c:125-155 | At every moment of every run with no operation open and no commit or recovery under way, all that was written is durable. |
| `FsLayout.MarkUsed` | kernel/src/fs.c:77-116 | Setting or clearing the bit of a block changes what the bitmap says about that block only. |
| `FsLayout.InodeRoundTrip` | kernel/src/fs.c:303-346 | An inode stored in its slot is read back, and the other inodes of the block are untouched. |
| `FsLayout.InodeLayout` | kernel/inc/fs.h:30-37 | Type, major, minor and nlink are 16-bit numbers at bytes 0, 2, 4 and 6 of the inode's 64, the size is the 32-bit number at 8, and the block numbers follow. |
| `FsState.OneOwner` | kernel/src/fs.c:77-182 | No block belongs to two places. |
| `FsState.BitmapIsExact` | kernel/src/fs.c:77-116 | A block is marked exactly when it is metadata or some inode refers to it. |
| `FsSpace.LooseIsClear` | kernel/src/fs.c:77-99 | The blocks counted as free are those whose bit in the bitmap is clear. |
| `FsBlocks.Fs.Balloc` | kernel/src/fs.c:77-99 | Takes and zeroes the first clear block; panics exactly when none is clear. |
| `FsBlocks.Fs.Bfree` | kernel/src/fs.c:101-116 | Clears one bit; panics exactly when it was clear. |
| `FsBlocks.Bmap` | kernel/src/fs.c:144-182 | Returns the block of the place, keeping all that was there; panics exactly out of range or when fewer blocks are free than are missing, and takes exactly those. |
| `FsFiles.Iupdate` | kernel/src/fs.c:303-318 | Exactly the inode's own slot on disk takes the inode in memory. |
| `FsFiles.Writei` | kernel/src/fs.c:473-506 | Refuses exactly a start past the end and an end past the largest file, panics exactly when the free blocks do not cover what the range lacks, and otherwise the file is spliced, every other file is the same and all invariants hold; every block that changed was logged, and logged were at most the bitmap, the inode's block and the blocks on the way to the range. |
| `FsFiles.Readi` | kernel/src/fs.c:442-471 | Delivers exactly the bytes of the file in the range, and changes nothing. |
| `FsFiles.SplicedAt` | kernel/src/fs.c:473-506 | The file after a write has the new bytes in the range, the old ones elsewhere, and is as long as the longer of the two. |
| `FsTrunc.Itrunc` | kernel/src/fs.c:401-429 | Exactly the inode's blocks are freed, none is freed twice, its size is 0 and the other files stay; nothing but the bitmap and the inode's block is logged. |
| `FsTrunc.Iput` | kernel/src/fs.c:364-389 | The last reference to an inode without links frees its blocks and the inode; otherwise only the count changes. |
| `FsTrunc.Ialloc` | kernel/src/fs.c:266-287 | The lowest free inode becomes a fresh one of the type, every file stays; none exactly when all are taken. |
| `FsTrail.SpotsSize` | kernel/src/fs.c:144-182 | The blocks on the way to n blocks of a file are n, and one more where the range reaches past the direct ones. |
| `FsTrail.LogsFew` | kernel/src/log.c:76-103 | An operation that logs the bitmap, the blocks of two inodes and n others logs at most that many distinct blocks, the bitmap counted by its size. |
| `LogBudget.WriteLogs` | kernel/src/file.c:171-187 | writei of n bytes logs at most its blocks, the table, the inode and the bitmap; for as many bytes as filewrite plans for one operation that is six and the bitmap. |
| `LogBudget.CallsNeverOverflow` | kernel/src/log.c:76-155 | With operations that log what link, unlink, create and pieces of a write can, log_write panics in no interleaving if and only if the disk has at most three bitmap blocks. |
| `Names.Strncpy` | kernel/src/string.c:68-78 | The field becomes the name, cut to 14 bytes and padded with zeros. |
| `Names.Namecmp` | kernel/src/fs.c:509-512 | Equal exactly when name and field agree on their first 14 bytes. |
| `Names.FieldOfPadded` | kernel/src/string.c:68-78 | What strncpy stores reads back as the name's first 14 bytes. |
| `Dir.LinkIsUpdate` | kernel/src/fs.c:549-575 | A new entry changes the directory as a map at that name only, and names stay unique. |
| `Dir.UnlinkIsRemoval` | kernel/src/sysfile.c:215-269 | Clearing an entry removes that name from the map and nothing else. |
| `Dir.EmptyFromSecond` | kernel/src/sysfile.c:60-72 | Nothing in use from the third entry on exactly when the map has only dot and dot-dot. |
| `DirOps.Dirlookup` | kernel/src/fs.c:516-542 | Finds the inode and offset the map gives for the name; panics exactly on something that is not a directory. |
| `DirOps.Dirlink` | kernel/src/fs.c:549-575 | Refuses exactly a name in use and a full directory, dies exactly when the disk lacks the blocks, and otherwise updates the map at that name and no other file. |
| `Path.Skipelem` | kernel/src/fs.c:586-616 | The first component cut to 14 bytes and a rest that names the remaining ones; nothing exactly when no component is left. |
| `Path.ComponentsJoined` | kernel/src/fs.c:586-616 | Two paths with a slash between them name the components of both. |
| `Namex.Namex` | kernel/src/fs.c:618-652 | Starts at the root if the path begins with a slash and at the working directory if not; dies exactly when a proper prefix of the path leads to an inode without a type; otherwise returns what folding the lookups over the components gives; with parent, the fold over all but the last and the last name. |
| `Namex.WalkOn` | kernel/src/fs.c:618-652 | Walking a path and then another is walking both joined. |
| `Namex.ResolveJoined` | kernel/src/fs.c:618-652 | a/b resolves to what the relative path b resolves to from what a resolves to. |
| `Namex.ResolveName` | kernel/src/fs.c:618-652 | A single name resolves to what the working directory has under it. |
| `Namex.ResolveAbsolute` | kernel/src/fs.c:622-626 | With a slash in front a path resolves from anywhere to what it resolves to from the root. |
| `Namex.ParentThenName` | kernel/src/fs.c:618-652 | Looking the last name up in the directory found with parent gives what the whole path leads to. |
| `NamexSafe.SaneDirs` | kernel/src/fs.c:516-542 | In a sane file system every directory, removed ones included, is a map into the inodes there are, which is what namex needs. |
| `NamexSafe.LinkedNeverDies` | kernel/src/fs.c:618-652 | From a linked directory no path makes namex die, whatever was removed elsewhere. |
| `NamexSafe.AbsoluteNeverDies` | kernel/src/fs.c:618-652 | No absolute path makes namex die. |
| `NamexSafe.OrphanDies` | kernel/src/fs.c:322-346 | In a working directory removed together with the one above it, every longer path that starts with dot-dot makes namex die. |
| `Links.AddFileKeeps` | kernel/src/sysfile.c:271-332 | Adding a file keeps link counts equal to the names that lead to each inode. |
| `Links.AddLinkKeeps` | kernel/src/sysfile.c:167-213 | Adding a name for a file keeps the link counts exact. |
| `Links.AddDirKeeps` | kernel/src/sysfile.c:303-321 | Adding a directory with dot and dot-dot keeps the counts exact and the directories a tree. |
| `Links.RemoveFileKeeps` | kernel/src/sysfile.c:215-269 | Removing a name of a file keeps the counts exact, and the count was positive. |
| `Links.RemoveDirKeeps` | kernel/src/sysfile.c:215-269 | Removing an empty directory keeps the counts exact and leaves it with no links. |
| `Links.LinkNeedsLinkedDir` | kernel/src/sysfile.c:167-213 | A link made in a directory keeps the counts exact if and only if that directory is itself linked. |
| `Links.FileNeedsLinkedDir` | kernel/src/sysfile.c:271-332 | The same for a file that create makes. |
| `Links.DirNeedsLinkedDir` | kernel/src/sysfile.c:303-321 | The same for a directory that create makes. |
| `Links.RemovedDirectory` | kernel/src/sysfile.c:215-332 | From every tree with two free inodes, mkdir, rmdir and create in the removed directory end with a wrong link count. |
| `Links.OrphanedDangles` | kernel/src/sysfile.c:215-332 | From every tree with two free inodes, mkdir twice, one in the other, and rmdir of both keeps all counts exact and leaves the inner directory, while it is in use, with a dot-dot that leads to a free inode. |
| `LinkOps.Isdirempty` | kernel/src/sysfile.c:60-72 | True exactly when no entry from the third on is in use; reads only. |
| `LinkOps.Link` | kernel/src/sysfile.c:167-213 | Fails exactly on a directory, without a parent, or if the name is there or the parent full, and then everything is as before; dies exactly when the disk lacks the blocks; otherwise one name more and all bytes of other files the same; the link counts are right if and only if it failed or the parent is linked; it logs at most four blocks and the bitmap. |
| `LinkOps.Unlink` | kernel/src/sysfile.c:215-269 | Never dies; fails exactly on dot, dot-dot, an absent name and a directory that is not empty; otherwise removes the name, and the inode and its blocks with the last link and reference, and keeps all other files and exact counts; it logs at most four blocks and the bitmap. |
| `LinkOps.Create` | kernel/src/sysfile.c:271-332 | Returns the file or device that is there exactly when a file is asked for, else enters a fresh inode and, for a directory, its dots; makes nothing exactly when the name is taken, no inode is free or the directory is full, and dies exactly when the blocks do not suffice or the name leads to a free inode; the link counts are right if and only if it made nothing or the directory is linked; it logs at most six blocks and the bitmap. |
| `LinkOps.LinkedNeverDangles` | kernel/src/sysfile.c:271-332 | In a linked directory no name leads to a free inode. |
| `Mkfs.UsedIsPrefix` | mkfs/mkfs.c:229-242 | While the image is built, the blocks in use are exactly those below freeblock. |
| `Mkfs.MkfsIalloc` | mkfs/mkfs.c:216-227 | Hands out the next number without a bound and stores a fresh inode with one link where its block would be; dies exactly when that block is past the image; below ninodes every file stays. |
| `Mkfs.Iappend` | mkfs/mkfs.c:246-287 | The file grows by the bytes and every other file stays; false exactly when the file or the image has no room. |
| `MkfsMain.BitmapBlock` | mkfs/mkfs.c:229-242 | The bitmap block has exactly the first used bits set. |
| `MkfsMain.MakeImage` | mkfs/mkfs.c:70-173 | Succeeds exactly for files that fit, and then every file has its inode, name and contents, the root is rounded up and the bitmap marks what is used; with more than 198 files, the first 198 fitting, it hands out an inode the superblock does not have; otherwise it dies. |
| `MkfsMain.RootIsDir` | mkfs/mkfs.c:117-163 | With names that differ in 14 bytes the root is a map from each name to its file's inode. |
| `MkfsMain.MkfsEstablishes` | mkfs/mkfs.c:70-173 | The image meets the kernel's block and inode invariants if and only if the root does not end at a block boundary. |
| `MkfsTree.MkfsSane` | mkfs/mkfs.c:70-173 | The image is a sane file system, links included, if and only if no names clash and the root does not end at a block boundary. |
| `Sv39.PteRoundTrip` | kernel/inc/riscv.h:339-367 | Packing page and flags into an entry and unpacking gives both back. |
| `Sv39.PxDigits` | kernel/inc/riscv.h:339-367 | The three indices are the digits of the page number. |
| `Kalloc.PhysMem.constructor` | kernel/src/kalloc.c:22-26 | Every whole page of the range is on the free list exactly once. |
| `Kalloc.PhysMem.Kalloc` | kernel/src/kalloc.c:29-42 | Pops the head of the linked list, 0 exactly when it is empty; no other page is touched. |
| `Kalloc.PhysMem.Kfree` | kernel/src/kalloc.c:45-61 | Panics exactly on a page that is misaligned or out of range, else pushes it; the allocator stays valid unless the page was free already, and then the list is a loop. |
| `Kalloc.DoubleFree` | kernel/src/kalloc.c:45-61 | Pushing a page that is on the free list leaves links that never come to an end. |
| `PageTable.SetEntry` | kernel/src/vm.c:178-206 | Writing one bottom entry changes that translation and no other. |
| `PageTable.AddMid` | kernel/src/vm.c:82-102 | Hanging a zeroed table changes no translation and keeps the tables a tree. |
| `PageWalk.Walk` | kernel/src/vm.c:82-102 | Finds the slot of the address; fails exactly when the tables on the way cannot be paid for, panics exactly past MAXVA, and changes no translation. |
| `Mappages.Mappages` | kernel/src/vm.c:178-206 | Exactly the pages of the range gain their entries and exactly the missing tables are taken; it fails and stops only at a page it names. |
| `Unmap.Uvmunmap` | kernel/src/vm.c:129-150 | Succeeds exactly on an aligned range of mapped pages that kfree accepts; then exactly the range is gone and, with do_free, exactly its pages are free. |
| `Freewalk.Freewalk` | kernel/src/vm.c:154-171 | Succeeds exactly without leaves; then every table reached is free exactly once and nothing else is touched. |
| `Freewalk.TreeReach` | kernel/src/vm.c:154-171 | freewalk reaches exactly the tables of the tree, and meets no leaf exactly when the address space is empty. |
| `TableCost.UserTables` | kernel/src/vm.c:82-102 | n pages from address 0 need one middle table and a bottom table for every 512. |
| `TableCost.NewTablesJoin` | kernel/src/vm.c:367-394 | Growing in two steps takes as many tables as growing at once. |
| `Uvm.Uvmalloc` | kernel/src/vm.c:367-394 | Grows exactly when the pages exist, are unmapped and can be paid for with their tables, returns 0 exactly when not even the first can, and stops otherwise. |
| `Uvm.Uvmdealloc` | kernel/src/vm.c:397-407 | Stops exactly when one of as many pages as the difference has bytes, as a 32-bit int, is not mapped; otherwise all of them are released. |
| `ProcPagetable.Uvmcreate` | kernel/src/vm.c:105-115 | A zeroed root from the head of the free list, 0 exactly when it is empty. |
| `ProcPagetable.Uvmfree` | kernel/src/vm.c:119-124 | Runs through exactly when only the pages below sz are mapped, and then returns each of them and every table. |
| `ProcPagetable.ProcPagetable` | kernel/src/proc.c:171-198 | Fails exactly with fewer than three free pages and then takes none; otherwise the trampoline is mapped with R and X, the trapframe with R and W, neither for the user, and nothing else is. |
| `ProcPagetable.ProcFreepagetable` | kernel/src/proc.c:202-207 | Panics exactly when it is told another number of pages than are mapped; otherwise the free set is again the stock the process was made from. |
| `ProcPagetable.Lifecycle` | kernel/src/proc.c:171-207 | Create, grow to sz and free: the free set is what it was; success, failure and the panic are each decided by the number of free pages. |
| `Uvmcopy.Uvmcopy` | kernel/src/vm.c:332-364 | Copies exactly when the parent has every page and all can be paid for; the child's pages are fresh with equal contents and flags; on failure no mapping and no data page is left; the parent is untouched. |
| `ForkMemory.ForkSpace` | kernel/src/proc.c:359-406 | With fork's copy (kernel/src/proc.c:575-628): a child exactly when trapframe, tables and copies can be paid for, and then its pages are copies of the parent's; a panic exactly when the page table was made, the copy cannot be paid for and the slot's stale size is not 0; otherwise the free set is what it was. |
| `ForkMemory.Freeproc` | kernel/src/proc.c:337-353 | After a copy that failed, panics exactly when the size left in the slot is not 0; otherwise everything taken is free again. |
| `UserCopy.UserMem.Copyout` | kernel/src/vm.c:246-267 | Succeeds exactly when the range is mapped, as storing byte after byte; else the mapped part before the first hole is stored. |
| `UserCopy.UserMem.Copyin` | kernel/src/vm.c:270-292 | Succeeds exactly when the range is mapped, and delivers its bytes. |
| `UserCopy.UserMem.Copyinstr` | kernel/src/vm.c:295-329 | Finds the string exactly when it ends within max bytes and is mapped so far. |
| `UserCopy.SetBytesAt` | kernel/src/vm.c:246-267 | On an injective mapping exactly the addressed bytes change. |
| `UserCopy.RoundTripIff` | kernel/src/vm.c:246-292 | copyout then copyin returns every string of n bytes if and only if no two of the addresses share a byte. |
| `ExecLoad.Walkaddr` | kernel/src/vm.c:226-243 | The page of a mapped user address, 0 otherwise; changes nothing. |
| `ExecLoad.WalkaddrIsLookup` | kernel/src/vm.c:226-243 | On the page tables walkaddr is the lookup that the copy loops use. |
| `ExecLoad.Flags2perm` | kernel/src/exec.c:179-189 | The X and W bits of the entry are those of the segment, and no other bit is set. |
| `ExecLoad.PermFlags` | kernel/src/exec.c:179-189 | Pages mapped with these permissions have exactly V, R and U set, X if bit 0 of the header's flags is, and W if bit 1 is. |
| `ExecLoad.Loadseg` | kernel/src/exec.c:191-208 | Inside the image its panic is out of reach; fails exactly on a short read, otherwise every page of the segment was read in and no other page changed. |
| `ExecLoad.Segment` | kernel/src/exec.c:60-97 | For any header fields the outcome is SegmentSpec of the free pages, the header and the file; a loaded segment lies inside the image, is read in over what its pages held, new pages being zero and having the header's permissions, and no other page changes contents or flags. |
| `ExecLoad.LoadSegments` | kernel/src/exec.c:60-97 | The same over all headers: every page holds what the segments read into it one after the other, over zeros, and has the permissions of the first header that reaches it; loadseg never panics and on failure the image is intact. `ExecBytes` says which bytes these are. |
| `ExecLoad.Uvmclear` | kernel/src/vm.c:410-419 | Exactly the user bit of one entry goes; panics exactly where a table is missing. |
| `ExecLoad.StackPages` | kernel/src/exec.c:105-116 | Two more pages exactly when they can be paid for: the lower one closed to the user, the upper one the user's to read and write; all flags below stay. |
| `ExecLoad.ExecImage` | kernel/src/exec.c:19-116 | The image stands with exactly the contents and permissions the segments give it and a zeroed guard and stack page, or exec gives up and the free set is what it was, or uvmalloc stops the kernel, as ExecSpec decides from the free pages, headers and file. |
| `ExecLoad.ReadyForArgs` | kernel/src/exec.c:105-116 | That image is what building the argument stack needs, and the guard page has no translation. |
| `ExecBytes.ReadChunk` | kernel/src/fs.c:442-471 | What loadseg asks of readi is the bytes of the file at that offset, as many as there are. |
| `ExecBytes.ReadableIff` | kernel/src/exec.c:191-208 | loadseg reads a segment in full exactly when the file has all its bytes. |
| `ExecBytes.ImageBytes` | kernel/src/exec.c:60-97 | Every byte of every page is the one that the bytewise definition over all segments gives. |
| `ExecBytes.LastSegmentWins` | kernel/src/exec.c:60-97 | An address holds the byte of the file that the last segment filling it puts there. |
| `ExecBytes.ZeroWhereUnfilled` | kernel/src/exec.c:60-97 | An address that no segment fills, as from filesz to memsz, holds zero. |
| `ExecBytes.ReadyIff` | kernel/src/exec.c:60-116 | exec takes a program if and only if every header to be loaded has memsz at least filesz, ends below 2^64, starts at a page boundary and has its bytes in the file, the first is not empty at address 0, and image, guard page, stack page and tables can be paid for; its size is then the highest end rounded up, plus two pages. |
| `ExecBytes.ExecFile` | kernel/src/exec.c:19-116 | For a file's contents: the image stands exactly under the condition of `ExecBytes.ReadyIff`; then every segment's bytes are in the file, every address below the stack holds the byte of the last segment that fills it or zero, guard and stack page are zero, and every page has its permissions; otherwise as ExecImage. |
| `ExecBytes.SameBytes` | kernel/src/vm.c:226-243 | Where the user may access, the bytes of the page tables' memory are those the copy loops see. |
| `ExecStack.ArgStack` | kernel/src/exec.c:118-143 | Built exactly when all fits in the stack page with fewer than MAXARG arguments; then the 64-bit word at sp + 8j is the address of string j, the word after the last is 0, strings are in place with their terminators, nothing overlaps and nothing else changed; the overrun of ustack has its exact condition. |
| `ExecStack.NoOverlap` | kernel/src/exec.c:118-143 | Each string ends where the one before begins. |
| `ExecStack.FitIff` | kernel/src/exec.c:118-143 | The arguments fit exactly when there are fewer than MAXARG and the strings with their terminators, each rounded up to 16, and the pointers, rounded up to 16, fill no more than a page. |
| `ProcRuns.NextKeeps` | kernel/src/proc.c:244-747 | Every step of every process and CPU, with timer preemption wherever no spin lock is held, keeps the invariants of locks, states and the process tree. |
| `ProcRuns.ParentsAreLive` | kernel/src/proc.c:575-747 | In every run every parent is alive and older, and only init has none. |
| `ProcRuns.NoCycles` | kernel/src/proc.c:575-708 | In every run no process is in a line of its own ancestors. |
| `ProcRuns.OneCpuEach` | kernel/src/proc.c:260-316 | In every run a running process is on exactly one CPU. |
| `ProcRuns.FreedOffStack` | kernel/src/proc.c:337-353 | In every run and whatever the next step, a zombie stays one unless its own parent frees it in wait, and then it has left its CPU and kernel stack for good. |
| `SleepLock.RunMutex` | kernel/src/sleeplock.c:11-27 | In every run the lock's fields, its owner and the sleepers on it agree. |
| `SleepLock.HoldingIsOwning` | kernel/src/sleeplock.c:29-35 | is_holdingsleep is true exactly for the owner. |
| `SleepLock.SleepLockSafety` | kernel/src/sleeplock.c:11-35 | In every run at most one process holds the lock, and while it and its inner lock are free nobody is asleep on it or about to be. |
| `SleepLock.OwnedFromTo` | kernel/src/sleeplock.c:11-27 | In every run acquiresleep comes to its end only for the owner; the lock gets an owner only when it has none, in that process's acquiresleep, and loses it only in its owner's releasesleep. |
| `WaitExit.RunWaits` | kernel/src/proc.c:664-747 | In every run, what wait has seen and what exit has woken agree at every point of both. |
| `WaitExit.NoMissedExit` | kernel/src/proc.c:664-747 | In every run, while wait_lock is free, nobody asleep in wait has a zombie child. |
| `WaitEnds.WaitCounts` | kernel/src/proc.c:710-738 | In every run the scan of wait knows a child exactly if some slot it has passed holds one, and at its end exactly if there is one. |
| `WaitEnds.SleepsWithChild` | kernel/src/proc.c:740-745 | In every run a process goes to sleep in wait only with a child, and with no child that is a zombie. |
| `WaitEnds.ReturnsOnlyDone` | kernel/src/proc.c:720-743 | In every run a process comes to the end of wait only without a child, by freeing a zombie child, because it was killed, or because the status could not be copied out. |
| `ForkEnds.NoSlotSeen` | kernel/src/proc.c:359-406 | In every run fork gives up its search for a slot only after it held every slot and found it in use. |
| `ForkEnds.ReturnsChild` | kernel/src/proc.c:575-628 | In every run, once it has a slot, fork returns with a child of its own that is ready to run, has not run and is younger, unless building it failed. |
| `Adoption.OnlyInitAdopts` | kernel/src/proc.c:575-747 | In every run a process gets a parent only from the fork that makes it, changes it only to init, when the parent exits, and loses it only when that parent reaps it as a zombie. |
| `YieldEnds.GoesOnThere` | kernel/src/proc.c:244-251 | In every run a preempted process goes on, after yield, at the very point where it was interrupted. |
| `YieldEnds.GivesUpCpu` | kernel/src/proc.c:260-277 | In every run sched finds the process asleep, ended or ready as its caller left it, takes it off its CPU and hands its lock to the scheduler there. |
| `YieldEnds.PreemptIff` | kernel/src/trap.c:165-168 | The timer may interrupt a process exactly where it holds no lock and is not already in yield. |
| `Virtq.ThreeIff` | kernel/src/virtio_disk.c:70-81 | Three different descriptors exactly when three are free. |
| `Virtq.FreesThree` | kernel/src/virtio_disk.c:84-98 | free_chain on a request ends and frees exactly its three descriptors. |
| `VirtqSafety.QueueSafety` | kernel/src/virtio_disk.c:192-288 | In every state of every run free descriptors and three per request make up the queue, each request has three descriptors, and no two share a descriptor or a buffer. |
| `VirtqSafety.NoPanic` | kernel/src/virtio_disk.c:192-288 | In every run driver and device can always do what the rings ask of them; no panic is reached. |
| `VirtqSafety.OnlyCompleted` | kernel/src/virtio_disk.c:264-288 | The interrupt clears the flag of one buffer, that of a completed request. |
| `VirtqSafety.CompletesAsAsked` | kernel/src/virtio_disk.c:192-262 | A read leaves the block in the buffer, a write the buffer in the block, and nothing else changes. |
| `VirtqSafety.ReturnsServed` | kernel/src/virtio_disk.c:192-262 | virtio_disk_rw returns only after its own request was served, with the data of that moment. |
| `VirtioDisk.Memdisk.constructor` | kernel/src/virtio_disk.c:100-189 | All descriptors free and cleared, both indices 0. |
| `VirtioDisk.Memdisk.AllocDesc` | kernel/src/virtio_disk.c:43-52 | Takes the first free descriptor, none exactly when there is none. |
| `VirtioDisk.Memdisk.FreeDesc` | kernel/src/virtio_disk.c:55-67 | Panics exactly out of range or on a free one, else frees and clears it. |
| `VirtioDisk.Memdisk.Alloc3Desc` | kernel/src/virtio_disk.c:70-81 | Takes the three the function picks, or leaves the free map as it was. |
| `VirtioDisk.Memdisk.FreeChainFrom` | kernel/src/virtio_disk.c:84-98 | Follows the chain, ends and panics as the function on values does. |
| `VirtioDisk.Memdisk.Post` | kernel/src/virtio_disk.c:208-249 | Filling the three descriptors and the ring is the step Post of the protocol. |
| `VirtioDisk.Memdisk.Finish` | kernel/src/virtio_disk.c:251-262 | Returning the descriptors is the step Recycle of the protocol. |
| `VirtioDisk.Intr` | kernel/src/virtio_disk.c:264-288 | As many acknowledgements as the device's index is ahead, modulo 2^16. |
| `Pipe.FullOrEmpty` | kernel/src/pipe.c:85-138 | The wrapping 32-bit counters say full and empty exactly when the pipe is. |
| `Pipe.PipeBuf.Write` | kernel/src/pipe.c:85-111 | Adds exactly the stretch of the source that fits and can be copied, sleeps exactly when the pipe is full before the end, fails exactly without reader or when killed. |
| `Pipe.PipeBuf.ReadBytes` | kernel/src/pipe.c:113-138 | Delivers exactly as many of the oldest bytes as are asked for, there and can be copied; waits exactly on an empty pipe with a writer; loses one byte exactly when one more is there and asked for than can be copied. |
| `Pipe.InOrder` | kernel/src/pipe.c:85-138 | Over any reads and writes, what comes out is a prefix of what went in, at most 512 bytes behind. |
| `Console.Cons.Consoleintr` | kernel/src/console.c:95-134 | A key does to committed input and edited line what Key says: kill, erase, append or commit. |
| `Console.Cons.Consoleread` | kernel/src/console.c:33-79 | Delivers the next committed characters in order until there are enough or a line ends, stops earlier only at a control-D or a failed copy, and waits exactly when none is left; what is lost or put back is exact. |
| `ConsoleRuns.InputIsWhatSurvived` | kernel/src/console.c:33-134 | Over any run the committed input is, in order, exactly the presses that were typed, not erased and committed. |
| `ConsoleRuns.ErasedNeverDelivered` | kernel/src/console.c:95-134 | A press that was erased is never delivered later. |
| `ConsoleRuns.NoneLost` | kernel/src/console.c:95-134 | Every press that went in is delivered, still on the line, or erased by a later key. |
| `ConsoleRuns.NeverAltered` | kernel/src/console.c:33-134 | Committed input only grows; what was read stays what it was. |

## Left out

- Log.WriteAheadLog.Commit: stated with no buffer held by another process; commits beside running readers are the steps of `Storage`, where a step that finds no buffer is not enabled.
- Log.WriteAheadLog.EndOp: the last operation ends with no buffer held by another process, as for Commit.
- Log.WriteAheadLog.LogWrite: the block is outside the log area, as every caller's is.
- GroupCommit.LogNeverOverflows: the log is assumed longer than its 30 slots, as the boot code passes it.
- StorageRefinement.Refines: one device; the disk writes a block at a time and completely, and commits make progress only by being scheduled.
- Bio.Bcache.Bget: the buffers' sleep locks, of which bwrite and brelse only learn whether the caller holds one; `Bcache` is not connected to `WriteAheadLog`, which works on the same cache as a value.
- FsBlocks.Fs.Balloc: the bitmap buffer that the source keeps when every bit of its block is set.
- FsFiles.Writei: a source in user memory whose copy fails half way; the file system works on the logical disk of one transaction, its reads and writes are not tied step by step to `Storage`.
- FsTrunc.Iput: reference counts and the valid flag are parameters; the inode table, `iget`, `ilock` and the locks of inodes are left out.
- Namex.Namex: the references that namex takes and drops on the way, and the inodes that dropping the last one frees.
- LinkOps.Link: no link count wraps at 2^15; the references to both inodes.
- LinkOps.Unlink: the path's directory was found; the references to the removed inode are a parameter.
- LinkOps.Create: the path's directory was found; no link count wraps at 2^15.
- LogBudget.CallsNeverOverflow: an operation is one of these calls; what dropping a last reference frees besides is not counted, and filewrite, which passes its whole length to writei and never ends the operation, is left out.
- MkfsMain.MakeImage: what becomes of the image after inode 200 was handed out; the superblock's fixed layout with a one-block bitmap; reading the host's files and the path prefix of their names.
- Unmap.Uvmunmap: with do_free the pages up to the first unmapped one are owned once, as a process's are.
- Mappages.Mappages: what a range past MAXVA does is stated per page; wrap-around of the 64-bit range is left out.
- Uvm.Uvmalloc: nothing is mapped above the old size, as in every process; sizes that wrap at 2^64 are left out.
- Uvmcopy.Uvmcopy: the child has nothing mapped below the size, as in fork.
- ProcPagetable.Lifecycle: trampoline and trapframe are not on the free list.
- ExecLoad.Loadseg: a segment outside the image, where it panics; exec never passes one.
- ExecLoad.ExecImage: reading and checking the ELF header, path lookup and the locks of the file's inode; what readi does to each page is a parameter here and the file's bytes in `ExecBytes`.
- ExecBytes.ExecFile: the file's contents are a value; that readi delivers them is `ExecBytes.ReadChunk`.
- ForkMemory.ForkSpace: the registers, open files, name and working directory that fork copies.
- ExecStack.ArgStack: strings shorter than 2^63 bytes; the commit to the new image, the trapframe and the process's name.
- ProcRuns.NextKeeps: steps between two lock operations are merged, memory is sequentially consistent, pids do not wrap, a fork that fails always frees its slot, the panic of freeproc being `ForkMemory.ForkSpace`, the timer interrupts only between modelled steps, in kernel code too, where the source does not yield, one sleep lock is modelled besides wait_lock and the process locks, and device wakeups come from outside.
- SleepLock.SleepLockSafety: what the lock protects.
- WaitEnds.ReturnsOnlyDone: the pid or -1 that wait hands back, and the exit status.
- ForkEnds.ReturnsChild: the pid that fork hands back.
- WaitExit.NoMissedExit: the killed flag itself; wait may return early at the point where it tests it, and kill is a wakeup under the process lock.
- VirtqSafety.ReturnsServed: negotiation with the device, device errors and memory barriers.
- Pipe.PipeBuf.Write: closing an end while the other sleeps, and allocation of pipes.
- Console.Cons.Consoleintr: echo to the UART and the process listing on control-P.
- Spin locks: nesting of interrupt disabling and the checks for holding a lock twice.
- Traps, system call dispatch, argument fetching, timer and PLIC: they would add members that only restate assignments.
- The file table, `sys_open`, `sys_read` and the other thin system calls around the operations above.
- printf, the UART driver, string routines besides strncpy and strncmp, and the user programs.
