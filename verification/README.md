# Kernel, allocator, shell and server models

This project models the parts of the repository whose correctness rests on whole-structure invariants
and proves those invariants, together with what they buy, in Dafny. `dafny verify dfyconfig.toml` checks
all of it. Each group of modules follows one group of C files; an upper layer uses the contract of the
layer below. `Counting` and `Options` hold what several groups need.

* **File system** (`Bytes`, `FsLayout`, `FsInv`, `FsSpace`, `FsTrunc`, `FsFile`, `FsMkfs`, `FsDir`).
  `fs.c` on a bitmap-allocated disk and the image builder `mkfs.c`. The ghost map `own` says which inode
  slot holds each data block; `FsInv.Inv` says that the bitmap marks exactly the metadata and the owned
  blocks, that no block has two owners, that every free data block is zero, and that block 1 is the
  superblock with the geometry in use. On top of it hole-free files are byte sequences, and directories
  are maps from names to inode numbers (`FsDir.Entries`). Every operation on one file keeps all the others
  hole-free and as they are (`FilesOk`, `OthersKept`), so operations on any files chain: `FsMkfs.TwoFiles`
  takes two files from `mkfs` through the mounted kernel. The conditions on free space are exact: an
  operation succeeds if and only if a free block below `sb.size` is left for each block it needs, because
  `balloc` goes on searching past `sb.size` when none is.
* **Path names and references** (`FsPath`, `FsLinks`, `FsTree`, `SysRefs`, `Sysfile`, `SysCalls`,
  `SysPaths`, `SysLinks`, `SysAstray`). `namex` and the system calls of `sysfile.c`, on the tree of inodes
  that the disk is: `FsTree` gives that tree from the bytes and proves that `dirlookup`, `dirlink`,
  unlink's writes and the freeing of an inode are looking up, entering, unlinking and removing in it. What
  a call holds is kept apart from what descriptors, open files and working directories hold; a call that
  returns, on whatever path, holds nothing and has nothing locked, and every `ref` is the number of its
  holders. What descriptors and working directories hold stays the inode that it was. The tree of inodes
  after a call is the one its C code describes, except that inodes without links may be gone
  (`FsPath.Shrunk`): dropping the last reference to one frees it, and nothing else ever does. A call may
  also panic or wait. It waits only when somebody else has an inode locked, or, in `unlink`, for itself,
  when the name's entry leads to its own directory (`SelfNamed`). It panics only when all but at most two
  slots of the inode cache are in use by others (`Crowded`), no inode is free, or the tree is not `Sound`:
  an entry names a free inode or one without links. Every call that returns keeps `FsLinks.Links` (link
  counts cover the names and the subdirectories), and all but `unlink` keep `Sound` with it; `unlink`
  keeps it exactly unless a directory that is still there, because somebody is in it or has it open, has
  ".." leading to an inode that has lost its last link. The first process is set up by `SysLinks.Boot`,
  from which all calls can be made.
* **Buffer cache and disk queue** (`BufProto`, `BufSteps`, `BufTheorems`, `BufList`). Processes and the
  disk interrupt interleave step by step; all theorems are about every run. A process of the protocol is
  one use of a buffer, from `bread` to `brelse`; code that holds several buffers at once is several of
  them, so its interleavings are among the runs. `BufList` is the same cache and queue as linked lists.
* **Process table, spinlocks, sleep and wakeup** (`Sched*`). A step protocol over any number of CPUs in
  which `ptable.lock` is taken in one context and released in another. `SchedCalls` says which call each
  context is in and what each call does to the table; `SchedHistory` tells from the calls of a run alone who
  is asleep, who is killed and whose child each process is. `SchedTable` is the table with its scanning loops.
* **Pipes** (`PipeRing`, `Pipe`, `PipeProto`, `PipeTheorems`, `PipeCode`, `PipeCalls`). The ring with wrapping
  counters, the loops of `pipewrite` and `piperead`, the protocol of readers, writers and closers, the proof
  that the loops are its steps, and what the calls of a run come to.
* **Allocators** (`FreeList`, `Umalloc`; `MemTiles`, `MemLists`, `MemCoalesce`, `MemRegion`; `VmPages`,
  `Vm`). The circular list of `umalloc.c`, the header-tiled region of `mem.c`, and page tables over the
  page pool.
* **Web server** (`ServerHeap`, `ServerMonitor`, `ServerRequests`). The array heap, the master and its
  workers, and each request's way from the master to the worker that handles it.
* **Text** (`Grep`; `ShLex`, `ShParse`, `ShGrammar`, `ShPrint`, `Sh`). The matcher against the language of
  its patterns; the shell's parser against a grammar and against printing, and its NUL terminators.

Theorems about a protocol are told from the steps of its runs: the sector of a `bread`, the bytes of a
write, the channel of a `wakeup`, the connection that a worker took are those of the call or step that named
them, whatever the protocol's states carry along.

Code that works by updating state is a class or a method with loops; step protocols, and parsers or
matchers that are recursive, are functions and predicates. A spinlock-protected stretch that no other
process can observe is one step of a protocol unless its parts matter.

Six promises of the code are false as they stand. For each there is the exact condition:

* a reader comes to sleep on a pipe that has bytes, or no writer any more, exactly in the step in which a
  killed writer leaves `pipewrite` through its `-1` return after storing bytes, with the read side open and
  a reader asleep (`PipeTheorems.MissedExactlyByBadQuit`, `BadQuitBefore`, `LapseLeavesAReaderAsleep`, and
  the run `ReaderCanMissAFullPipe`);
* a process may be killed from its birth although no `kill` ever named it: `kill` also finds slots that are
  not in use, by pid 0 or by the pid a failed fork leaves behind, and marks them. A process is marked by kills
  of its own alone if and only if its slot was unmarked when it was given out
  (`SchedHistory.KilledExactly`, the run `BornKilled`);
* `malloc`'s rounding wraps for the largest requests and returns a block without payload
  (`Umalloc.UnitsSuffice`, the call in `RoundingWraps`), and `sbrk`'s argument overflows its `int` (outcome
  `OutOfRange`, the call in `SbrkOverflows`);
* `Mem_Alloc` takes a negative rounded request for a fit and cuts a chunk inside its own header exactly
  when the size less request and header lies in 1 .. 2^31 - 1 (`MemRegion.CarvedTilesExactly`, the requests
  in `NegativeRequests`); two of its policies read through a null list head exactly when no chunk is free
  (`Bestfit`, `Worstfit`, the calls in `NullHeadIsRead`);
* a path may lead to a free inode, at which `ilock` panics: never before an `unlink` that leaves a directory
  in use astray, and exactly such an `unlink` makes the tree unsound (`FsLinks.HealthyUnlinked`,
  `SysLinks.SysUnlink`); one process alone gets there in six calls (`SysAstray.DotDotPanics`);
* `mkfs` counts one link for each inode: enough exactly when no directory has a subdirectory
  (`FsLinks.MkfsLinks`, the tree in `NestedMiscounts`). Its rounding of a directory's size leaves a hole
  exactly for sizes that are multiples of 512 (`FsMkfs.RoundingLeavesHole`, the image in `FullDirectory`); such
  directories are outside the hole-free files.

## Model

| member | source | states |
|---|---|---|
| `FsInv.InvMeans` | P4/kernel/xv6/kernel/fs.c:53-97 | in a consistent state the bitmap marks exactly the metadata blocks and the blocks held by exactly one inode slot, and every free data block is zero |
| `FsInv.TakeDirect` | P4/kernel/xv6/kernel/fs.c:53-76 | storing balloc's block in a direct slot, or as the indirect block, keeps consistency; a fresh uncleared indirect block reads as an empty table |
| `FsInv.TakeEntry` | P4/kernel/xv6/kernel/fs.c:334-344 | storing balloc's block in an entry of the indirect block keeps consistency and the bytes of every file |
| `FsInv.FreeDirect` | P4/kernel/xv6/kernel/fs.c:79-97 | bfree, zeroing before the bit is cleared, gives back a direct block, or an empty indirect block, and keeps consistency |
| `FsInv.FreeEntry` | P4/kernel/xv6/kernel/fs.c:362-377 | bfree of a block in the indirect table keeps consistency |
| `FsSpace.FreeBlockExists` | P4/kernel/xv6/kernel/fs.c:53-76 | a free block below sb.size exists exactly when the count of unowned data blocks is positive |
| `FsSpace.WriteStep` | P4/kernel/xv6/kernel/fs.c:437-443 | one turn of writei's loop adds exactly its chunk to what is written and no other byte of any file changes |
| `FsSpace.WrittenEnd` | P4/kernel/xv6/kernel/fs.c:422-451 | when all bytes are written the file is its old contents spliced with them |
| `FsTrunc.BlocksOwned` | P4/kernel/xv6/kernel/fs.c:353-380 | a hole-free file owns exactly the data blocks of its size, and the indirect block when it has more than twelve |
| `FsTrunc.KeptOthers` | P4/kernel/xv6/kernel/fs.c:319-380 | whatever changes the blocks, bytes and inode of one file only leaves every other hole-free file hole-free and the same |
| `FsLayout.ReadsbBack` | P5/xv6/tools/mkfs.c:74-90 | the superblock that mkfs writes to block 1 is read back by readsb |
| `FsFile.FileSystem.Mount` | P4/kernel/xv6/kernel/fs.c:29-36 | the geometry that readsb finds in block 1 of a consistent image is the one the image was built with, so the mounted file system is consistent |
| `FsFile.FileSystem.Balloc` | P4/kernel/xv6/kernel/fs.c:53-76 | the first clear bit in disk order is set and its block returned, whether or not that block is below sb.size; the panic comes exactly when none is clear |
| `FsFile.FileSystem.Bfree` | P4/kernel/xv6/kernel/fs.c:79-97 | the block is zeroed and its bit cleared; the panic comes exactly for a free block |
| `FsFile.FileSystem.TakeBlock` | P4/kernel/xv6/kernel/fs.c:53-76 | in a consistent state balloc returns an unowned data block below sb.size exactly when there is one |
| `FsFile.FileSystem.Bmap` | P4/kernel/xv6/kernel/fs.c:319-347 | the block of file block bn, allocating it and the indirect block where needed, succeeds exactly when as many free blocks are left, and no byte of any file changes |
| `FsFile.FileSystem.BmapDirect` | P4/kernel/xv6/kernel/fs.c:324-328 | a direct slot, or the pointer to the indirect block, is filled if empty; no other slot changes |
| `FsFile.FileSystem.BmapIndirect` | P4/kernel/xv6/kernel/fs.c:329-344 | the indirect block and the entry take one block each if missing |
| `FsFile.FileSystem.BmapEntry` | P4/kernel/xv6/kernel/fs.c:337-343 | an entry of the indirect block is filled if empty; no other slot changes |
| `FsFile.FileSystem.Writei` | P4/kernel/xv6/kernel/fs.c:421-451 | min(n, MAXFILE*BSIZE - off) bytes are spliced at off; every other file keeps its inode, blocks and contents and stays hole-free; it fails for want of blocks exactly when fewer are free than the growth needs |
| `FsFile.FileSystem.WriteChunk` | P4/kernel/xv6/kernel/fs.c:437-443 | one turn of writei's loop |
| `FsFile.FileSystem.Readi` | P4/kernel/xv6/kernel/fs.c:395-418 | exactly the slice of the file's bytes at off, clipped to its end, and nothing changes |
| `FsFile.FileSystem.Itrunc` | P4/kernel/xv6/kernel/fs.c:353-380 | the blocks given back are exactly those the file held, every other file keeps its inode and contents and stays hole-free, and the panic "freeing free block" is unreachable |
| `FsFile.FileSystem.TruncDirect` | P4/kernel/xv6/kernel/fs.c:359-364 | the direct blocks are given back one by one |
| `FsFile.FileSystem.TruncIndirect` | P4/kernel/xv6/kernel/fs.c:366-376 | the entries of the indirect block and then the block itself are given back |
| `FsMkfs.Image.constructor` | P5/xv6/tools/mkfs.c:68-95 | a new image is consistent: zero sectors but for the superblock, from which readsb gets the geometry back, the metadata blocks counted as used, and every inode an empty hole-free file |
| `FsMkfs.Image.Ialloc` | P5/xv6/tools/mkfs.c:297-308 | inode numbers are given out in order from 1, each with an empty hole-free file, until none is left |
| `FsMkfs.Image.MapBlock` | P5/xv6/tools/mkfs.c:343-363 | a file block missing from the inode comes from the next free block number, so that blocks stay disjoint |
| `FsMkfs.Image.Iappend` | P5/xv6/tools/mkfs.c:328-375 | the bytes are appended to the file, every other file keeps its inode, blocks and contents and stays hole-free, and it succeeds exactly when enough block numbers are left |
| `FsMkfs.Image.Balloc` | P5/xv6/tools/mkfs.c:311-324 | the final bitmap marks exactly the blocks used, which makes the disk that the kernel mounts consistent |
| `FsMkfs.BootAndRead` | P5/xv6/tools/mkfs.c:328-375 | what was laid down by iappend is what the kernel's readi returns after mounting the image, which can be done exactly when the used blocks fit one bitmap sector |
| `FsMkfs.TwoFiles` | P5/xv6/tools/mkfs.c:328-375 | mkfs appends to two files, the kernel mounts the image, writes to one and reads both: one is as mkfs left it, the other spliced; the whole chain succeeds exactly when sizes, block numbers and bitmap sector suffice |
| `FsMkfs.RoundingLeavesHole` | P5/xv6/tools/mkfs.c:188-193 | rounding a directory's size up keeps it hole-free if and only if the size was not a multiple of the block size |
| `FsMkfs.FixSize` | P5/xv6/tools/mkfs.c:188-193 | add_dir's last lines leave a consistent image, with the directory hole-free exactly off multiples of the block size |
| `FsMkfs.FullDirectory` | P5/xv6/tools/mkfs.c:188-193 | from a new image: a directory whose entries fill one block has a hole afterwards |
| `FsDir.NamecmpIsStringEquality` | P4/kernel/xv6/kernel/fs.c:456-459 | comparing two 14-byte name buffers compares the C strings in them |
| `FsDir.LookupIsMap` | P4/kernel/xv6/kernel/fs.c:464-493 | a directory's bytes are the map Entries from C strings to inode numbers: lookup finds exactly what the map has |
| `FsDir.LinkUpdatesMap` | P4/kernel/xv6/kernel/fs.c:496-523 | writing an entry for a new name maps that name to its inode number and changes no other lookup |
| `FsDir.LinkedInMap` | P4/kernel/xv6/kernel/fs.c:496-523 | what Dirlink does to the bytes adds one entry to the map |
| `FsDir.UnlinkUpdatesMap` | P4/kernel/xv6/kernel/sysfile.c:198-200 | zeroing the entry found removes that name and changes no other lookup |
| `FsDir.UnlinkedFromMap` | P4/kernel/xv6/kernel/sysfile.c:198-200 | what unlink's write does to the bytes takes one entry out of the map |
| `FsDir.PaddingHoldsNoEntry` | P4/kernel/xv6/kernel/fs.c:464-493 | scanning past the end of the directory to the end of its last block finds nothing more |
| `FsDir.Dirlookup` | P4/kernel/xv6/kernel/fs.c:464-493 | the search over whole blocks finds the entry that the directory's bytes have for the name, or none, and changes nothing |
| `FsDir.Dirlink` | P4/kernel/xv6/kernel/fs.c:496-523 | an existing name is refused; a new one is written at the first free place, and the lookups change for that name alone; it panics exactly off directories, or when the entry would grow the directory past the largest file or the blocks left |
| `FsDir.FindFree` | P4/kernel/xv6/kernel/fs.c:508-513 | the offset of the first free entry, or the end of the directory |
| `FsDir.ClearEntry` | P4/kernel/xv6/kernel/sysfile.c:198-200 | unlink's write puts zeroes over the entry: the name is absent, every other lookup and every other file is as before, and no block is needed |
| `FsDir.Isdirempty` | P4/kernel/xv6/kernel/sysfile.c:149-162 | the loop tells whether all entries from the third on are free, and changes nothing |
| `FsDir.EmptyMeansOnlyDots` | P4/kernel/xv6/kernel/sysfile.c:148-162 | in a directory that starts with "." and ".." that is so if and only if the map has no other names |
| `FsTree.OneNode` | P4/kernel/xv6/kernel/fs.c:319-451 | an operation on one inode's blocks changes that node of the tree alone |
| `FsTree.Find` | P4/kernel/xv6/kernel/fs.c:464-493 | dirlookup on the bytes is looking the name up in the tree |
| `FsTree.Enter` | P4/kernel/xv6/kernel/fs.c:496-523 | dirlink on the bytes is Entered, and is refused exactly when the tree has the name |
| `FsTree.Erase` | P4/kernel/xv6/kernel/sysfile.c:198-200 | unlink's write takes that name out of the node and leaves the rest of the tree |
| `FsTree.CountDown` | P4/kernel/xv6/kernel/sysfile.c:207-208 | one link less, on disk, is Relinked |
| `FsTree.Unlink` | P4/kernel/xv6/kernel/sysfile.c:198-208 | unlink's writes together are Unlinked |
| `FsTree.Remove` | P4/kernel/xv6/kernel/fs.c:290-292 | itrunc and the cleared type take the inode out of the tree |
| `FsPath.Skipelem` | P4/kernel/xv6/kernel/fs.c:539-562 | the loops compute SkipElem |
| `FsPath.SkipelemIsHead` | P4/kernel/xv6/kernel/fs.c:526-562 | skipelem takes the first of the non-empty, 14-byte-truncated pieces between slashes and leaves the path of the others, empty exactly after the last |
| `FsLinks.SoundMeans` | P4/kernel/xv6/kernel/fs.c:236-265 | with link counts in order the tree is unsound exactly by directories that no name leads to and whose ".." leads to a free or unlinked inode |
| `FsLinks.HealthyShrunk` | P4/kernel/xv6/kernel/fs.c:281-300 | freeing inodes without links keeps the counts and the soundness |
| `FsLinks.HealthyCreated` | P4/kernel/xv6/kernel/sysfile.c:231-254 | so does creating a file, a device or a directory |
| `FsLinks.HealthyEntered` | P4/kernel/xv6/kernel/sysfile.c:110-146 | so does a new link to a file |
| `FsLinks.HealthyUnlinked` | P4/kernel/xv6/kernel/sysfile.c:164-211 | unlink keeps the counts, and the soundness exactly unless a directory still there has ".." leading to an inode that loses its last link |
| `FsLinks.MkfsLinks` | P5/xv6/tools/mkfs.c:297-308 | one link for each inode, as mkfs counts, covers the links exactly when no directory has a subdirectory |
| `FsLinks.NestedMiscounts` | P5/xv6/tools/mkfs.c:164-166 | a root with one directory in it is miscounted |
| `SysRefs.HandedOver` | P5/xv6/kernel/file.c:60-71 | closing a file for the last time turns the file's inode reference into one of the call |
| `SysRefs.LastIsMine` | P4/kernel/xv6/kernel/fs.c:281-300 | an inode whose only reference is the call's is locked by nobody, so the panic "iput busy" is unreachable |
| `SysRefs.Sys.HereIs` | P4/kernel/xv6/kernel/fs.c:191-222 | the slot of the working directory stays the inode that it was when it was set |
| `SysRefs.Sys.OnlyMine` | P4/kernel/xv6/kernel/fs.c:281-300 | the call has the only reference to its inode exactly when no file, directory or other call holds that inode |
| `SysRefs.Sys.Filealloc` | P5/xv6/kernel/file.c:21-36 | the first file with ref 0 becomes the call's; none is given exactly when all are in use |
| `SysRefs.Sys.Filedup` | P5/xv6/kernel/file.c:39-48 | one more reference, counted for its holder |
| `SysRefs.Sys.Fileclose` | P5/xv6/kernel/file.c:51-72 | one reference of the call is dropped; with the last one the file is free and its inode reference dropped too, and the inode leaves the disk exactly if that was the last reference and it has no links; all counts stay exact |
| `SysRefs.Sys.Iget` | P4/kernel/xv6/kernel/fs.c:191-222 | a cached inode gains a reference, an uncached one takes an unused slot; no inode is cached twice; the panic comes exactly when the inode is not cached and every slot is in use |
| `SysRefs.Sys.Idup` | P4/kernel/xv6/kernel/fs.c:227-233 | one more reference, counted for the call |
| `SysRefs.Sys.Ilock` | P4/kernel/xv6/kernel/fs.c:236-265 | it waits exactly for a locked inode, panics exactly for one that is free on disk, and otherwise holds the lock with the inode read in |
| `SysRefs.Sys.Iunlock` | P4/kernel/xv6/kernel/fs.c:268-278 | the call's lock is given up |
| `SysRefs.Sys.Iput` | P4/kernel/xv6/kernel/fs.c:281-300 | one reference is dropped; the inode is freed exactly if it was the last, the inode is read in and it has no links; no panic |
| `Sysfile.Resolve` | P4/kernel/xv6/kernel/fs.c:576-594 | one turn of namex's loop is one step of the walk over the path's elements |
| `Sysfile.Turn` | P4/kernel/xv6/kernel/fs.c:576-594 | one turn of namex's loop trades the reference to the current inode for one to the next, or gives it up; only unlinked inodes may go; it waits only for another's lock and panics only in a crowded cache or for a free inode |
| `Sysfile.Namex` | P4/kernel/xv6/kernel/fs.c:567-600 | namex is the fold of directory lookup over the path's elements (for nameiparent, over all but the last); it nets one reference on success, none on failure, and no lock; only unlinked inodes may go; the causes of a wait or a panic are stated |
| `SysCalls.Fdalloc` | P4/kernel/xv6/kernel/sysfile.c:33-45 | the lowest free descriptor, or -1 exactly when there is none |
| `SysCalls.SysDup` | P4/kernel/xv6/kernel/sysfile.c:47-59 | the lowest free descriptor for the same file, or -1 exactly for a bad descriptor or a full table, and then nothing changes; every ref is the number of its holders |
| `SysCalls.SysClose` | P4/kernel/xv6/kernel/sysfile.c:85-96 | the descriptor is cleared and its file's reference dropped; -1 exactly for a bad descriptor; the tree afterwards is exact: an inode goes if its last reference was this file's and it has no links; counts and soundness of the tree stay |
| `SysCalls.SysPipe` | P4/kernel/xv6/kernel/sysfile.c:370-392 | two new descriptors for the two ends of a pipe exactly when a page, two files and two descriptors are free; otherwise no descriptor and no reference at all; the tree is unchanged on every path |
| `SysCalls.Pipealloc` | P5/xv6/kernel/pipe.c:21-55 | both ends of a pipe, held by the call, exactly when a page and two files are free; otherwise nothing held; the tree is unchanged |
| `SysPaths.Dirlink` | P4/kernel/xv6/kernel/fs.c:496-523 | an existing name is refused with its reference dropped, and only an unlinked inode may go; a new one is entered and nothing else changes |
| `SysPaths.Ialloc` | P4/kernel/xv6/kernel/fs.c:146-168 | the lowest free inode number is allocated and referenced; the panic comes exactly when there is none, or when that inode is not cached and every slot is in use |
| `SysPaths.Create` | P4/kernel/xv6/kernel/sysfile.c:213-255 | the locked inode of an existing file, or a new one with the lowest free number entered under the path's last element, with "." and ".." and the link counts for a directory; it fails exactly where the parent or a fitting file is missing, with nothing held and nothing made; the causes of a wait or a panic are stated |
| `SysPaths.CreateIn` | P4/kernel/xv6/kernel/sysfile.c:222-254 | create from the locked parent on: an existing name or a new inode |
| `SysPaths.Existing` | P4/kernel/xv6/kernel/sysfile.c:222-229 | create on an existing name returns it exactly when a file was asked for and a file is there; it panics only for a free inode or one without links |
| `SysPaths.Fresh` | P4/kernel/xv6/kernel/sysfile.c:231-254 | create on a new name makes the inode with the lowest free number, its first entries and its name, and lets the directory go; all that has links stays |
| `SysPaths.SysMknod` | P4/kernel/xv6/kernel/sysfile.c:296-323 | mkdir and mknod: what create makes stays in the tree, a failure makes nothing and removes nothing linked; the call holds nothing, and counts and soundness of the tree stay |
| `SysPaths.SysOpen` | P4/kernel/xv6/kernel/sysfile.c:257-294 | it succeeds exactly when the path names a file or device, a directory read-only, or with O_CREATE a file that is there or can be made, and a file and a descriptor are free; the lowest descriptor then opens that inode; a failure changes no descriptor and gives everything back, but what O_CREATE made stays; it never returns from a path that leads to a free inode; counts and soundness of the tree stay, and so does the inode of all that was held |
| `SysPaths.OpenThere` | P4/kernel/xv6/kernel/sysfile.c:270-278 | open without O_CREATE finds the inode and refuses exactly a missing path, or a directory for anything but reading |
| `SysLinks.Userinit` | P5/xv6/kernel/proc.c:98 | the first process's working directory becomes the root, with one counted reference; it never waits, and panics only in a crowded cache |
| `SysLinks.Boot` | P5/xv6/kernel/proc.c:76-102 | from the tables at boot there is a process in the root that holds nothing else and has nothing open, without a panic: every call's requirement is met |
| `SysLinks.SysChdir` | P4/kernel/xv6/kernel/sysfile.c:325-342 | the working directory changes exactly when the path leads to a directory, and is then that directory; the old one's reference is dropped; all that has links stays, with counts and soundness |
| `SysLinks.SysLink` | P4/kernel/xv6/kernel/sysfile.c:110-146 | it succeeds exactly for a non-directory and a new name in an existing directory; the link is counted and entered and stays so, or the count is taken back; no reference or lock is left; counts and soundness of the tree stay |
| `SysLinks.SysUnlink` | P4/kernel/xv6/kernel/sysfile.c:164-211 | it succeeds exactly for a name other than "." and ".." that is there and is not a non-empty directory; the name goes, both link counts follow, all that still has links stays, and the inode goes exactly with its last link and nobody holding it; the tree stays sound exactly unless a directory is left astray; it never returns where the entry names its own directory, and waits for itself there only |
| `SysLinks.UnlinkFrom` | P4/kernel/xv6/kernel/sysfile.c:171-210 | unlink from the locked parent on, with the tests of the name and of the inode found; it waits, always, where the entry names its own directory |
| `SysLinks.UnlinkIn` | P4/kernel/xv6/kernel/sysfile.c:181-210 | unlink from the lock on the inode found, both locks given back on every path; all that still has links stays |
| `SysLinks.EraseName` | P4/kernel/xv6/kernel/sysfile.c:198-209 | the entry erased, the links counted down and both inodes let go is Unlinked, and the inode goes exactly with its last link and nobody holding it |
| `SysLinks.Fork` | P5/xv6/kernel/proc.c:149-152 | the child holds each open file and the working directory once more, and every count says so |
| `SysLinks.Exit` | P5/xv6/kernel/proc.c:174-183 | an exiting process holds no file and no directory any more, every count says so, and only unlinked inodes go, with counts and soundness of the tree kept |
| `SysAstray.DotDotPanics` | P4/kernel/xv6/kernel/sysfile.c:164-211 | from an empty root, one process makes a and a/b, enters a/b, unlinks /a/b and /a and opens "..": the kernel panics |
| `SysAstray.WellUntilThen` | P4/kernel/xv6/kernel/sysfile.c:164-211 | the empty root of that run is in order, and the second unlink leaves the tree astray |
| `BufTheorems.BreadReturnsLastWrite` | P5/xv6/kernel/bio.c:96-105 | in every run the buffer a process uses is that of the sector its last bread asked for; its data is what the process stored since, or else what was last bwritten to that sector |
| `BufTheorems.DiskIsPlainUnlessDirty` | P5/xv6/kernel/ide.c:124-154 | the disk differs from the plain disk of last writes only at sectors with a dirty buffer |
| `BufTheorems.QuietDiskIsPlain` | P5/xv6/kernel/bio.c:108-137 | when no process is using a buffer the disk is the plain disk |
| `BufTheorems.CacheSafety` | P5/xv6/kernel/bio.c:61-93 | at most one buffer per real sector, at most one process per buffer, and only busy buffers are dirty |
| `BufTheorems.SleepersWillBeWoken` | P5/xv6/kernel/ide.c:146-151 | a process asleep in iderw has its buffer still queued, one asleep in bget waits for a busy buffer |
| `BufTheorems.IderwHasWork` | P5/xv6/kernel/ide.c:126-131 | iderw's panics are unreachable |
| `BufTheorems.ListIsReleaseOrder` | P5/xv6/kernel/bio.c:118-137 | the list is a permutation of all buffers in the order of their last brelse step |
| `BufTheorems.MissRecyclesLeastRecent` | P5/xv6/kernel/bio.c:80-92 | a miss recycles the buffer whose last brelse step is the oldest among those not busy |
| `BufTheorems.LogIsPlain` | P5/xv6/kernel/bio.c:108-115 | the record of last writes is, sector by sector, what the bwrite steps of the run wrote to the sectors their callers had asked bread for |
| `BufTheorems.BwriteWritesCallersSector` | P5/xv6/kernel/bio.c:107-115 | a bwrite writes what its caller last stored, and to the sector of its caller's last bread |
| `BufList.Bcache.Binit` | P5/xv6/kernel/bio.c:39-56 | the links form one ring, both ways round, through every buffer |
| `BufList.Bcache.Bget` | P5/xv6/kernel/bio.c:61-93 | the two scans along the links find the buffer with the key, else the last free one, else none |
| `BufList.Bcache.Brelse` | P5/xv6/kernel/bio.c:118-137 | relinking moves the buffer to the front and keeps the ring |
| `BufList.IdeQueue.Append` | P5/xv6/kernel/ide.c:133-142 | the walk to the null link appends the buffer; the disk is started exactly for a queue that was empty |
| `BufList.IdeQueue.Pop` | P5/xv6/kernel/ide.c:97-101 | the head leaves the queue |
| `SchedTheorems.RunningOnExactlyOneCpu` | P5/xv6/kernel/proc.c:255-286 | in every run each RUNNING process is current on exactly one CPU |
| `SchedTheorems.LockHeldAcrossSwitch` | P5/xv6/kernel/proc.c:288-306 | ptable.lock is held, by the switching CPU, across every context switch, with one pushcli outstanding and interrupts off, so sched's panics are unreachable |
| `SchedTheorems.ReleaseOnRecordedHolder` | P5/xv6/kernel/spinlock.c:43-63 | the release after sched, or in forkret, runs on the CPU recorded as holder although another context acquired the lock; release and popcli do not panic |
| `SchedTheorems.AcquireNotHeld` | P5/xv6/kernel/spinlock.c:23-39 | no CPU acquires the lock while holding it |
| `SchedTheorems.MutualExclusion` | P5/xv6/kernel/spinlock.c:31-38 | at most one context is between its xchg and its release |
| `SchedTheorems.InterruptsRestored` | P5/xv6/kernel/spinlock.c:95-115 | a process that leaves its last spinlock finds interrupts as they were when it took its first, on whatever CPU |
| `SchedTheorems.WantIsStable` | P5/xv6/kernel/spinlock.c:95-104 | what interrupts are restored to is set only by the process's own outermost pushcli, or at its first run |
| `SchedTheorems.NoSleepOverZombie` | P5/xv6/kernel/proc.c:207-246 | no process sleeps in wait while it has a zombie child |
| `SchedTheorems.ReapedExactlyOnce` | P5/xv6/kernel/proc.c:165-246 | every exited process is reaped at most once, and until then is exactly one zombie of a live parent, or of init after reparenting |
| `SchedTheorems.ReapIsByParent` | P5/xv6/kernel/proc.c:216-236 | a zombie is reaped by its parent, when its kernel stack is on no CPU |
| `SchedTheorems.PidsDistinct` | P5/xv6/kernel/proc.c:32-48 | pids of slots in use are distinct |
| `SchedSteps.StepResume` | P5/xv6/kernel/proc.c:303-306 | resuming after swtch restores the process's own intena on the CPU where it now runs |
| `SchedBodies.StepWaitNone` | P5/xv6/kernel/proc.c:238-245 | a round of wait that finds no zombie, whether it gives up or sleeps, keeps the invariant, so that no sleeper in wait has a zombie child |
| `SchedBodies.ReapLocal` | P5/xv6/kernel/proc.c:222-234 | the slot reaped is on no CPU |
| `SchedBodies.ExitWakesInit` | P5/xv6/kernel/proc.c:188-197 | handing a zombie to init leaves init awake |
| `SchedTable.Ptable.Wakeup1` | P5/xv6/kernel/proc.c:366-376 | after the scan nobody is asleep on the channel; those who were are RUNNABLE, and every other slot is as it was |
| `SchedTable.Ptable.ExitScan` | P5/xv6/kernel/proc.c:185-201 | the scan hands every child to init, waking init for zombies, and makes the process a zombie: the protocol's step |
| `SchedTable.Ptable.WaitScan` | P5/xv6/kernel/proc.c:213-237 | the scan finds the first zombie child, and whether there is any child |
| `SchedTable.Ptable.AllocScan` | P5/xv6/kernel/proc.c:32-48 | the first UNUSED slot becomes EMBRYO with the next pid |
| `SchedTable.Ptable.KillScan` | P5/xv6/kernel/proc.c:391-408 | the slot found is marked and not SLEEPING, every other is as it was; found exactly if some slot has the pid |
| `SchedCalls.CallsTakeEffect` | P5/xv6/kernel/proc.c:32-408 | in every run each critical section does to the table what the call its context began asks for: wakeup(ch) leaves nobody asleep on ch and wakes nobody else; kill marks and wakes the process in use with the pid; yield, sleep, exit and allocproc change the caller's slot, and others, exactly as stated; wait frees the first zombie child, gives up exactly without children or when killed, and otherwise sleeps |
| `SchedCalls.WakeupWakes` | P5/xv6/kernel/proc.c:366-386 | after wakeup's critical section no process is asleep on the channel, those that were are RUNNABLE, and every other keeps its state |
| `SchedCalls.KillKills` | P5/xv6/kernel/proc.c:388-408 | after kill the process in use with the pid is marked and not asleep; no other slot changes |
| `SchedCalls.WaitWaits` | P5/xv6/kernel/proc.c:207-247 | wait gives up exactly when there is no zombie child and either no child or a killed caller; with other children it sleeps on its own channel; a zombie child is freed, the first in table order |
| `SchedCalls.ExitExits` | P5/xv6/kernel/proc.c:185-201 | exit leaves a zombie that is nobody's parent; its children are init's; exactly those asleep on its parent's channel, and on init's if a zombie was handed over, are woken |
| `SchedCalls.AllocAllocs` | P5/xv6/kernel/proc.c:39-52 | the first UNUSED slot, if any, and no other, is taken, under the next pid |
| `SchedCalls.RunCalls` | P5/xv6/kernel/proc.c:28-408 | in every run a context's place is one of the call that its steps say it began, before or after its critical section |
| `SchedCalls.CallsAreCarriedOut` | P5/xv6/kernel/proc.c:378-408 | a call that returns has run its critical section |
| `SchedHistory.RunTells` | P5/xv6/kernel/proc.c:165-408 | in every run a process is asleep on a channel exactly if it went to sleep there and no wakeup of the channel, kill of the process or exit that wakes it came since; it is marked exactly if a kill has found its slot since the slot was last freed; its parent is the process that forked it, or init once that has exited |
| `SchedHistory.KilledExactly` | P5/xv6/kernel/proc.c:388-408 | while a slot is in use its process is marked exactly if there was a kill of that process, or the slot was marked from the start |
| `SchedHistory.BornKilled` | P5/xv6/kernel/proc.c:39-52 | a run in which kill(0) marks a free slot and allocproc makes a killed process of it, with no kill of that process |
| `SchedHistory.ForkStartsAChild` | P5/xv6/kernel/proc.c:137-157 | fork gives its slot the caller as parent, starts it with that parent, or returns it to UNUSED; no other slot changes |
| `SchedHistory.ScanLooksAtEverySlot` | P5/xv6/kernel/proc.c:262-283 | the scheduler looks at every slot in order, each once, before it releases the lock; it switches to the slot looked at last, and to each that is RUNNABLE when looked at |
| `SchedHistory.NobodyIsStuck` | P5/xv6/kernel/spinlock.c:23-39 | in every run each CPU can go on, or waits for ptable.lock while the CPU that has it can |
| `PipeRing.StoreAppends` | P5/xv6/kernel/pipe.c:90 | a store at nwrite mod 512 appends one byte, also where the 32-bit counter wraps |
| `PipeRing.LoadRemoves` | P5/xv6/kernel/pipe.c:113 | a load at nread mod 512 removes the oldest byte |
| `PipeRing.FullMeans` | P5/xv6/kernel/pipe.c:82-110 | the tests of the counters are the tests for 512 and for 0 buffered bytes |
| `Pipe.Pipe.Write` | P5/xv6/kernel/pipe.c:75-95 | from acquire or wakeup to the next sleep or return: the bytes stored are appended in order; it sleeps only on a full pipe with the read side open; only the -1 return wakes nobody |
| `Pipe.Pipe.Read` | P5/xv6/kernel/pipe.c:97-118 | it returns the oldest min(n, available) bytes in order, and sleeps only on an empty pipe with the write side open |
| `PipeTheorems.BytesArriveInOrder` | P5/xv6/kernel/pipe.c:75-118 | in every run the bytes read and then the bytes buffered are the bytes accepted |
| `PipeTheorems.CountersAgree` | P5/xv6/kernel/pipe.c:14-17 | nwrite - nread in 32-bit arithmetic is the number of buffered bytes, at most 512 |
| `PipeTheorems.WriterSleepsOnlyWhenFull` | P5/xv6/kernel/pipe.c:82-89 | with the lock free a sleeping writer has a full pipe and an open read side; when that side stops being open is `PipeCalls.OpenUntilClosed` and `WritersSeeTheEnd` |
| `PipeTheorems.ReaderSleepsOnlyWhenEmpty` | P5/xv6/kernel/pipe.c:103-109 | with the lock free a sleeping reader has an empty pipe and an open write side, unless a killed writer's -1 return came earlier in the run |
| `PipeTheorems.NeverBothAsleep` | P5/xv6/kernel/pipe.c:75-118 | a reader and a writer never wait for each other, unless a killed writer's -1 return came earlier in the run |
| `PipeTheorems.MissedExactlyByBadQuit` | P5/xv6/kernel/pipe.c:83-86 | from a state in which no reader misses anything, a step leaves one asleep on a pipe that has bytes or no writer, with the lock free, if and only if it is the -1 return of a writer that has stored bytes, with the read side open and some reader asleep; that writer was killed |
| `PipeTheorems.BadQuitBefore` | P5/xv6/kernel/pipe.c:83-106 | in any run, a reader that misses something has such a return before it |
| `PipeTheorems.LapseLeavesAReaderAsleep` | P5/xv6/kernel/pipe.c:83-86 | at such a return every sleeping reader stays asleep over a full pipe |
| `PipeTheorems.ReaderCanMissAFullPipe` | P5/xv6/kernel/pipe.c:83-86 | such a run exists: lock free, pipe full, reader asleep |
| `PipeCalls.SentIsReadOrBuffered` | P5/xv6/kernel/pipe.c:75-118 | in every run the bytes given to the writes, as far as they have got, are the bytes read and then those in the pipe |
| `PipeCalls.CallsEndDone` | P5/xv6/kernel/pipe.c:81-117 | a write that returns through its end has sent all its bytes; a read that does has all it asked for or has emptied the pipe |
| `PipeCalls.OpenUntilClosed` | P5/xv6/kernel/pipe.c:57-73 | a side is open until its last reference begins to close it |
| `PipeCalls.ReadersSeeTheEnd` | P5/xv6/kernel/pipe.c:60-63 | once the close of the write side is over no reader is asleep and none can go to sleep: a reader of an empty pipe returns with no bytes |
| `PipeCalls.WritersSeeTheEnd` | P5/xv6/kernel/pipe.c:64-67 | once the close of the read side is over no writer is asleep and none can go to sleep: a writer that finds the pipe full returns -1 |
| `PipeCalls.CloseGoesOn` | P5/xv6/kernel/pipe.c:57-73 | a close that has begun waits for nothing but the lock |
| `PipeCalls.KillMarksAndWakes` | P5/xv6/kernel/pipe.c:83-106 | a process counts as killed in a call exactly if it was killed since the call began, and one just killed is not asleep |
| `PipeCode.WriteIsSteps` | P5/xv6/kernel/pipe.c:75-95 | a stretch of pipewrite is a sequence of the protocol's steps: stores, then the wakeup and return, the -1 return, or the wakeup and the sleep |
| `PipeCode.ReadIsSteps` | P5/xv6/kernel/pipe.c:97-118 | a stretch of piperead is a sequence of the protocol's steps: the test and the sleep or the -1 return, or loads, the wakeup and the return |
| `PipeCode.RunOn` | P5/xv6/kernel/pipe.c:75-118 | a run continued by such steps is a run, so that all theorems about runs hold where the code leads |
| `PipeCode.Stores` | P5/xv6/kernel/pipe.c:90 | k stores in a row append k bytes to the ring and to what was accepted |
| `PipeCode.Loads` | P5/xv6/kernel/pipe.c:110-114 | k loads in a row move the k oldest bytes to what was read |
| `FreeList.InsertedIsFreeList` | P5/xv6/user/umalloc.c:33-42 | free's merging yields again a list of maximal runs, address-ordered, disjoint and non-adjacent, whose space is the old space and the block |
| `FreeList.SpaceDetermines` | P5/xv6/user/umalloc.c:25-44 | a free list is determined by its space |
| `Umalloc.StopsAtPlace` | P5/xv6/user/umalloc.c:30-32 | the tests of free's loop stop it at the block's unique gap and nowhere else |
| `Umalloc.UnitsSuffice` | P5/xv6/user/umalloc.c:69 | the units asked for hold the bytes if and only if the rounding does not wrap, that is up to 2^32 - 8 bytes; beyond, the block has no payload |
| `Umalloc.Heap.FindPlace` | P5/xv6/user/umalloc.c:29-32 | free's search, from wherever freep stands, terminates at the one place where bp lies between two neighbours in address order or past the wrap point |
| `Umalloc.Heap.Relink` | P5/xv6/user/umalloc.c:33-42 | the relinking makes the merged list's links |
| `Umalloc.Heap.Free` | P5/xv6/user/umalloc.c:24-44 | the block's space joins the free space, and no block still held is touched; the list stays one address-ordered cycle of maximal runs |
| `Umalloc.Heap.Morecore` | P5/xv6/user/umalloc.c:46-61 | at least 4096 units at the break join the free space, or nothing changes; which of the outcomes is exact |
| `Umalloc.Heap.Search` | P5/xv6/user/umalloc.c:73-89 | the cyclic search takes a fitting block, asks for more at most once, and terminates |
| `Umalloc.Heap.Malloc` | P5/xv6/user/umalloc.c:63-90 | a block disjoint from every held and free one, of exactly the units asked for, comes out of the free space; it fails exactly when nothing fits and the kernel gives nothing |
| `Umalloc.FreeUndoesMalloc` | P5/xv6/user/umalloc.c:24-90 | malloc, the program's own sbrk, and free leave the free list that was there before, or that one with the new piece of the heap inserted exactly when nothing fitted, whatever was split and merged; held blocks stay |
| `Umalloc.RoundingWraps` | P5/xv6/user/umalloc.c:63-90 | on a new heap a request for 2^32 - 1 bytes gets a block of its header alone |
| `Umalloc.SbrkOverflows` | P5/xv6/user/umalloc.c:46-61 | on a new heap a request for 2^31 bytes overflows sbrk's int |
| `MemTiles.TotalOfTiling` | P3/mem_allocator/mem.c:166-187 | sizes and headers add up to the size of the region |
| `MemTiles.MergedTiles` | P3/mem_allocator/mem.c:189-232 | coalesce's result tiles the region, and no two free chunks are adjacent |
| `MemTiles.MergedKeeps` | P3/mem_allocator/mem.c:189-232 | allocated chunks stay, and the free bytes stay free |
| `MemTiles.MergedIsTheMaximalRuns` | P3/mem_allocator/mem.c:189-232 | coalesce's result is the one tiling with these allocated chunks and maximal free runs |
| `MemTiles.AllFreeIsOneChunk` | P3/mem_allocator/mem.c:189-232 | when everything is free, coalesce restores the single initial chunk |
| `MemRegion.RoundedMeans` | P3/mem_allocator/mem.c:61-66 | C's rounding gives the next multiple of 8 for sizes up to 2^31 - 8; it is non-negative exactly for -16 < size <= 2^31 - 8 other than -8 |
| `MemRegion.CarvedIsTiling` | P3/mem_allocator/mem.c:92-109 | an allocation leaves an aligned tiling without adjacent free chunks |
| `MemRegion.CarvedTilesExactly` | P3/mem_allocator/mem.c:92-109 | the tiling is kept if and only if the request is not negative or size less request and header is not in 1 .. INT_MAX; a difference that overflows wraps and does not split |
| `MemRegion.SplitsMeans` | P3/mem_allocator/mem.c:92-95 | the wrapped subtraction of request and header is positive exactly when the true difference lies in 1 .. INT_MAX |
| `MemRegion.CarvedTakes` | P3/mem_allocator/mem.c:92-129 | the chunk handed out lies inside the chosen one, is large enough, and is the only new allocated chunk |
| `MemRegion.Region.MemInit` | P3/mem_allocator/mem.c:29-57 | one free chunk covers the region, whose size is rounded up to pages; refused exactly for a second call, a size that is not positive, or a failed mmap; the rounding overflows to a negative size exactly for sizes in the last page of int |
| `MemRegion.Region.Firstfit` | P3/mem_allocator/mem.c:234-246 | the first fitting chunk of the list, or none exactly when none fits |
| `MemRegion.Region.Bestfit` | P3/mem_allocator/mem.c:248-271 | a smallest fitting chunk; the null head is read exactly for an empty list |
| `MemRegion.Region.Worstfit` | P3/mem_allocator/mem.c:273-296 | a largest fitting chunk; the null head is read exactly for an empty list |
| `MemRegion.Region.SplitChunk` | P3/mem_allocator/mem.c:93-109 | the rest of the chunk heads the free list, and headers, chunks and lists still agree |
| `MemRegion.Region.Claim` | P3/mem_allocator/mem.c:110-129 | the chunk leaves the free list, whose other chunks keep their order, and heads the allocated list |
| `MemRegion.Region.MemAlloc` | P3/mem_allocator/mem.c:59-130 | the chunk chosen by the policy is carved; NoSpace exactly when none fits, the null head read exactly without free chunks, the header overrun exactly for its range of negative requests; payloads are 8-aligned; the region stays tiled and partitioned by its two lists, whose new order is stated |
| `MemRegion.Region.Coalesce` | P3/mem_allocator/mem.c:189-232 | the walk over memory makes the merged chunks and links the free ones in address order |
| `MemRegion.Region.MemFree` | P3/mem_allocator/mem.c:132-164 | exactly the payload of an allocated chunk is accepted; its chunk is freed and merged with its neighbours |
| `MemRegion.NullHeadIsRead` | P3/mem_allocator/mem.c:248-296 | runs from Mem_Init in which best fit and worst fit read the null head |
| `MemRegion.NegativeRequests` | P3/mem_allocator/mem.c:59-130 | a run from Mem_Init in which a negative request cuts a chunk inside its header, and one in which -2^31 takes the whole chunk |
| `Vm.Vm.constructor` | P5/xv6/kernel/kalloc.c:23-32 | the pool is every page from the kernel's end to PHYSTOP, each once |
| `Vm.Vm.Kfree` | P5/xv6/kernel/kalloc.c:34-54 | the page heads the free list, linked through the pages |
| `Vm.Vm.Kalloc` | P5/xv6/kernel/kalloc.c:56-70 | the head of the list, or 0 exactly when it is empty |
| `VmPages.SetEntry` | P5/xv6/kernel/vm.c:90 | storing a page table entry changes that translation and no other |
| `VmPages.AddTable` | P5/xv6/kernel/vm.c:59-71 | a new clear table changes no translation |
| `Vm.Vm.Walkpgdir` | P5/xv6/kernel/vm.c:49-72 | the table of the entry, made if asked for; 0 exactly without one, when none is asked for or the pool is empty |
| `Vm.Vm.Mappages` | P5/xv6/kernel/vm.c:74-98 | exactly the pages asked for are mapped, or a prefix of them when a table cannot be had; no remap panic |
| `Vm.Vm.MapNext` | P5/xv6/kernel/vm.c:84-96 | one turn of mappages maps one page more, or finds no page for a table |
| `Vm.Vm.Setupkvm` | P5/xv6/kernel/vm.c:134-149 | the four kernel ranges are mapped one to one with their permissions and nothing else is, exactly when thirteen pages are free (the directory, four low tables, eight device tables), and exactly those are taken; with fewer it returns 0 and loses them all |
| `VmPages.SpaceIsProtected` | P5/xv6/kernel/vm.c:100-128 | in every address space the program reaches the pages below 640 KB alone; above, every page of memory and devices is mapped to itself, and exactly those from 1 MB up to the kernel's data cannot be written |
| `Vm.EntryOf` | P5/xv6/kernel/vm.c:118-128 | the table that serves the user half is there already, because the kernel's first range shares it |
| `Vm.Vm.MapUserPage` | P5/xv6/kernel/vm.c:247 | allocuvm's unchecked mappages cannot fail and cannot remap |
| `Vm.Vm.Allocuvm` | P5/xv6/kernel/vm.c:226-251 | the user half grows by zero pages, the old ones untouched, exactly when the pool has enough; otherwise all is as before |
| `Vm.Vm.Deallocuvm` | P5/xv6/kernel/vm.c:253-278 | exactly the pages between the two sizes are unmapped and returned |
| `Vm.Vm.Freevm` | P5/xv6/kernel/vm.c:280-295 | every page the address space owns goes back to the pool, once, and no other |
| `Vm.ParentEntry` | P5/xv6/kernel/vm.c:308-311 | neither of copyuvm's panics is reached |
| `Vm.Vm.Copyuvm` | P5/xv6/kernel/vm.c:297-326 | it succeeds exactly when thirteen pages and one for each page of the size are free; the child then has the same contents on fresh distinct pages; the parent is untouched; on failure everything is returned, setupkvm's own failure excepted |
| `ServerHeap.RootIsLeast` | P4/web_server/server.c:32-52 | the root of the 1-based heap is a minimum |
| `ServerHeap.Queue.Enqueue` | P4/web_server/server.c:32-52 | the heap order is kept and the request added to the multiset |
| `ServerHeap.Queue.Dequeue` | P4/web_server/server.c:54-90 | a request of least priority leaves the multiset and the heap order is kept |
| `ServerHeap.Queue.SiftDown` | P4/web_server/server.c:58-88 | the sinking loop restores the heap order |
| `ServerHeap.FifoServer.Put` | P4/web_server/server.c:222-225 | under increasing priorities the queue refines a plain FIFO: the request goes to its end |
| `ServerHeap.FifoServer.Get` | P4/web_server/server.c:54-90 | the request served is the oldest |
| `ServerMonitor.NeverOverfull` | P4/web_server/server.c:208-244 | the insertion never exceeds the capacity although its test was in an earlier critical section, and no worker takes from an empty queue |
| `ServerMonitor.OneInside` | P4/web_server/server.c:103-119 | at most one thread is inside a critical section |
| `ServerMonitor.MasterSleepsOnlyWhenFull` | P4/web_server/server.c:209-213 | with the lock free, the master asleep has a full queue |
| `ServerMonitor.RequestsHaveAnAwakeWorker` | P4/web_server/server.c:107-114 | with the lock free, a non-empty queue has a worker that is not asleep |
| `ServerMonitor.NotAllAsleep` | P4/web_server/server.c:103-119 | master and workers are never all asleep |
| `ServerMonitor.SomeoneMoves` | P4/web_server/server.c:103-244 | while requests wait, or the master waits for anything but the network, some thread can move without a spurious wakeup |
| `ServerMonitor.NothingLost` | P4/web_server/server.c:103-244 | accepted requests are those waiting and those taken; which they are, and who handles each, is `ServerRequests` |
| `ServerMonitor.TakenInOrder` | P4/web_server/server.c:222-225 | under the FIFO policy requests are taken in the order of acceptance |
| `ServerRequests.EachInOnePlace` | P4/web_server/server.c:103-244 | in every run each request read is with the master, waiting, in one worker's hands, or handled; what is queued is what was read, in order |
| `ServerRequests.ServesWhatItTook` | P4/web_server/server.c:107-117 | the request that a worker handles is the one of its last dequeue |
| `ServerRequests.LastTakenIs` | P4/web_server/server.c:107-115 | what a worker took last is the connection that its last dequeue step named |
| `ServerRequests.ServedAtMostOnce` | P4/web_server/server.c:103-119 | each request is handled by one worker at most as often as it was read, and under the FIFO policy at most once |
| `ServerRequests.WithinThePool` | P4/web_server/server.c:208-213 | no more requests wait than the queue was made for |
| `Grep.MatchHere` | P5/xv6/user/grep.c:83-95 | true exactly when a prefix of the text is in the language of the pattern |
| `Grep.MatchStar` | P5/xv6/user/grep.c:97-105 | true exactly when some run of the starred character is followed by a match of the rest |
| `Grep.Match` | P5/xv6/user/grep.c:71-81 | true exactly when some substring, a prefix under a leading ^, is in the language of the pattern |
| `ShLex.Gettoken` | P5/xv6/user/sh.c:264-307 | the loops compute the token's kind, its span and the next position |
| `ShLex.PeekAt` | P5/xv6/user/sh.c:309-319 | white space is skipped and the next character looked up |
| `ShParse.LineSpelled` | P5/xv6/user/sh.c:343-445 | whatever the line, every word of a parsed tree is a whole word of it, every redirection has before its file, but for white space, `<` if it reads and `>` if it writes, and no command has MAXARGS words |
| `ShParse.OperatorIsMode` | P5/xv6/user/sh.c:382-394 | a redirection reads if and only if the operator before its file is `<`, and writes if and only if it is `>` or `>>` |
| `ShGrammar.AcceptsExactlySpellings` | P5/xv6/user/sh.c:326-445 | a line parses if and only if its tokens are those of a command in the grammar |
| `ShGrammar.YieldsWhatIsSpelled` | P5/xv6/user/sh.c:326-445 | the command of a line that parses is the one its tokens spell: arguments and redirections in their order, `<` for reading, `>` and `>>` for writing, pipes before & before ; |
| `ShGrammar.RespelledMeansTheSame` | P5/xv6/user/sh.c:264-445 | respelling a command, with other white space, with `>>` for `>`, and with redirections before, between or after the arguments, leaves its parse the same |
| `ShGrammar.MovedAndDoubled` | P5/xv6/user/sh.c:373-445 | moving an argument past a redirection, and writing `>>` for `>`, are such respellings |
| `ShGrammar.SameTokensMeanTheSame` | P5/xv6/user/sh.c:264-445 | two lines with the same tokens both parse to the same command, or neither parses |
| `ShGrammar.LexemesAreTheTokens` | P5/xv6/user/sh.c:264-307 | a line has certain tokens if and only if it is their texts with white space before, after and between them, some at least where two would otherwise run together |
| `ShPrint.ParseInvertsPrint` | P5/xv6/user/sh.c:326-445 | every command tree with legal words and fewer than MAXARGS arguments, printed with parentheses where needed, is a line without NUL that parses back to itself |
| `ShPrint.PrintKeepsMeaning` | P5/xv6/user/sh.c:326-445 | the command of any line that parses, printed afresh, parses to the same command |
| `ShPrint.BlockBack` | P5/xv6/user/sh.c:398-412 | a parenthesised command with redirections is read back |
| `ShPrint.SimpleBack` | P5/xv6/user/sh.c:414-445 | a simple command with redirections is read back |
| `Sh.Parseredirs` | P5/xv6/user/sh.c:373-396 | the loop computes the redirections, or the panic for a missing file; their modes are those of `ShParse.LineSpelled` and `ShGrammar.YieldsWhatIsSpelled` |
| `Sh.Parseexec` | P5/xv6/user/sh.c:414-445 | the loop collects arguments and redirections, with the panics for a stray symbol and for too many arguments |
| `Sh.Parseblock` | P5/xv6/user/sh.c:398-412 | the parenthesised line and its redirections, or the panic for a missing parenthesis |
| `Sh.Parsepipe` | P5/xv6/user/sh.c:360-371 | a command, and a pipe to the right of it |
| `Sh.Parseline` | P5/xv6/user/sh.c:343-358 | the loop over & and the list to the right of ; |
| `Sh.Nulterminate` | P5/xv6/user/sh.c:447-492 | exactly the positions after the tree's words become NUL |
| `Sh.WordsAreTerminated` | P5/xv6/user/sh.c:447-492 | after the stores every argument and file name is, as a C string, exactly its token |
| `Sh.Parsecmd` | P5/xv6/user/sh.c:326-341 | the parsed tree, with every word of it terminated in the line, or a panic with the line unchanged |

## Left out

- The on-disk inode table is a sequence of records, not bytes: `iupdate` and `ilock` copy a record.
- FsFile.FileSystem.Writei: with too few free blocks below `sb.size` nothing is claimed of the disk, because `balloc` then hands out a block number past the image; that outcome is `DiskFull`.
- Device inodes only have their dispatch: `readi` and `writei` on a device end in the outcome `Device`.
- MemRegion.Region.MemInit: for sizes in the last page of `int` the rounded size, and with it the chunk's, is negative; nothing more is claimed of the region. `open` of `/dev/zero` is taken to succeed.
- `Mem_Alloc` with a policy number that is none of the three, and calls before `Mem_Init`; `Mem_Dump`.
- Umalloc.Heap.Malloc: after the outcome `OutOfRange` the source writes a header outside its memory; nothing is claimed beyond that point. A program that shrinks its break with `sbrk` breaks the allocator and is not modelled.
- ServerHeap.FifoServer.Put: the counter is an `int` that the code lets overflow; the order holds for the first 2^31 - 1 requests.
- `loaduvm`, `inituvm`, `uva2ka` and `copyout` are not part of this model.
- Sysfile.Namex: it runs, like every call of `sysfile.c` here, with the references and locks of all other calls fixed; waiting for a locked inode is an outcome, not an interleaving, and so is a panic. Of a call that panics or waits the causes are stated, not what it has done so far.
- SysLinks.SysUnlink: it takes a directory for empty when its map has no names but "." and ".."; `FsDir.EmptyMeansOnlyDots` proves this of `isdirempty` for directories that start with these two. Whether a directory left astray is still there is read off the tree after the call.
- Writing a directory entry can fail for want of disk space (`dirlink` panics); in the calls of `sysfile.c` it is taken to succeed, and `FsDir.Dirlink` states exactly when it does. `FsTree` ties single operations on the bytes to the tree, for directories whose names are distinct; `ialloc`'s write of a new inode is not among them, and the calls of `sysfile.c` run on the tree.
- Inodes on more than one device, the P4 `clone` and `join` calls, the user condition variable, and the P5 checksums in `fs.c`.
- Sh.Parsecmd: the constructors' `malloc` is taken to succeed. The tree is built from values, so that arguments added to a command already wrapped in redirections are added when the wrapping is done.
- In the scheduling protocol spinlocks other than `ptable.lock` are only counted, `swtch` is one step, and pids do not overflow. Whether a runnable process ever runs, timing and weak memory are left out.
- In the buffer cache the disk controller is a map that answers commands, without errors; callers `bwrite` what they modify.
- The kernel's input and output, interrupts, boot code, sockets, HTTP and CGI handling, the sorting programs, grep's read loop, printing routines and test programs.
- `P5/linux/server.c` and the P3 changes to the kernel's stack growth.
