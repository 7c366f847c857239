# A verified model of a RISC-V teaching kernel

The kernel has four parts whose correctness does not show in any single function: a crash-safe
file-system stack, a process table with an aging priority scheduler, Sv39 page tables that live in
the pages they manage, and a virtqueue driver. This project models these parts as they are written
and proves what each promises over every input, every run and every crash.

Check everything with `dafny verify dfyconfig.toml` (Dafny 4.11).

## The parts

**Disk, cache, log** (`Blocks`, `Lists`, `Crash`, `Cache`, `Recency`, `Log`, `Superblock`). A disk is a sequence of blocks
whose single-block writes are atomic. `Crash` is the log protocol on disks alone: cut a commit or a
recovery after any write, any number of times, and recovery ends with all of the old data or all of
the new. `Cache` and `Log` are bio.c and log.c as classes: the buffers with their LRU ring spliced
through `prev` and `next`, reference counts, pins, and a ghost `view` that says what each block was
last given. Every disk write goes into a ghost `trace`, and the log's methods prove that every disk
in the trace recovers as `Crash` says, and has the boot block and the superblock that were there.

**Files** (`Layout`, `DiskFormat`, `Files`, `Space`, `FileSystem`, `OpenFile`, `Mount`). Inodes, bitmap and indirect
blocks are read out of the bytes of blocks; `DiskFormat` says byte by byte where. One invariant (`FsInv`) says who owns which block; the
methods of fs.c run over the log. `Space` counts: a file owns the blocks its size asks for and the rest
is free, so the panic of a full disk comes exactly when a write needs more than are free. `file_write`
joins everything: the chunked loop is one splice, and every disk it leaves behind, also at the panic of
a full disk, recovers to a file system in order with a whole number of chunks written. `Mount` boots the
stack from any such disk, and replays histories of creating, writing and freeing from formatting on:
every disk at every moment boots.

**Names** (`Directories`, `LinkCounts`, `Paths`, `Namespace`, `FileNames`, `LinkCalls`, `NameEffects`,
`PathLaws`, `FileTable`). Directories are sequences of slots; link counts equal entry counts through create,
link with its rollback, and unlink; `namex` is a fold over the parts of the path; inode references,
open files and descriptors agree between system calls. `PathLaws` says what the calls mean to whoever
follows paths: which path leads where after create, link and unlink.

**Names on the disk** (`DirectoryBytes`, `DirectoryBlocks`, `LinkRange`, `NamesOnDisk`, `NameHistories`,
`ManyLinks`). A disk holds a tree: entries of 24 bytes in the blocks of its directories, kinds and link
counts in its inode blocks. dirlookup, dirlink and namex read and write it with `readi` and `writei`;
create, link and unlink are transactions of the log that do to this tree what they do in `LinkCalls`, and to
the bytes of files what they should. `Calls` and `ManyLives` join everything: names and bytes on the disk are
the fold of the calls, panics come exactly where the fold says, and over any number of power failures, each
at any moment, what comes up is what a prefix of the calls of each life has made.

**Processes** (`Processes`, `ProcessSafety`, `ProcessRuns`, `BoundedWaiting`, `Starvation`, `ProcTable`, `Locks`).
The operations of proc.c as steps of a state machine on one processor, what every run keeps, and the
methods with their loops, each proved to be its step and to change the table slot by slot as proc.c does.
`Locks` follows lock, interrupt state and stack across context switches, and sleep locks over runs.

**Memory** (`PageTables`, `PhysicalPages`, `VirtualMemory`, `PageTrees`, `UserMemory`,
`ProcessMemory`, `ProcessLife`, `UserCopy`, `Hardware`). Memory is bytes; the free list and the page tables are words in pages.
A ghost owner for each page (on the list, in a tree at a place, in somebody's hands) makes
"exactly once" a local property. A table means a flat map from page numbers to entries
(section 4.4, Sv39, of the RISC-V Privileged Architecture, version 1.10), and `Hardware` has the processor
walk the same bytes to the same entries. `ProcessLife` follows two
tables from making to teardown: the pages free before are the pages free after.

**Virtqueue** (`Virtqueue`, `VirtioDisk`). Driver and device take turns over the descriptor table and
two rings with 16-bit indices (section 2.6, Split Virtqueues, of VIRTIO 1.1). The device goes by what it
finds in the descriptors: flags, lengths, and the sector in the header of the request.

Panics are part of the model: where the source panics, a method returns a flag or a negative
number, and its contract says when: `Room` is the space that the inode cache must have, `NoPlace` a directory
at its largest or too few free blocks, and free inodes and blocks are counted; the operations on trees
(`FileNames` to `FileTable`) take the number of free blocks as an argument. Preconditions that remain are demands of the source on its
callers, and the callers modelled here meet them.

## Where code and documentation differ

- Aging does not prevent starvation, although doc text says so
  (实验8_优先级调度系统.md:58-68). The exact condition is proved: with m older processes of static
  priority at most P, waiting is bounded if m + P <= 15 (`BoundedWait`), and for every m + P >= 16 there
  is a run from boot after which a process starves forever (`AgingCanStarve`).
- `vm_unmappages` rounds the length into an `int`: it unmaps its range exactly when the rounded length is
  below 2 GiB (`UnmapCovers`), and beyond that it may return having done nothing (`UnmapsNothing`).
- `pmem_free` does not notice a page freed twice: it keeps the list exactly if the page was not on it
  (`PmemFree`, `FreedTwice`).
- A link count is a `short` that nothing checks: unlink of a name panics exactly if the count has passed
  32767 (`NamesOnDisk.Unlink`), and calls from formatting on lead there (`UnlinkCanPanic`).
  Sixteen bits do hold every count that the disk has room for (`LinksFit`).
- Relative paths keep one reference to the root for good; `Namex` says so, and the calls above it are
  stated for absolute paths.
- A comment (kernel/fs/fs.c:63) puts the bitmap into block 58; the code computes 45, and the
  model follows the code.
- Reads look as if they could allocate, since `readi` calls an allocating `bmap`; they never do
  (`ReadI`, `Bmap`).
- A negative count in `file_read` becomes a huge unsigned one; `FileRead` says what then happens.

## Model

| member | source | states |
|---|---|---|
| `LittleEndian.GetSet` | kernel/fs/fs.c:326-336 | storing a w-byte number makes exactly that number read back and leaves all others |
| `Crash.HeaderRoundTrip` | kernel/fs/log.c:47-72 | reading a written header gives back exactly the block numbers written |
| `Crash.CommitIsCrashAtomic` | kernel/fs/log.c:75-111 | a commit cut after any number of its writes recovers to all old or all new data, and to the new exactly if the header with the block numbers reached the disk |
| `Crash.CommitCompletes` | kernel/fs/log.c:177-185 | a commit that finishes leaves the new data and an empty log |
| `Crash.RecoveryIsIdempotent` | kernel/fs/log.c:106-111 | a recovery cut after any write, then recovered again, gives what one uninterrupted recovery gives |
| `Crash.RebootsConverge` | kernel/fs/log.c:106-111 | any number of recoveries cut anywhere, then one that completes, gives the same data as one recovery |
| `Crash.TxnIsAtomic` | kernel/fs/log.c:130-147 | one transaction with a power failure anywhere and failing reboots after it is all or nothing, and a returned one is never lost |
| `Crash.HistoriesAreAtomic` | kernel/fs/log.c:130-185 | over any history of transactions and failures the data is that of exactly the committed transactions, in order |
| `Crash.CommitKeepsFront` | kernel/fs/log.c:61-111 | boot block and superblock are the same on every disk during a commit |
| `Crash.RecoveryKeepsFront` | kernel/fs/log.c:106-111 | boot block and superblock are the same on every disk during a recovery |
| `Superblock.FieldsDescribe` | kernel/fs/fs.c:38-46 | the areas that the superblock names are those of the model: the log behind the superblock, the inodes behind the log, the bitmap behind the inodes |
| `Superblock.AreasApart` | kernel/fs/fs.c:38-46 | no block of the log is the boot block, the superblock, a block of inodes or the bitmap |
| `Superblock.FieldsBack` | kernel/fs/fs.c:48-52 | the fields of the superblock read back as they were stored |
| `BufferCache.SpliceIsMoveToFront` | kernel/fs/bio.c:92-107 | relinking four prev and next pointers moves one buffer to the front of the ring and keeps the order of the rest |
| `BufferCache.MoveToFrontOrdered` | kernel/fs/bio.c:92-107 | the moved order is again a permutation of all buffers with its inverse |
| `Recency.OrderOfUse` | kernel/fs/bio.c:92-107 | over any sequence of releases the list is in order of use: of two buffers the one released later stands in front, those never released stand behind as they did |
| `BufferCache.SomeBufferFree` | kernel/fs/bio.c:37-67 | if fewer than 30 blocks are held or pinned, a buffer with reference count 0 exists |
| `BufferCache.BusyIsCached` | kernel/fs/bio.c:110-117 | every held or pinned block is in the cache |
| `BufferCache.IdleIsClean` | kernel/fs/bio.c:92-107 | a block that is neither held nor pinned is on the disk as it was last given |
| `BufferCache.HeldIsLatest` | kernel/fs/bio.c:70-82 | a held buffer holds the latest contents of its block |
| `BufferCache.Scan` | kernel/fs/bio.c:41-50 | the search along the ring finds the buffer of a block exactly if there is one |
| `BufferCache.Victim` | kernel/fs/bio.c:52-66 | the search from the back finds the least recently used buffer that nobody references |
| `BufferCache.Cache.constructor` | kernel/fs/bio.c:19-34 | the initial ring is in order and nothing is cached |
| `BufferCache.Cache.BGet` | kernel/fs/bio.c:37-67 | returns the one buffer of the block, from the cache or by taking over a clean one, and disturbs no other |
| `BufferCache.Cache.BRead` | kernel/fs/bio.c:70-82 | the buffer holds the latest written or logged contents of its block |
| `BufferCache.Cache.BWrite` | kernel/fs/bio.c:84-90 | exactly this block of the disk becomes what its buffer holds |
| `BufferCache.Cache.BRelse` | kernel/fs/bio.c:92-107 | one holder less; the last one moves the buffer to the front; contents stay |
| `BufferCache.Cache.BPin` | kernel/fs/bio.c:110-113 | the block counts as pinned and stays cached |
| `BufferCache.Cache.BUnpin` | kernel/fs/bio.c:115-118 | a pin less; a block that is on the disk may be evicted again |
| `WriteAheadLog.CommitStages` | kernel/fs/log.c:177-185 | every disk during a commit recovers to all of the old or all of the new data, with one switch-over |
| `WriteAheadLog.RecoveryStages` | kernel/fs/log.c:106-111 | every disk during recovery recovers to the same data |
| `WriteAheadLog.OnlyLoggedChanged` | kernel/fs/log.c:150-169 | outside the log, installing changes exactly the logged blocks |
| `WriteAheadLog.IndexOf` | kernel/fs/log.c:158-162 | the position of a block in the transaction, or its length |
| `WriteAheadLog.Log.RoomForOneMore` | kernel/fs/log.c:150-169 | with fewer than 29 logged blocks and one buffer held, a free buffer remains |
| `WriteAheadLog.Log.PinsLeaveRoom` | kernel/fs/log.c:75-102 | with all 29 blocks of a transaction pinned, a commit still has a buffer to work with |
| `WriteAheadLog.LoadHeader` | kernel/fs/log.c:47-57 | the loop loads exactly the entries of the header |
| `WriteAheadLog.FillHeader` | kernel/fs/log.c:61-72 | the loop stores exactly the header |
| `WriteAheadLog.Log.constructor` | kernel/fs/log.c:35-44 | log_init leaves the recovered disk, and every disk on the way recovers to it |
| `WriteAheadLog.Log.ReadHead` | kernel/fs/log.c:47-57 | the list in memory is the one in the header block |
| `WriteAheadLog.Log.WriteHead` | kernel/fs/log.c:61-72 | one disk write puts the list into the header block |
| `WriteAheadLog.Log.WriteLog` | kernel/fs/log.c:75-86 | the log blocks get the latest contents of the logged blocks, in order |
| `WriteAheadLog.Log.InstallTrans` | kernel/fs/log.c:89-102 | every logged block gets its logged contents; after a commit it is unpinned |
| `WriteAheadLog.Log.RecoverFromLog` | kernel/fs/log.c:106-111 | the disk becomes the recovered one |
| `WriteAheadLog.Log.BeginOp` | kernel/fs/log.c:114-127 | one poll: admits the caller exactly if nothing is outstanding, logged or committing |
| `WriteAheadLog.Log.LogWrite` | kernel/fs/log.c:150-169 | the block is in the transaction once and its buffer pinned |
| `WriteAheadLog.Log.Commit` | kernel/fs/log.c:177-185 | disk and latest contents agree afterwards; every disk on the way recovers to all or nothing and has the old boot block and superblock |
| `WriteAheadLog.Log.EndOp` | kernel/fs/log.c:130-147 | the last operation out commits; the data of a finished operation is on the disk |
| `WriteAheadLog.Log.ReadBlock` | kernel/fs/bio.c:70-107 | the bytes of a block are the latest ones, and nothing changes |
| `WriteAheadLog.Log.UpdateBlock` | kernel/fs/log.c:150-169 | exactly this block gets new contents, pinned until the commit |
| `DiskFormat.HeaderAt` | kernel/fs/log.c:13-16 | the log header is a count and then block numbers, four bytes each, lowest byte first |
| `DiskFormat.InodeBytes` | include/fs/fs.h:34-42 | the fields of an inode at their byte offsets within its 64 bytes |
| `DiskFormat.InodePlace` | include/fs/fs.h:67-71 | inode i is in block 32 + i / 16 |
| `DiskFormat.BitmapAt` | kernel/fs/fs.c:112-117 | bit b % 8 of byte b / 8 of the bitmap stands for block b |
| `DiskFormat.EntryBytes` | include/fs/fs.h:59-65 | an entry is an eight-byte inode number, lowest byte first, and the characters of the name |
| `Layout.InodeRoundTrip` | include/fs/fs.h:35-42 | a stored inode reads back, and the other inodes of its block stay |
| `Layout.FlipOneBit` | kernel/fs/fs.c:105-150 | setting or clearing a bitmap bit changes exactly that bit |
| `Files.LinkInInode` | kernel/fs/fs.c:313-324 | a fresh block in an empty pointer of an inode keeps the ownership invariant |
| `Files.LinkInBlock` | kernel/fs/fs.c:326-340 | a fresh block in an empty entry of an indirect block keeps the ownership invariant |
| `Files.LinkKeepsBytes` | kernel/fs/fs.c:313-341 | adding a zeroed block beyond the data changes no byte of any file |
| `Files.DataWriteBytes` | kernel/fs/fs.c:405-432 | writing one owned block changes exactly the bytes of its place in its file |
| `Files.TruncateKeeps` | kernel/fs/fs.c:344-370 | after giving up the blocks of one inode, the invariant holds and other files keep their bytes |
| `Files.ReleasedBlocks` | kernel/fs/fs.c:344-370 | the blocks that become free are exactly those the inode owned |
| `Files.InodeStored` | kernel/fs/fs.c:269-285 | writing one inode into its block leaves all others and the rest of the disk meaning the same |
| `Files.WriteIsSplice` | kernel/fs/fs.c:405-440 | writing block by block and raising the size is a splice of the byte sequence |
| `Files.ReadAfterWrite` | kernel/fs/fs.c:373-440 | what was written is read back, every other byte stays, and the file is as long as it has to be |
| `Files.SamePtrsKeep` | kernel/fs/fs.c:313-341 | the invariant depends on pointers and bitmap only |
| `FileSystem.Volume.FsAlloc` | kernel/fs/fs.c:105-133 | takes the first free block, marks it and zeroes it; fails only if no block is free |
| `FileSystem.Volume.FsFree` | kernel/fs/fs.c:136-150 | exactly this block becomes free; callers never meet a free one |
| `FileSystem.Volume.Bmap` | kernel/fs/fs.c:313-341 | the block of a file block; new ones are fresh; an existing one is found without changing anything |
| `FileSystem.Volume.BmapIndirect` | kernel/fs/fs.c:326-340 | the same through the indirect block |
| `FileSystem.Volume.IUpdate` | kernel/fs/fs.c:269-285 | the inode on disk is the one in memory, and nothing else changes |
| `FileSystem.Volume.ReadI` | kernel/fs/fs.c:373-402 | the clipped slice of the file; works outside of an operation since it never allocates |
| `FileSystem.Volume.WriteI` | kernel/fs/fs.c:405-440 | a splice at the offset with size the maximum of old and new end; other files keep their bytes; refuses exactly offsets past the end and sizes past the maximum; panics exactly if the file needs more blocks than are free, with the disk as it was |
| `FileSystem.Volume.WriteLoop` | kernel/fs/fs.c:416-432 | the loop writes exactly the source and logs at most one block per file block and two more; stops only if the file needs more blocks than are free |
| `Files.FreeHasNothing` | kernel/fs/fs.c:153-186 | a free inode has no size and no block |
| `Files.RekindKeeps` | kernel/fs/fs.c:153-186 | an inode without blocks may become any other one without blocks |
| `FileSystem.Volume.ILock` | kernel/fs/fs.c:234-260 | the inode in memory is the one on disk, and nothing changes |
| `FileSystem.Volume.IAlloc` | kernel/fs/fs.c:153-186 | the first free inode gets its kind on disk, and no file changes; fails exactly if none is free |
| `FileSystem.Volume.IFree` | kernel/fs/fs.c:295-300 | the blocks of the inode and the inode are free, and no other file changes |
| `FileSystem.Volume.ITrunc` | kernel/fs/fs.c:344-370 | frees exactly the blocks the inode owns, empties it, and changes no other file |
| `Space.OwnedIsSize` | kernel/fs/fs.c:313-341 | an inode owns exactly the blocks its size asks for, the indirect block among them |
| `Space.FreeIsRest` | kernel/fs/fs.c:105-150 | the free blocks are exactly those that no file asks for by its size |
| `Space.StopsShort` | kernel/fs/fs.c:416-432 | a write that stops for lack of a block needs more blocks than were free when it began |
| `OpenFile.ChunkFits` | kernel/fs/file.c:89-131 | a chunk of at most 13 KiB logs at most 17 blocks, wherever it starts |
| `OpenFile.LogIsIrrelevant` | kernel/fs/log.c:89-111 | the log area means nothing to files, so a recovered disk means the same |
| `OpenFile.WriteChunk` | kernel/fs/file.c:101-121 | one transaction: the chunk is in the file or nothing changed, and every crash recovers to one or the other; panics exactly for lack of blocks, with the disk as it was |
| `OpenFile.FileRead` | kernel/fs/file.c:69-86 | the clipped slice at the offset, which moves on by what was read |
| `OpenFile.NextWrite` | kernel/fs/file.c:105-124 | one round: the file has one chunk more or the loop ends, and every disk recovers to whole chunks |
| `OpenFile.FileWrite` | kernel/fs/file.c:89-131 | the chunked loop is one splice of what the largest file has room for in whole chunks; panics exactly if that needs more blocks than are free; every disk during it, also at the panic of a full disk, recovers to a file system in order with a whole number of chunks written and all other files as they were |
| `Mount.Boot` | kernel/fs/fs.c:98-101 | from any well-formed disk with the magic number, recovery leaves a file system in order with exactly the recovered data, and the superblock as it was |
| `Mount.BootAfterWrite` | kernel/fs/file.c:89-131 | any disk a file_write can leave boots to a file system with a whole number of chunks written |
| `Mount.CreateInode` | kernel/fs/fs.c:153-186 | ialloc in its transaction: all or nothing at every crash; panics exactly without a free inode |
| `Mount.RemoveInode` | kernel/fs/fs.c:288-304 | the freeing of an inode in its transaction: all or nothing at every crash |
| `Mount.Perform` | kernel/fs/fs.c:153-440 | each operation does what it should to the files, and panics exactly for lack of an inode or of blocks, with the disk as it was |
| `Mount.Replay` | kernel/fs/fs.c:153-440 | in every history from formatting on, every state is in order and the result of its operation, and every disk at every moment boots, with the magic number in place |
| `Mount.MarkedBits` | kernel/fs/fs.c:71-77 | the marking loop marks the first n blocks and keeps the other marks |
| `Mount.FormattedIsConsistent` | kernel/fs/fs.c:62-80 | a disk with the system blocks marked and no inodes satisfies the file-system invariant |
| `Mount.FirstBoot` | kernel/fs/fs.c:58-80 | the first boot from a formatted disk is in order, with no inode in use, and every disk during it boots |
| `Directories.StandsFor` | kernel/fs/fs.c:443-463 | wherever a name stands in a directory, looking it up finds it |
| `Directories.PutIsInsert` | kernel/fs/fs.c:466-492 | a new entry extends the directory as a finite map by exactly its name, and names stay unique |
| `Directories.ClearIsRemove` | kernel/syscall/sysfile.c:264-266 | clearing a slot removes exactly its name from the map |
| `Directories.SumChange` | kernel/syscall/sysfile.c:42-83 | replacing one inode changes the entry counts by that inode's share |
| `LinkCounts.NamedHasLinks` | kernel/syscall/sysfile.c:254-255 | whatever a reachable directory names has links, so counts that fit their short never make unlink panic |
| `LinkCounts.NotNamed` | kernel/fs/fs.c:153-186 | an inode without links is named in no reachable directory |
| `LinkCounts.EmptyHasOneLink` | kernel/syscall/sysfile.c:14-25 | isdirempty is exact: free slots from 2 on mean no subdirectory and one link |
| `LinkCounts.NewFileKeeps` | kernel/syscall/sysfile.c:60-82 | creating a file keeps tree and link counts |
| `LinkCounts.NewDirKeeps` | kernel/syscall/sysfile.c:60-82 | creating a directory keeps tree and link counts, the parent paying for the new ".." |
| `LinkCounts.MoreLinksKeeps` | kernel/syscall/sysfile.c:357-372 | a hard link keeps tree and link counts |
| `LinkCounts.RemoveKeeps` | kernel/syscall/sysfile.c:264-275 | unlink keeps tree and link counts, for files and for empty directories |
| `LinkCounts.ReclaimKeeps` | kernel/fs/fs.c:288-304 | freeing an inode without links keeps the tree |
| `LinkCounts.FreshTreeOk` | kernel/fs/fs.c:83-96 | the tree with nothing but the root and its dots is in order |
| `Paths.WordThenRest` | kernel/fs/fs.c:495-514 | a name up to a slash is the first part of a path, cut to 13 characters |
| `Paths.PartsOfJoin` | kernel/fs/fs.c:495-514 | names joined by slashes come apart into those names |
| `Paths.SkipElem` | kernel/fs/fs.c:495-514 | the next part of the path split at slashes, empty parts dropped, its first 13 characters, and the position of the one after |
| `Namespace.Inodes.IGet` | kernel/fs/fs.c:189-225 | one more reference to the one entry of the inode, or a claimed free entry; fails only with all entries in use |
| `Namespace.FullHasNoRoom` | kernel/fs/fs.c:205-215 | iget finds no entry only if as many inodes are referenced as the cache has entries |
| `Namespace.Inodes.IDup` | kernel/fs/fs.c:228-231 | one more reference |
| `Namespace.Inodes.ILock` | kernel/fs/fs.c:234-260 | loads the inode; panics only for no reference or a free inode |
| `Namespace.Inodes.IPut` | kernel/fs/fs.c:288-304 | one reference less; the last one frees an inode without links, never the root |
| `Namespace.ParentIsWalk` | kernel/fs/fs.c:517-558 | the parent of a path is what all names but the last lead to, if it is a directory |
| `Namespace.TreesAreSafe` | kernel/fs/fs.c:443-463 | everything a reachable directory names may be walked to |
| `FileNames.DirLookup` | kernel/fs/fs.c:443-463 | the slot of the name, if there is one, and one reference to what it names; panics only with a full inode cache |
| `FileNames.DirLink` | kernel/fs/fs.c:466-492 | adds the name exactly if it is absent; otherwise nothing changes and no reference is left; panics with an absent name exactly if the directory is at its largest or needs more blocks than are free, and else only with a full inode cache |
| `FileNames.IsDirEmpty` | kernel/syscall/sysfile.c:14-25 | true exactly if no slot from 2 on is in use |
| `FileNames.Descend` | kernel/fs/fs.c:525-541 | one round: on to the inode of the name, or the end, with exactly one reference or none |
| `FileNames.Namex` | kernel/fs/fs.c:517-547 | the fold of directory lookup over the parts of the path; the tree stays, and every reference is given back but one to the result (and, for a relative path, one to the root); panics only without room for two inodes in the cache, three for a relative path |
| `LinkCalls.IAlloc` | kernel/fs/fs.c:153-186 | the first free inode, blank, with a reference to it; panics only if there is none or the cache is full |
| `LinkCalls.Create` | kernel/syscall/sysfile.c:42-83 | an existing file, a new file or a new directory, or failure with nothing changed; tree, counts and references stay right; panics only without a free inode, without room for two in the cache, with the directory at its largest or with too few free blocks |
| `LinkCalls.Unlink` | kernel/syscall/sysfile.c:218-280 | removes exactly the name unless it is a dot, missing or a directory in use; frees the inode exactly if links and references are gone; panics for a link count that a short shows below 1, and else only without room for two inodes in the cache |
| `LinkCalls.Link` | kernel/syscall/sysfile.c:326-384 | one more name for a file, or nothing at all: the early count is rolled back; panics only without room for three inodes in the cache, with the directory at its largest or with too few free blocks |
| `NameEffects.CreatesAlike` | kernel/syscall/sysfile.c:42-83 | create on inodes and references makes of the tree what create on the disk makes of it, and returns the same inode |
| `NameEffects.LinksAlike` | kernel/syscall/sysfile.c:326-384 | the same for link, with its return value |
| `NameEffects.UnlinksAlike` | kernel/syscall/sysfile.c:218-280 | the same for unlink, with its return value |
| `NameEffects.FailsAlike` | kernel/syscall/sysfile.c:254-255 | and with the same panic |
| `PathLaws.WalkOn` | kernel/fs/fs.c:517-547 | a walk over some names and then others is one walk after the other |
| `PathLaws.CreateLaw` | kernel/syscall/sysfile.c:42-83 | after create the path leads to the inode returned, new and of the kind asked for, and every path that led somewhere leads where it did; without a new inode the tree is the same and the result is the file that was there, or none |
| `PathLaws.OpenLaw` | kernel/syscall/sysfile.c:86-135 | what open opens is what the path leads to afterwards |
| `PathLaws.LinkIff` | kernel/syscall/sysfile.c:326-384 | link works exactly if one path leads to something but a directory, and the other nowhere but has a directory to end in |
| `PathLaws.LinkLaw` | kernel/syscall/sysfile.c:326-384 | after link both paths lead to the same inode, and every path that led somewhere leads where it did |
| `PathLaws.UnlinkIff` | kernel/syscall/sysfile.c:218-280 | unlink works exactly if the path leads somewhere, does not end in a dot, and does not lead to a directory with names besides the dots |
| `PathLaws.UnlinkLaw` | kernel/syscall/sysfile.c:218-280 | after unlink the path leads nowhere, nor does any other by the same entry; every other path leads where it did |
| `FileTable.System.AllocFile` | kernel/fs/file.c:19-33 | the first unused file with one reference, or none if all are in use |
| `FileTable.System.FdAlloc` | kernel/syscall/sysfile.c:28-39 | the first unused descriptor of the process |
| `FileTable.System.FileClose` | kernel/fs/file.c:44-60 | a reference less; files still open keep their inode; the last one gives the inode back, which is freed exactly if it has no links and no reference is left, and nothing else in the tree changes |
| `FileTable.System.Open` | kernel/syscall/sysfile.c:86-152 | the tree, the inode the descriptor names, and exactly when it fails; files open before are untouched; descriptors, open files and inode references agree afterwards; panics only as create does |
| `FileTable.System.Mkdir` | kernel/syscall/sysfile.c:196-215 | a new directory or nothing; descriptors and open files stay and references agree; panics only as create does |
| `FileTable.System.Unlink` | kernel/syscall/sysfile.c:218-280 | unlink, and descriptors, open files and references agree: an open file keeps its inode |
| `FileTable.System.Link` | kernel/syscall/sysfile.c:326-384 | link; descriptors and open files stay and references agree; panics only as link does |
| `FileTable.System.Attach` | kernel/syscall/sysfile.c:123-151 | a new file and descriptor take over the inode reference, or it is given back |
| `FileTable.System.Close` | kernel/syscall/sysfile.c:155-164 | exactly this descriptor goes; files still open keep their inode; exactly an inode whose last reference and link are gone is freed |
| `FileTable.System.Dup` | kernel/syscall/sysfile.c:309-323 | a second descriptor for the same file; of the files only counts change, and all counts agree; fails exactly for a bad descriptor or without an unused one |
| `FileTable.System.Fork` | kernel/proc/proc.c:300-305 | the child has the parent's descriptors; of the files only counts change, and all counts agree |
| `FileTable.System.Exit` | kernel/proc/proc.c:412-421 | the process has no descriptor left; files still open keep their inode; exactly the inodes whose last reference and link are gone are freed |
| `DirectoryBytes.EntryRoundTrip` | include/fs/fs.h:60-65 | an entry written, padding aside, is the entry read |
| `DirectoryBytes.ZeroEntry` | kernel/syscall/sysfile.c:264-266 | 24 zero bytes are a free slot |
| `DirectoryBytes.SpliceSlot` | kernel/fs/fs.c:466-492 | 24 bytes written at a slot of a file replace exactly that slot, or add one at the end |
| `DirectoryBytes.EntryWritten` | kernel/fs/fs.c:485-489 | an entry written into one directory changes exactly that slot of the tree on the disk |
| `DirectoryBlocks.ReadEntry` | kernel/fs/fs.c:450-452 | the bytes of a slot are read in full, so the panic of a short read never fires |
| `DirectoryBlocks.DirLookup` | kernel/fs/fs.c:443-463 | over the blocks: the first slot of the name and the inode it names, with nothing changed |
| `DirectoryBlocks.IsDirEmpty` | kernel/syscall/sysfile.c:14-25 | over the blocks: true exactly if no slot from 2 on is in use |
| `DirectoryBlocks.WriteEntry` | kernel/fs/fs.c:485-489 | writing an entry changes one slot of the tree and logs at most five blocks; panics exactly behind the last slot, for size or lack of blocks |
| `DirectoryBlocks.DirLink` | kernel/fs/fs.c:466-492 | over the blocks: adds the name exactly if it is absent, no other file changes and at most five blocks are logged; panics exactly for an absent name without a free slot, at the largest size or for lack of blocks |
| `DirectoryBlocks.NameX` | kernel/fs/fs.c:517-547 | over the blocks: the fold of directory lookup over the parts of the path, with nothing changed |
| `DirectoryBlocks.PartsFit` | kernel/fs/fs.c:495-514 | every name skipelem takes from a path fits a directory entry |
| `LinkRange.NameKeepsRoot` | kernel/syscall/sysfile.c:69-72 | the root has two links and one for each subdirectory, and a new name keeps that |
| `LinkRange.RemovedIsGood` | kernel/syscall/sysfile.c:264-275 | unlink keeps tree and counts, those of the root included |
| `LinkRange.SlotsFit` | include/fs/fs.h:60-65 | all slots of all directories fit into the blocks that inodes own |
| `LinkRange.LinksFit` | include/fs/fs.h:35-42 | no link count of a file system in order outgrows sixteen bits |
| `NamesOnDisk.NewInode` | kernel/fs/fs.c:153-186 | the first free inode of the tree on the disk becomes blank with its kind; fails exactly if there is none |
| `NamesOnDisk.MakeDots` | kernel/syscall/sysfile.c:69-75 | the parent's link and the two dots of a new directory, within the log's bound |
| `NamesOnDisk.Create` | kernel/syscall/sysfile.c:42-83 | one transaction that makes the tree on the disk the one with the new name; a new file is empty and no file changes; panics exactly without inode, slot or blocks, with the disk as it was |
| `NamesOnDisk.Link` | kernel/syscall/sysfile.c:326-384 | one transaction with its rollback: one more name and link on the disk, or the same tree, and no file changes; panics exactly without slot or blocks |
| `NamesOnDisk.Unlink` | kernel/syscall/sysfile.c:218-280 | one transaction that takes the name, its link and, with the last one and nobody having it open, the inode and its bytes off the disk, and changes no other file; panics exactly if the link count has become negative |
| `ManyLinks.UnlinkCanPanic` | kernel/syscall/sysfile.c:254-255 | a list of calls from formatting on of which all go well but the last, an unlink, which panics |
| `ManyLinks.CrowdRuns` | kernel/syscall/sysfile.c:326-384 | the calls before it, none of which panics, make three directories with up to 10923 names for one file |
| `ManyLinks.RoomLeft` | kernel/fs/fs.c:105-133 | the disk has room for such directories |
| `ManyLinks.LinksAdd` | kernel/syscall/sysfile.c:357-372 | so many new names in one directory keep the tree in order and are all counted |
| `NameHistories.EitherStore` | kernel/fs/log.c:130-185 | whatever disk a transaction leaves behind boots, to the names and bytes before it or to those after it |
| `NameHistories.FreeIsBeside` | kernel/fs/fs.c:105-150 | the free blocks are a function of the names and bytes stored |
| `NameHistories.Write` | kernel/fs/file.c:101-121 | a write to a file is a splice of its bytes in one transaction, or refused, and changes nothing else; panics exactly for lack of blocks |
| `NameHistories.Close` | kernel/fs/file.c:44-60 | the last close of a file without links takes exactly its inode and its bytes off the disk, in one transaction |
| `NameHistories.MakeRoot` | kernel/fs/fs.c:83-96 | fs_init's transaction makes the formatted tree, and has the blocks it needs |
| `NameHistories.Do` | kernel/syscall/sysfile.c:42-384 | each call does to names and bytes on the disk what it should, in one transaction, and panics exactly when it should |
| `NameHistories.ChronicleCovers` | kernel/fs/log.c:106-147 | every disk seen since the calls began comes up with the names and bytes that a prefix of them made |
| `NameHistories.Calls` | kernel/syscall/sysfile.c:42-384 | from any file system in order: the calls go well up to the first that panics, names and bytes on the disk are their fold, link counts are right after each, every disk seen on the way comes up with what was there before the call then running or after it, and has the same boot block and superblock |
| `NameHistories.Reboot` | kernel/fs/log.c:35-44 | from any disk a power failure left, what comes up is there, and every disk during recovery comes up with it too, with the same boot block and superblock |
| `NameHistories.Live` | kernel/fs/log.c:35-44 | from one power failure to the next: every disk seen comes up with what a prefix of the calls made, and has the same boot block and superblock |
| `NameHistories.ManyLives` | kernel/fs/log.c:106-147 | over any number of power failures, each at any disk seen, what comes up is what a prefix of the calls of each life made, in order, and boot block and superblock are those of the first life |
| `NameHistories.Session` | kernel/fs/fs.c:58-101 | the first life, from formatting on: before the first call a disk comes up blank or with the root, and then as in Calls, with the superblock that formatting wrote |
| `Processes.PickIsBest` | kernel/proc/proc.c:543-567 | the scan finds the highest effective priority, the smallest pid among equals, and nobody only if nobody is RUNNABLE |
| `Processes.PickFromIsBest` | kernel/proc/proc.c:546-561 | the same for the rest of the scan with its candidate so far |
| `Processes.ScanSees` | kernel/proc/proc.c:543-561 | a scan over a table in which interrupts wake sleepers between any two slots chooses the best of the processes as it saw them |
| `Processes.ScanInterrupted` | kernel/proc/proc.c:543-574 | the dispatch after such a scan is a step of a run: those seen awake are woken before it, the others after it |
| `Processes.AgingInterrupted` | kernel/proc/proc.c:513-530 | an aging loop that interrupts cut in pieces ages as if those found awake had been woken before it and the others after it |
| `Processes.SwitchInterrupted` | kernel/proc/proc.c:513-530 | a yield or a sleep with such a loop behind it is a step of a run, too |
| `ProcessSafety.BootIsSafe` | kernel/proc/proc.c:225-275 | the table after boot satisfies the invariant |
| `ProcessSafety.ExitKeeps` | kernel/proc/proc.c:391-442 | exit keeps the invariant: children get the first process, and whoever waits for this one is awake |
| `ProcessSafety.WaitKeeps` | kernel/proc/proc.c:339-380 | wait keeps the invariant: a process goes to sleep only without a zombie child |
| `ProcessSafety.ForkKeeps` | kernel/proc/proc.c:279-323 | fork keeps the invariant: the new pid is fresh and the parent alive |
| `ProcessSafety.StepKeeps` | kernel/proc/proc.c:327-642 | every step keeps the invariant |
| `ProcessSafety.RunsAreSafe` | kernel/proc/proc.c:339-614 | in every run: live parents, no sleeper in wait with a zombie child, and every exit status delivered at most once and as it was |
| `ProcessRuns.ExitsChange` | kernel/proc/proc.c:405-442 | an exit status is recorded only by exit, for the process on the processor and with the status it gives |
| `ProcessRuns.DeliveredIsExit` | kernel/proc/proc.c:339-442 | in every run from boot, a pid and status that wait delivers are those of an earlier exit of that very process |
| `ProcessRuns.KillReaches` | kernel/proc/proc.c:445-463 | kill marks and wakes the process with the pid, and changes nothing else |
| `ProcessRuns.KillWorks` | kernel/proc/proc.c:445-463 | so it does after every run from boot |
| `ProcessRuns.MarkStays` | kernel/proc/proc.c:107-133 | a killed process stays so at every step, until wait frees its slot |
| `ProcessRuns.KilledForGood` | kernel/proc/proc.c:107-133 | and so over runs |
| `BoundedWaiting.StepAges` | kernel/proc/proc.c:505-530 | only a switch to the scheduler ages a process, by at most one |
| `BoundedWaiting.NobodyOlder` | kernel/proc/proc.c:38-48 | new processes have larger pids than all before |
| `BoundedWaiting.PassedOverBy` | kernel/proc/proc.c:543-567 | a process at the cap loses only to an older one at the cap |
| `BoundedWaiting.WindowBound` | kernel/proc/proc.c:505-585 | from the cap on, a process is passed over by each older one at most once |
| `BoundedWaiting.BoundedWait` | kernel/proc/proc.c:505-585 | with m older processes of static priority at most P and m + P <= 15, a RUNNABLE process is passed over at most 15 - priority + m times |
| `Starvation.YoungestLoses` | kernel/proc/proc.c:505-567 | with the boosts spread up to the cap, some older process is at the cap and is chosen |
| `Starvation.SetupSpreads` | kernel/proc/proc.c:225-323 | a run from boot forks the crowd and lets it age until the boosts are spread |
| `Starvation.AgingCanStarve` | kernel/proc/proc.c:505-585 | for every m and P with m + P >= 16 a run from boot leads to a state from which a process is passed over any number of times |
| `ProcTable.Kernel.Choose` | kernel/proc/proc.c:543-561 | the scanning loop returns the best RUNNABLE process, or none if there is none |
| `ProcTable.Kernel.Dispatch` | kernel/proc/proc.c:543-574 | the best process runs, without boost and channel, and no other slot changes; keeps the invariant |
| `ProcTable.Kernel.BoostWaiting` | kernel/proc/proc.c:513-530 | every RUNNABLE process but the last to run ages by one up to the cap |
| `ProcTable.Kernel.Yield` | kernel/proc/proc.c:327-334 | the caller is RUNNABLE, everybody else RUNNABLE ages by one up to the cap; keeps the invariant |
| `ProcTable.Kernel.Sleep` | kernel/proc/proc.c:588-606 | the caller sleeps on the address, everybody RUNNABLE ages; keeps the invariant |
| `ProcTable.Kernel.WakeAll` | kernel/proc/proc.c:617-630 | exactly those asleep on the address, but for the caller, become RUNNABLE; keeps the invariant |
| `ProcTable.Kernel.Reparent` | kernel/proc/proc.c:392-402 | all children go to the first process, which is woken if there are any |
| `ProcTable.Kernel.Exit` | kernel/proc/proc.c:405-442 | the caller is a zombie with the status given, its children have the first process for their parent, whoever waited for it is awake, and everybody RUNNABLE ages; keeps the invariant |
| `ProcTable.Kernel.ScanChildren` | kernel/proc/proc.c:349-369 | the first zombie child, and whether there are children |
| `ProcTable.Kernel.Wait` | kernel/proc/proc.c:339-380 | frees the first zombie child and delivers its pid and status, or goes to sleep with children left and no zombie, or gives up; a status delivered is that of the child's own exit and was not delivered before |
| `ProcTable.Kernel.FindUnused` | kernel/proc/proc.c:64-72 | the first unused slot |
| `ProcTable.Kernel.FindPid` | kernel/proc/proc.c:449-461 | the first slot with the pid |
| `ProcTable.Kernel.Fork` | kernel/proc/proc.c:279-323 | fills the first free slot with the parent's priority and boost and the next pid, larger than all live ones; fails exactly with a full table |
| `ProcTable.Kernel.Kill` | kernel/proc/proc.c:445-463 | marks the first slot with the pid and makes it RUNNABLE if it sleeps; no other field or slot changes; fails exactly without such a slot |
| `ProcTable.Kernel.SetPriority` | kernel/proc/proc.c:632-642 | sets the caller's priority and clears its boost, and nothing else; refuses exactly values out of range |
| `Locks.Processor.PushOff` | kernel/lib/spinlock.c:7-15 | interrupts off, and the state found is remembered at depth 0 only |
| `Locks.Processor.PopOff` | kernel/lib/spinlock.c:18-28 | interrupts come back exactly at depth 0 if they were on; panics exactly if they are on or the depth is 0 |
| `Locks.Processor.Acquire` | kernel/lib/spinlock.c:48-69 | fails exactly for a lock already held; noff counts the locks held |
| `Locks.Processor.Release` | kernel/lib/spinlock.c:72-97 | the last release brings back the interrupt state found at the first acquire |
| `Locks.Processor.Sched` | kernel/proc/proc.c:486-503 | succeeds exactly with the process's own lock held and no other; the scheduler releases it |
| `Locks.Processor.Yield` | kernel/proc/proc.c:327-334 | panics exactly if the process holds a lock |
| `Locks.Processor.Tick` | kernel/trap/trap_user.c:60-66 | the trap turns interrupts off, and its yield never panics: no lock is held when it is taken |
| `Locks.Processor.Sleep` | kernel/proc/proc.c:588-614 | succeeds exactly with the named lock held and no other; panics otherwise |
| `Locks.Processor.SwapFor` | kernel/proc/proc.c:599-600 | from another lock to the process's own, own first |
| `Locks.Processor.Exit` | kernel/proc/proc.c:423-440 | succeeds exactly without other locks held; the scheduler is left with none, and the process is never resumed |
| `Locks.Processor.Dispatch` | kernel/proc/proc.c:563-580 | a resumed process has its own interrupt state again, after a sleep also its lock; a new one starts with interrupts on |
| `SleepLocks.SleepersStay` | kernel/proc/proc.c:588-606 | only going to sleep on an address puts a process to sleep there |
| `SleepLocks.ActKeeps` | kernel/lib/sleeplock.c:15-34 | taking and dropping sleep locks, and every other step, leave nobody asleep on a free sleep lock |
| `SleepLocks.NobodyIsEverForgotten` | kernel/lib/sleeplock.c:15-34 | in every run, whoever sleeps on a sleep lock sleeps on one that is taken |
| `SleepLocks.TakeTaken` | kernel/lib/sleeplock.c:15-24 | whoever takes a taken lock sleeps on it, and no lock changes |
| `SleepLocks.TakeFree` | kernel/lib/sleeplock.c:15-24 | whoever takes a free lock has it, and nothing else changes |
| `SleepLocks.DropFrees` | kernel/lib/sleeplock.c:27-34 | dropping a lock frees it and wakes everybody who waits for it, and changes no other lock |
| `SleepLocks.HeldUntilDropped` | kernel/lib/sleeplock.c:15-34 | a lock that is taken stays its holder's, whatever anybody does, until it is dropped |
| `SleepLocks.OneHolder` | kernel/lib/sleeplock.c:15-34 | mutual exclusion: between two takings of the same lock it is dropped |
| `PageTables.EntrySet` | include/riscv.h:302-330 | writing one entry of a page changes exactly that entry |
| `PhysicalPages.PxIsDigit` | include/riscv.h:322-324 | the indices cut out of an address are the digits of its page number |
| `PageTables.WalkFinds` | kernel/mem/kvm.c:33-46 | a walk ends at the lowest table that serves its page number |
| `PageTables.WalkPasses` | kernel/mem/kvm.c:33-46 | the walk from the root passes through every table that serves the page number |
| `PageTables.PlaceIsUnique` | kernel/mem/kvm.c:33-46 | no two pages have the same place in a tree |
| `PageTables.HangKeepsMaps` | kernel/mem/kvm.c:33-46 | allocating a lower table changes no translation of any table |
| `PageTables.StoreChangesOne` | kernel/mem/kvm.c:64-106 | writing a lowest entry changes exactly one page number of one table |
| `PageTables.FillKeeps` | kernel/mem/kvm.c:74-79 | filling an empty entry keeps the trees |
| `PageTables.ClearKeeps` | kernel/mem/kvm.c:93-104 | clearing an entry keeps the trees |
| `PhysicalPages.Popped` | kernel/mem/pmem.c:43-60 | taking the top page leaves a list of the rest |
| `PhysicalPages.Pushed` | kernel/mem/pmem.c:63-77 | giving back a page that is not on the list leaves a list with it on top |
| `PhysicalPages.FreedTwice` | kernel/mem/pmem.c:63-77 | a page pushed onto the list it is on leaves nothing that is a list of free pages |
| `PhysicalPages.NewTable` | kernel/mem/kvm.c:38-44 | taking, clearing and hanging a page keeps the trees and all translations |
| `PhysicalPages.FillGrown` | kernel/mem/kvm.c:74-79 | filling the entry maps exactly one page |
| `PhysicalPages.ClearShrunk` | kernel/mem/kvm.c:93-104 | clearing the entry unmaps exactly one page and drops its user page |
| `PhysicalPages.FreeShrunk` | kernel/mem/kvm.c:99-104 | the same with the user page given back to the list first |
| `VirtualMemory.Machine.constructor` | kernel/mem/pmem.c:26-41 | every page from ALLOC_BEGIN to PHYSTOP is on the list once |
| `VirtualMemory.Machine.PmemAlloc` | kernel/mem/pmem.c:43-60 | the top page changes hands, fails only with an empty list |
| `VirtualMemory.Machine.PmemFree` | kernel/mem/pmem.c:63-77 | keeps the list, with the page on top, exactly if the page was not on it; panics exactly for unaligned and foreign addresses |
| `VirtualMemory.Machine.GetPte` | kernel/mem/kvm.c:33-46 | the entry of the address; allocation changes no translation; without it nothing changes |
| `VirtualMemory.Machine.GetPa` | kernel/mem/kvm.c:51-62 | the flat map at a user page below MAXVA, else 0 |
| `VirtualMemory.Machine.MapPages` | kernel/mem/kvm.c:64-83 | maps exactly its range, which was empty, with exactly the permissions given and the valid bit, and moves no other translation; fails only for an empty length, an exhausted list or a mapped page |
| `VirtualMemory.Machine.UnmapPages` | kernel/mem/kvm.c:85-106 | unmaps exactly the pages of its loop; succeeds exactly if they are all leaves; with freeing, exactly their pages go back |
| `VirtualMemory.UnmapCovers` | kernel/mem/kvm.c:92-93 | the loop covers the range exactly if the rounded length is below 2 GiB |
| `VirtualMemory.UnmapsNothing` | kernel/mem/kvm.c:92-93 | 2 GiB at address 2 GiB: nothing is unmapped |
| `VirtualMemory.MapUnmapRoundTrip` | kernel/mem/kvm.c:64-106 | mapping a range and unmapping it leaves every translation as it was |
| `VirtualMemory.HistoryIsFlat` | kernel/mem/kvm.c:64-106 | over any sequence of calls on any tables every table equals a plain map |
| `Hardware.HardwareAgrees` | include/riscv.h:302-330 | for every address below MAXVA the processor, walking the bytes of the tables, finds the entry that the flat map says |
| `Hardware.PermissionsGiven` | kernel/mem/kvm.c:78-79 | an entry made from a page and permissions leads to that page and gives exactly these permissions |
| `PageTrees.SubtreeDistinct` | kernel/mem/uvm.c:11-30 | destroy_pgtbl meets no page twice |
| `PageTrees.AllPagesMet` | kernel/mem/uvm.c:11-30 | destroy_pgtbl meets every page of the tree |
| `PageTrees.TreeListed` | kernel/mem/uvm.c:11-30 | the pages it meets are exactly those of the tree, each once |
| `UserMemory.DestroySubtree` | kernel/mem/uvm.c:11-30 | gives back exactly the pages of the subtree, children first, while it overwrites them |
| `UserMemory.DestroyPgtbl` | kernel/mem/uvm.c:33-38 | every table page and user page goes back once; trampoline, trapframe and everything else stay; other tables keep their translations |
| `ProcessMemory.PgtblInit` | kernel/proc/proc.c:144-164 | a table with the trampoline (valid, read, execute) and the trapframe given (valid, read, write), for the kernel, and nothing else; nothing in use changes |
| `ProcessMemory.CopyPgtbl` | kernel/mem/uvm.c:41-71 | every page below heap_top has the parent's bytes and flags on a page that was free; nothing else changes; fails only for a missing or already mapped page or an exhausted list |
| `ProcessMemory.CopyIsUserTable` | kernel/proc/proc.c:279-292 | the copy is again a table that uvm_destroy_pgtbl takes apart completely |
| `ProcessLife.GrowOne` | kernel/mem/uvm.c:83-89 | one page from the list, cleared, is mapped for the user where nothing was; nothing else moves |
| `ProcessLife.GrewKeepsUserTable` | kernel/mem/uvm.c:83-89 | user pages below the trapframe keep a table one that uvm_destroy_pgtbl takes apart completely |
| `ProcessLife.HeapGrow` | kernel/mem/uvm.c:75-95 | every page from the rounded old top to the new one is a blank user page of its own, and nothing else moves; panics only for an exhausted list or a mapped page, the trapframe among them |
| `ProcessLife.TwoLives` | kernel/mem/uvm.c:11-95 | make, grow, copy and destroy two tables: exactly the pages that were free are free again |
| `UserCopy.CopyIn` | kernel/mem/uvm.c:112-131 | 0 exactly if every byte is in a user page below MAXVA; the bytes are those behind the addresses, up to the first bad page |
| `UserCopy.CopyOut` | kernel/mem/uvm.c:135-155 | 0 exactly if every byte is; exactly the bytes behind the addresses change in all of memory |
| `UserCopy.CopyString` | kernel/mem/uvm.c:174-187 | the bytes of one page up to the first zero, and with it |
| `UserCopy.CopyInStr` | kernel/mem/uvm.c:160-189 | the bytes behind the addresses up to the first zero, the limit or the first bad page |
| `UserCopy.OutThenIn` | kernel/mem/uvm.c:112-155 | what was copied out is what a copy in reads |
| `UserCopy.UserPageHangs` | kernel/mem/kvm.c:51-62 | a user translation leads to the page that hangs at that page number |
| `Virtqueue.AtMostTwo` | kernel/dev/virtio_disk.c:164-176 | at most two requests are in flight, and three descriptors are free exactly with fewer |
| `Virtqueue.IndicesSuffice` | include/dev/virtio.h:68-86 | 16-bit indices tell empty from non-empty and select the right slot, wrapped or not |
| `Virtqueue.SubmitKeeps` | kernel/dev/virtio_disk.c:206-237 | submitting keeps partition, counts and rings |
| `Virtqueue.FetchKeeps` | include/dev/virtio.h:68-73 | the device finds exactly the oldest queued request |
| `Virtqueue.CompleteMeans` | kernel/dev/virtio_disk.c:206-237 | following its descriptors, and storing only where their flags allow, the device moves exactly the bytes of the block of the request and sets its status |
| `Virtqueue.CompleteKeeps` | include/dev/virtio.h:77-86 | completing keeps the invariant |
| `Virtqueue.ConsumeFinds` | kernel/dev/virtio_disk.c:179-195 | the next completion is that of a finished request, with status 0 |
| `Virtqueue.ConsumeKeeps` | kernel/dev/virtio_disk.c:179-195 | consuming clears the flag of its own buffer and of no other |
| `Virtqueue.FinishKeeps` | kernel/dev/virtio_disk.c:239-244 | freeing the chain keeps the invariant |
| `VirtioDisk.RunsAreSafe` | kernel/dev/virtio_disk.c:124-244 | under every interleaving free descriptors and requests partition the table, and at most two requests are in flight |
| `VirtioDisk.SubmittedIsOnItsWay` | kernel/dev/virtio_disk.c:197-237 | a submitted request carries the bytes of its buffer, and what its block held |
| `VirtioDisk.RequestIsServed` | kernel/dev/virtio_disk.c:197-244 | virtio_disk_rw as a whole: whatever else driver and device do, once its flag is down a write has left its bytes in the block, and a read the block's bytes in the buffer |
| `VirtioDisk.Driver.AllocDesc` | kernel/dev/virtio_disk.c:124-134 | the first free descriptor, or none |
| `VirtioDisk.Driver.FreeDesc` | kernel/dev/virtio_disk.c:136-148 | the descriptor is blank and free; panics exactly for a bad or free one |
| `VirtioDisk.Driver.FreeChain` | kernel/dev/virtio_disk.c:150-162 | exactly the three descriptors of the chain are freed |
| `VirtioDisk.Driver.GiveBack` | kernel/dev/virtio_disk.c:169-173 | giving the descriptors back restores everything |
| `VirtioDisk.Driver.Alloc3` | kernel/dev/virtio_disk.c:164-176 | three descriptors exactly if three are free, else everything as before |
| `VirtioDisk.Driver.ProcessUsed` | kernel/dev/virtio_disk.c:178-195 | every completion is consumed once; exactly their buffers' flags go down; never panics |
| `VirtioDisk.Driver.Submit` | kernel/dev/virtio_disk.c:197-237 | succeeds exactly with fewer than two in flight; the request holds the bytes of its buffer |
| `VirtioDisk.Driver.FinishRequest` | kernel/dev/virtio_disk.c:239-244 | three descriptors are free again, and the buffer holds the bytes that were moved |
| `VirtioDisk.Driver.DeviceFetch` | include/dev/virtio.h:68-73 | the device finds a request exactly if one is queued; it is the oldest, is then fetched, and buffers and disk stay |
| `VirtioDisk.Driver.DeviceComplete` | kernel/dev/virtio_disk.c:206-237 | a write puts the submitted bytes on the disk, a read the disk's bytes into the buffer |

## Left out

- Formatting (`fs_init`, kernel/fs/fs.c:20-102): not crash atomic as a whole; the model starts from a disk with its system blocks marked (`Mount`), not from the writes that make it, and adds the transaction that makes the root (`MakeRoot`).
- Disks whose superblock has the magic number but other sizes: the source takes the areas from the superblock it reads; the model takes those that fs_init writes, and shows that the superblock stays as it is.
- Boot, CSR access, trap entry, `swtch.S`, UART, PLIC, timer, console, `printf`: hardware effects and output. A switch is a step that changes the running thread.
- `virtio_disk_init` and failing device statuses: the queue starts initialised, and the device always reports success, so the driver's status panic is shown not to fire.
- Failing user copies inside `readi` and `writei`: sources and targets are kernel bytes; user copies are modelled by themselves in `UserCopy`.
- Several processors: the build has one (`NCPU` is 1). Operations of proc.c are single steps. Most run with interrupts off from first lock to switch; fork drops its lock in between. The scheduler's scan, the aging loop after it and proc_kill let interrupts in between slots: in the scheduler these can only wake sleepers, which steps for single slots cover (`ScanInterrupted`, `AgingInterrupted`), and proc_kill changes one slot, under its lock.
- Interleaved file-system operations: `begin_op` admits one at a time, and they take no locks.
- References to in-core inodes and blocks of the disk in one model: `LinkCalls` and `FileTable` count references over a tree of values, `NamesOnDisk` has the bytes and takes "open elsewhere" as an argument, as the former take the number of free blocks; the lemmas `CreatesAlike`, `LinksAlike` and `UnlinksAlike` join the two.
- VirtualMemory.Machine.MapPages: does not speak of a user mapping to a page that is not freshly allocated, because the kernel never shares user pages; the source would accept it.
- VirtualMemory.Machine.UnmapPages: does not speak of freeing what a kernel-only leaf leads to, because no caller does; the source would give that page to the list.
- ProcessMemory.CopyPgtbl: does not speak of a heap_top above the trapframe, because user memory ends below it; the source would copy the trapframe and then panic on the child's.
- UserMemory.DestroySubtree: requires that nobody else holds the pages, because the source frees whatever the entries lead to.
- `nextpid` as a 32-bit int: an unbounded number here.
- `proc_kill` on the pid of a slot that is free: the step changes only the stale slot's flag, and a later fork inherits it, as in the source.
- ProcessLife.HeapGrow: takes a heap top at or below the trapframe, because growing never gets beyond it.
- `uvm_heap_ungrow` (kernel/mem/uvm.c:99-108): one call of `vm_unmappages`.
- System-call dispatch and argument fetching, `sys_fstat`, `file_stat`, device inodes, `proc_create`: plumbing or stubs.
- Buffers across `bmap`: the source keeps the indirect block's buffer while it allocates; the model reads it again, which the cache theorem makes the same bytes.
- Kernel buffers of user copies: they are values outside of the user's pages, so overlap is not modelled.
- `vm_print`, `kvm_create`, `proc_mapstacks`: output, and calls of `vm_mappages` with fixed arguments.
- Sleeping in `proc_wait` and in sleep locks: each pass of the retry loop is a step of its own; that a waiter eventually runs again is shown only as far as `BoundedWait` says.
