# MOFS in Dafny

MOFS is a small block file system written in C. A volume has a superblock, an inode bitmap, a data bitmap, an inode table
and a data region. A file maps its blocks through an on-disk chain of list nodes, and everything goes through a write-back
LRU block cache. This project models the core and proves what it keeps over every run.

The model is a stack. Each layer calls only the one below and is proved against the abstract value of the one above.

| layer | files | abstract value |
|---|---|---|
| device with faults | `Device.dfy` | blocks, a verdict per transfer |
| LRU pools and the cache (unified, split, off) | `Lru.dfy`, `Pool.dfy`, `BlockCache.dfy`, `CacheRuns.dfy` | one array of blocks (`view`), recency lists |
| bitmaps and inode table | `Bytes.dfy`, `Layout.dfy`, `Mapping.dfy`, `Volume.dfy` | `Vol`: bits, inode records, data blocks |
| list nodes and the allocator | `ListNodes.dfy`, `Ownership.dfy`, `Accounting.dfy`, `Allocator.dfy` | a ledger that gives each block one owner |
| files | `FileBytes.dfy`, `FileData.dfy`, `FileOps.dfy`, `ByteFiles.dfy`, `FileRuns.dfy` | byte strings and a count of free blocks |
| directories | `Dirents.dfy`, `DirOps.dfy`, `Namespace.dfy`, `TreeShape.dfy`, `TreeOps.dfy`, `Rename.dfy` | directory slots, a tree rooted at inode 2 |
| the world | `World.dfy`, `Path.dfy`, `WorldSteps.dfy` | per inode a name map or a byte string, link counts, a count of free blocks |
| sessions, format, mount | `Session.dfy`, `Meaning.dfy`, `Readdir.dfy`, `Format.dfy`, `Mount.dfy` | runs of public operations on the world |
| beside the stack | `DiskFormat.dfy`, `SectorIo.dfy`, `Locking.dfy` | the bytes of the device; a byte array over sectors; operations in lock order |
| states and runs that show a defect | `Witnesses.dfy`, `Scenarios.dfy` | |

Main results:

- **Ownership.** Every set bit of the data bitmap belongs to exactly one place in one file's mapping (`Ownership.OneOwner`), the
  disk admits one such assignment only (`Ownership.LedgerUnique`), free blocks and mapped blocks add up to the data region
  (`Accounting.NothingLost`), and allocation and release keep this on success and on every no-space return
  (`Allocator.Allocate`, `Allocator.Free`), each with the exact condition for success.
- **Cache.** With every device fault allowed, the cache is one array of blocks. Without faults all three builds answer a run of
  reads, writes, patches and invalidations as a plain array does if the run writes again what it dropped before it reads it
  (`CacheRuns.Replay`), and for every other run there is a device and a cache on which it does not (`CacheRuns.Exposed`). Each
  pool holds the most recently used blocks of its side, and a larger pool contains a smaller one.
- **Files.** Reads, writes and truncates are the operations on byte strings. Every no-space return of allocation, write, growing
  truncate, create and mkdir leaves bitmap, block mappings and contents as they were.
- **Directories.** Create, mkdir, unlink, rmdir and every outcome of rename keep a tree in which `..` names the parent and links
  count child directories. The ancestor walk decides descent exactly.
- **Sessions.** Any sequence of path operations keeps all invariants at once. A session that skips no block when it writes and
  finds room when it shrinks answers, command by command, as the session on the world does: name maps, byte strings, link
  counts and the number of free blocks (`Sessions.RunSession`). So two volumes with different cache builds cannot be told apart
  (`Sessions.BuildsAgree`), although each drops released blocks unwritten and hands them to the next file.
- **Meaning.** What each public operation answers and does by path is told from the items of the world and the byte values and
  numbers of the format alone: bytes one by one, kinds, names, links, free blocks, every error with its condition
  (`Meanings.WriteMeans`, `Meanings.MakeMeans`, `Meanings.RmdirMeans`, `Meanings.RenameMoves` and their like). Every byte of a
  file, record, list node and directory entry has its place on the device (`DiskFormat.BytePlace`, `DiskFormat.ListPlace`).
- **From device to device.** Format, mount and a session together answer as the empty world does (`Mounting.FormatAndRun`), and
  a session goes on across an unmount and a mount with another build as if nothing had happened (`Mounting.RunAcrossMounts`).

Where the code does not do what its comments promise, the model follows the code:

- `add_dir_entry` that has to append a block writes back an inode record read before the allocation. The directory then counts
  one block too few, and no assignment of blocks to files explains the volume any more (`DirOps.GrowDir`, `DirOps.Add`:
  ownership is kept if and only if the directory does not grow). One file too many in the root of a fresh volume does it
  (`Scenarios.OneTooMany`).
- The root directory is formatted without `.` and `..`, so that these names can be created there. The tree is kept if and only if
  the new name is neither (`TreeOps.CreatedTree`, `Scenarios.DotInRoot`).
- A write whose first block lies beyond the end of the file allocates the blocks in between without clearing them. The gap
  reads as zeros whatever these blocks held if and only if the write starts no further out than the block after the last and
  the last block holds zeros behind the end of the file (`ByteFiles.GapExact`, `Witnesses.SkippedByteShows`). A failed shrink
  with a cache, below, is what can leave something else there (`ByteFiles.CutTailExact`, `Witnesses.TailBack`); after a flush it
  cannot (`ByteFiles.FlushedCutExact`), and tame sessions keep the zeros (`Sessions.RunSession`).
- A shrink that finds no room for the shorter list has already cleared the rest of the last kept block and dropped the cached
  contents of the blocks it was to release. The bytes are kept if and only if the cleared ones were zero and, with a cache, the
  others were on the device already (`ByteFiles.CutLostExact`, `Witnesses.TailLost`, `Witnesses.DropLost`).
- rename takes an existing destination away before the ancestor check. A rename refused with EINVAL has cost the destination if
  and only if that could be replaced and the node to be moved lies above it (`Renaming.RefusalExact`). Renaming `/a` to an empty
  `/a/b` is such a call (`Scenarios.RenameIntoChild`).
- The formatter makes a volume of the requested size whatever the size of the device, as long as metadata and root fit.
  Mounting then refuses it, unless the sizes agree (`Formatting.Format`, `Mounting.FormatAndRun`).
- The block index of a read goes through a 32-bit parameter. Offsets the public call admits are not affected
  (`FileOps.WrapExact`, `FileOps.WrappedReadDiffers`).
- A volume of five to eight blocks passes the size check of the formatter, but with five the root's list node does not fit and
  up to eight there is no third inode for the root (`Formatting.FiveBlocks`, `Formatting.PlanValid`).

## Model

| member | source | states |
|---|---|---|
| Layout.DecodeEncode | src/core/include/mofs_core.h:109-124 | an inode record read back from its 64 bytes is the record that was stored |
| Layout.SuperRoundTrip | src/core/include/mofs_core.h:86-101 | the superblock read back from the start of block 0 is the one that was written there |
| Layout.PatchedBit | src/core/modules/mofs_block.c:485-539 | patching one bit changes that index of the bitmap and no other |
| Layout.InodeAddress | src/core/modules/mofs_inode.c:326-373 | for every block size, no inode record straddles two blocks |
| Layout.InodesApart | src/core/modules/mofs_inode.c:458-524 | distinct records of one block do not overlap |
| Layout.PatchedInode | src/core/modules/mofs_inode.c:458-524 | storing a record changes that inode and leaves its block-mates alone |
| BlockDevice.Device.ReadOne | src/core/modules/mofs_block.c:904-914 | a raw read delivers the stored bytes, stops short or fails, and changes nothing |
| BlockDevice.Device.WriteOne | src/core/modules/mofs_block.c:1025-1035 | a raw write stores the block, or a torn prefix of it when it stops short or fails |
| Lru.HoldsMostRecent | src/core/modules/mofs_buffer.c:168-208 | on every trace without invalidations a pool holds exactly the most recently used distinct blocks, in order |
| Lru.LargerPoolContainsSmaller | src/core/modules/mofs_buffer.c:168-208 | on every trace, invalidations included, a larger pool holds all a smaller one does |
| Pools.WriteBackInvisible | src/core/modules/mofs_buffer.c:136-153 | writing a dirty slot back, completely or torn, changes nothing that is seen through the pool |
| Pools.LeastIsLast | src/core/modules/mofs_buffer.c:168-208 | the slot with the least tick is the least recently used one |
| Pools.Pool.Find | src/core/modules/mofs_buffer.c:114-122 | the slot of a block, or none exactly if the block is not cached |
| Pools.Pool.Touch | src/core/modules/mofs_buffer.c:101-105 | the touched slot moves to the front of the recency list |
| Pools.Pool.FlushEntry | src/core/modules/mofs_buffer.c:136-153 | one slot is written back; whatever the device does, what is seen stays the same |
| Pools.Pool.ChooseVictim | src/core/modules/mofs_buffer.c:168-208 | an empty slot if there is one, else the least recently used one |
| Pools.Pool.GetVictim | src/core/modules/mofs_buffer.c:168-208 | a slot is freed without changing what is seen; only the last of the recency list goes, and a failed write-back changes nothing |
| Pools.Pool.Load | src/core/modules/mofs_buffer_split.c:319-344 | a missed block is read into a freed slot; failures leave what is seen and at most shrink the pool |
| Pools.Pool.Fetch | src/core/modules/mofs_buffer.c:320-386 | the block through its pool: the cached copy, else the device's, and the block becomes most recent |
| Pools.Pool.Store | src/core/modules/mofs_buffer.c:406-451 | new contents go into a slot; only that block is seen differently, only evicted blocks reach the device |
| Pools.MoreSlots | src/core/modules/mofs_buffer.c:168-208 | a pool with more slots than the device has blocks always has a free one, so that nothing is evicted |
| BlockCaches.BlockCache.constructor | src/core/modules/mofs_buffer_split.c:359-399 | an empty cache shows the device |
| BlockCaches.BlockCache.ReadOne | src/core/modules/mofs_buffer.c:320-386 | a read through the pool of its side returns the view and leaves it alone, whatever faults occur |
| BlockCaches.BlockCache.WriteOne | src/core/modules/mofs_buffer.c:406-451 | a write changes the view of that block only, and with a cache not at all when it fails |
| BlockCaches.BlockCache.ReadBlocks | src/core/modules/mofs_buffer.c:320-386 | the blocks returned are the view; the read stops at the first short or failed block, and the bytes of a trailing part are a prefix of it |
| BlockCaches.BlockCache.WriteBlocks | src/core/modules/mofs_buffer.c:406-451 | the blocks reported written show the buffer, no block outside the request changes, and with a cache none past the count reported |
| BlockCaches.BlockCache.ModifyBlock | src/core/modules/mofs_buffer.c:470-515 | a byte range of one block changes in the view and the block becomes the most recent of its pool, or nothing changes |
| BlockCaches.BlockCache.Invalidate | src/core/modules/mofs_buffer_split.c:673-692 | with a cache a data block shows the device copy again; every other block, and all metadata, is untouched |
| BlockCaches.BlockCache.FlushPool | src/core/modules/mofs_buffer_split.c:286-299 | writing back one pool leaves the view; without faults no dirty slot remains |
| BlockCaches.BlockCache.Flush | src/core/modules/mofs_buffer_split.c:640-661 | flushing never changes the view, and on success the device equals it |
| CacheRuns.Replay | src/core/modules/mofs_buffer.c:320-515 | every cache build replays a run of reads, writes, patches and invalidations as a plain array of blocks does, if the run writes again what it dropped before it reads it; on every run the view is the array but for bytes whose change was dropped |
| CacheRuns.Perform | src/core/modules/mofs_buffer.c:320-515 | one step of such a run: the view after it, a drop included, what the device may hold then, the recency of the pool it goes to and the other pool left alone |
| CacheRuns.BuildsAgree | src/core/modules/mofs_buffer_split.c:440-692 | split pools, one pool and no cache return the same bytes on every run that writes again what it dropped before it reads it, and their views differ at most in dropped bytes |
| CacheRuns.Exposed | src/core/modules/mofs_buffer_split.c:673-692 | the condition is exact: any other run, on a device filled with one byte and through a cache with room for all of it, reads something else than the array gives |
| CacheRuns.Uncovered | src/core/modules/mofs_buffer_split.c:673-692 | which run, byte and filling that is, for every run that fails the condition |
| CacheRuns.NoDropsCovered | src/core/modules/mofs_buffer.c:320-515 | runs without invalidations meet the condition |
| CacheRuns.ReplayRecency | src/core/modules/mofs_buffer_split.c:101-344 | over a whole run each pool, of the split build too, holds what the recency list of its own part of the run says |
| Mapping.ClearFacts | src/core/modules/mofs_block.c:581-643 | the list of clear indices has each clear index once, in increasing order, and nothing else |
| Mapping.SetAllCount | src/core/modules/mofs_block.c:553-562 | setting or clearing distinct bits moves the free count by exactly their number |
| Volumes.AbsElsewhere | src/core/include/mofs_core.h:86-101 | a block written in one region leaves the meaning of the others alone |
| Volumes.Volume.Flush | src/core/modules/mofs_core.c:191-203 | after a flush the device means what the volume means, and block 0 still holds the superblock |
| Volumes.Volume.SetDataBit | src/core/modules/mofs_block.c:485-539 | exactly one bit of the data bitmap changes; an index out of range is refused |
| Volumes.Volume.SetInodeBit | src/core/modules/mofs_inode.c:71-123 | exactly one bit of the inode bitmap changes; reserved and out-of-range indices are refused |
| Volumes.Volume.Scan | src/core/modules/mofs_block.c:581-643 | the nested scan returns exactly the wanted number of lowest clear indices, or no-space if and only if fewer exist |
| Volumes.Volume.FindFreeData | src/core/modules/mofs_block.c:581-643 | the lowest free data blocks, or no-space if and only if there are too few |
| Volumes.Volume.FindFreeInode | src/core/modules/mofs_inode.c:166-230 | the lowest free inodes past the reserved ones, or no-space if and only if there are too few |
| Volumes.Volume.ReadInode | src/core/modules/mofs_inode.c:326-373 | the record the table holds; a number out of range is refused |
| Volumes.Volume.WriteInode | src/core/modules/mofs_inode.c:458-524 | one record of the table changes and nothing else, with and without the cache |
| Volumes.Volume.StampPersist | src/core/modules/mofs_inode.c:390-440 | each of the three times of one record becomes the given one if its bit is set and stays if not; every other field and every other record stays |
| Volumes.Volume.AllocateInode | src/core/modules/mofs_inode.c:246-269 | the lowest free inode past the reserved ones is marked, or no-space if and only if there is none |
| Volumes.Volume.FreeInode | src/core/modules/mofs_inode.c:284-309 | the bit is cleared and the record zeroed; reserved inodes are refused |
| ListNodes.CutShape | src/core/modules/mofs_block.c:264-275 | a list of n pointers takes ceil(n / capacity) nodes, all but the last full and none empty |
| ListNodes.ChainLength | src/core/modules/mofs_block.c:264-275 | a chain has exactly the nodes its block count calls for |
| ListNodes.ChainUnique | src/core/modules/mofs_block.c:198-256 | a record on disk is the head of one chain and one block list only |
| Ownership.RemapOwned | src/core/modules/mofs_block.c:663-749 | a new chain and new blocks for one inode, taken from free or own blocks, keep the ownership invariant |
| Ownership.ExchangeOwned | src/core/modules/mofs_block.c:770-889 | an exchange of blocks keeps ownership and the contents of every mapped block, though new nodes may land on blocks just freed |
| Ownership.OwnedDataFrame | src/core/modules/mofs_file.c:151-225 | ownership does not depend on what the data blocks of files hold |
| Ownership.OneOwner | src/core/modules/mofs_block.c:663-889 | a data bitmap bit is set exactly if one and only one list entry of one inode holds the block |
| Ownership.LedgerUnique | src/core/modules/mofs_block.c:198-256 | the bytes on disk admit one assignment of blocks to owners |
| Accounting.NothingLost | src/core/modules/mofs_block.c:663-889 | free blocks and the blocks the records account for, list nodes included, are exactly the data region |
| Accounting.StaleRecordBreaks | src/core/modules/mofs_dir.c:447-486 | with a record that counts a different number of blocks, no assignment of owners exists |
| Allocator.Export | src/core/modules/mofs_block.c:198-256 | the chain comes out as the flat list it was built from |
| Allocator.Resolve | src/core/modules/mofs_block.c:404-468 | skipping whole nodes finds the k-th entry of that list; an index past the end is refused |
| Allocator.FreeChain | src/core/modules/mofs_block.c:134-181 | exactly the bits of the chain's node blocks are cleared, and only their contents may change |
| Allocator.Rebuild | src/core/modules/mofs_block.c:294-387 | a chain for the list stands on the lowest free blocks, or no-space with nothing changed, if and only if there are too few |
| Allocator.SwapChain | src/core/modules/mofs_block.c:720-744 | the record points at the new chain and the old node blocks are free |
| Allocator.Allocate | src/core/modules/mofs_block.c:663-749 | succeeds exactly if the file stays within 1024 blocks and the new blocks plus all new nodes are free; the lowest free blocks are appended, contents of all files stay, free count exact; failure changes nothing |
| Allocator.AbsToDataIdx | src/core/modules/mofs_block.c:61-71 | absolute numbers map to data-region indices, numbers outside the region are refused |
| Allocator.Compact | src/core/modules/mofs_block.c:836-860 | the surviving entries keep their order |
| Allocator.Free | src/core/modules/mofs_block.c:770-889 | the range clipped to the mapping is cut out exactly if the shorter list finds room; free count exact; on failure bitmap and mapping are as before, and with a cache each block that was to be released shows the device copy |
| Allocator.RestoreBits | src/core/modules/mofs_block.c:876-889 | undoing a release sets exactly the bits it had cleared |
| FileData.ReadBlk | src/core/modules/mofs_file.c:100-118 | resolve and read give the file's k-th block |
| FileData.WriteBlk | src/core/modules/mofs_file.c:190-220 | resolve and write change that block of that file and nothing else on the volume |
| FileData.Extend | src/core/modules/mofs_block.c:663-749 | as files see it: blocks of whatever contents the lowest free ones had are appended, with the exact condition and free count; a no-space return leaves bitmap and owners of all blocks as they were |
| FileData.Release | src/core/modules/mofs_block.c:770-889 | as files see it: a run of blocks is cut out, or on no-space bitmap and owners stay and those blocks show the device copy, with a cache, or what they held |
| FileData.NewInode | src/core/modules/mofs_inode.c:246-269 | only one inode bit changes, that of the lowest free inode past the reserved ones |
| FileData.DropInode | src/core/modules/mofs_inode.c:284-309 | bit and record of an inode without blocks are cleared, ownership is kept |
| FileData.UndoExact | src/core/modules/mofs_file.c:840-843 | giving back blocks just allocated never lacks room and restores mapping and free count |
| FileData.ListsTell | src/core/modules/mofs_block.c:198-256 | the lists of the files tell the owner of every block and every bit of the bitmap |
| FileData.EmptyAgain | src/core/modules/mofs_dir.c:645-655 | an inode that has no blocks, as before, has left no trace in bitmap and mappings |
| FileOps.ReadFileBlocks | src/core/modules/mofs_file.c:51-128 | whole blocks and a last fraction together are the bytes from the start block to the request's or the file's end |
| FileOps.Preload | src/core/modules/mofs_file.c:764-790 | the buffer holds the file's bytes where blocks are mapped and zeros elsewhere |
| FileOps.WriteFileBlocks | src/core/modules/mofs_file.c:151-225 | the buffer, clipped to the mapping, is spliced into the file's bytes at block granularity |
| FileOps.Patch | src/core/modules/mofs_file.c:929-1002 | read-modify-write through a window of blocks changes bytes as described by one formula for every byte |
| FileOps.Pwrite | src/core/modules/mofs_file.c:666-848 | error for every input, EFBIG only from 1024 blocks on; at most 1024 blocks are filled; on success the whole new volume state: bytes, size, mapping and free count, the times of modification and change are the given one and that of access stays; a failure leaves contents, bitmap and block mappings as they were |
| FileOps.WrapExact | src/posix/posix.c:253-264 | the block index of a read does not wrap exactly up to block 2^32, and never for offsets the public call admits |
| FileOps.WrappedReadDiffers | src/core/modules/mofs_file.c:613-614 | the core read at block 2^32 starts again at the beginning of the file |
| FileOps.Pread | src/core/modules/mofs_file.c:558-640 | error for every input; the bytes are the slice of the file's string; if anything was read the access time is the given one and no other field changes, else nothing does |
| FileOps.ZeroTail | src/core/modules/mofs_file.c:866-910 | the bytes of the last kept block past the new size become zero, nothing else changes |
| FileOps.Shrink | src/core/modules/mofs_file.c:1054-1078 | exact condition for success; the kept prefix is followed by zeros to the block end, mapping and free count exact |
| FileOps.Lengthen | src/core/modules/mofs_file.c:1079-1109 | exact condition for success; new bytes are zeroed; a no-space return leaves contents, bitmap and block mappings as they were |
| FileOps.Truncate | src/core/modules/mofs_file.c:1140-1154 | error for every input, EFBIG exactly beyond 1024 blocks, and case by case the whole new state; if the size differs the times of modification and change are the given one; every failure leaves bitmap and block mappings as they were |
| ByteFiles.WroteBytes | src/core/modules/mofs_file.c:757-830 | a write is the zero-filled overwrite of the byte string if and only if the bytes it skips were zero; bytes behind the end stay zero |
| ByteFiles.WroteShows | src/core/modules/mofs_file.c:757-830 | gap or not, what was written stands where it was written and no byte the file had before is another |
| ByteFiles.NoSkip | src/core/modules/mofs_file.c:757-830 | which they are whenever the first block written is at most the one after the last and the file has zeros behind its end |
| ByteFiles.GapExact | src/core/modules/mofs_file.c:745-830 | a write is zero-filled whatever the new blocks held if and only if it starts no further out than the block after the last and the file has zeros behind its end up to there; with zeros behind its end at all, the place alone decides |
| ByteFiles.TailShows | src/core/modules/mofs_file.c:794-804 | a file with something behind its end shows it after a write that starts with the block after its last |
| Witnesses.SkippedByteShows | src/core/modules/mofs_file.c:745-830 | one byte written at offset 512 of an empty file on a volume of 512-byte blocks: the block in front of it shows what its last owner left |
| ByteFiles.CutBytes | src/core/modules/mofs_file.c:1054-1078 | a shrink leaves the prefix of the string, and zeros behind it |
| ByteFiles.CutFailedBytes | src/core/modules/mofs_block.c:816-834 | a shrink without room keeps the length and the bytes below the new size |
| ByteFiles.CutLostExact | src/core/modules/mofs_file.c:1054-1078 | a shrink without room keeps the byte string if and only if the cleared tail was zero and, with a cache, the blocks to be released showed their device copies |
| ByteFiles.CutTailExact | src/core/modules/mofs_block.c:816-834 | a shrink without room leaves zeros behind the end of the file if and only if, with a cache, the device has them there, and without one, the file had |
| ByteFiles.FlushedCutExact | src/core/modules/mofs_file.c:1054-1078 | after a flush, or without a cache, the cleared tail alone decides, and zeros behind the end of the file stay |
| Witnesses.NoRoomToCut | src/core/modules/mofs_block.c:836-889 | a full volume with one file of 300 blocks has no room to cut it to 299 |
| Witnesses.TailLost | src/core/modules/mofs_file.c:866-910 | there, cutting within block 298 loses its last byte, with a cache or without |
| Witnesses.DropLost | src/core/modules/mofs_block.c:816-834 | there, cutting to 299 blocks loses the last block, if the device had zeros for it |
| Witnesses.TailBack | src/core/modules/mofs_block.c:816-834 | on a full volume of one ragged file of 300 blocks, cutting to 299 with a cache puts device bytes behind the end of the file, and a write to block 300 makes them part of it |
| ByteFiles.LengthenedBytes | src/core/modules/mofs_file.c:1079-1109 | growing appends zeros whatever the new blocks held |
| ByteFiles.ReadBack | src/core/modules/mofs_file.c:558-848 | on byte strings, what was written is read back, and old bytes before and behind it read as before |
| ByteFiles.RewriteLaws | src/core/modules/mofs_file.c:666-1154 | on byte strings, a second write to one place wins; cutting and growing again leaves zeros |
| FileRuns.WriteThenRead | src/core/modules/mofs_file.c:558-848 | a write and then a read of the same range on a volume: the read returns what was written, behind a gap too |
| FileRuns.CutThenLengthen | src/core/modules/mofs_file.c:1140-1154 | two truncates on a volume, the second to no less than the first: zeros follow what the first kept |
| FileRuns.SpaceIsAll | src/core/modules/mofs_block.c:663-889 | on a volume in order nothing leaks: free and held blocks are the whole data region |
| FileRuns.ErrorsAgree | src/core/modules/mofs_file.c:666-1154 | the errors of write and truncate are decided by file lengths and the free count alone |
| FileRuns.WriteStep | src/core/modules/mofs_file.c:666-848 | a write is the write on byte strings and charges the free count exactly |
| FileRuns.CutStep | src/core/modules/mofs_file.c:1054-1078 | a shrink is the cut of the byte string |
| FileRuns.LengthenStep | src/core/modules/mofs_file.c:1079-1109 | a growing truncate is the extension of the byte string |
| FileRuns.Do | src/core/modules/mofs_file.c:558-1154 | read, write and truncate are the operations on byte strings, and leave every other file and the type, owner and links of this one alone |
| Dirents.EntryRoundTrip | src/core/modules/mofs_dir.c:466-469 | an entry read back has the name and the number stored |
| Dirents.PutSlotEntries | src/core/modules/mofs_dir.c:466-469 | storing one slot changes that entry of the block and no other |
| Dirents.EntsPut | src/core/modules/mofs_dir.c:432-469 | slot j of block k is one entry of the directory, and storing it changes only that one |
| Dirents.PutInoEntries | src/core/modules/mofs_dir.c:1067-1109 | replacing the number of an entry keeps its name and all other entries |
| DirOps.FindSlot | src/core/modules/mofs_dir.c:191-197 | the first matching slot of a block |
| DirOps.Find | src/core/modules/mofs_dir.c:151-216 | the first entry with the name, or no-entry exactly if there is none |
| DirOps.Remove | src/core/modules/mofs_dir.c:236-322 | error for every input; the first entry in use with the name becomes a tombstone and nothing else changes |
| DirOps.SurveyBlock | src/core/modules/mofs_dir.c:419-432 | a duplicate exactly if the block has one, else the first slot not in use |
| DirOps.Survey | src/core/modules/mofs_dir.c:400-432 | the same over the whole directory |
| DirOps.GrowDir | src/core/modules/mofs_dir.c:440-486 | growing a directory succeeds exactly if the allocation does, and then no assignment of blocks to owners exists |
| DirOps.Add | src/core/modules/mofs_dir.c:344-507 | error for every input, EINVAL exactly for a missing or too long name or a number out of range; the first free slot takes the entry; ownership is kept if and only if the directory does not grow |
| Scenarios.FullRootGrows | src/core/modules/mofs_dir.c:440-486 | a root with all slots in use and two blocks free grows with the next name |
| Scenarios.OneTooMany | src/core/modules/mofs_dir.c:440-486 | on a fresh volume of any block size: as many creates as a block has slots succeed, the next one succeeds too, and then no assignment of blocks to owners exists |
| DirOps.IsEmpty | src/core/modules/mofs_dir.c:70-133 | empty exactly if only `.` and `..` are in use |
| DirOps.ReadDotDot | src/core/modules/mofs_dir.c:1025-1057 | the number of the first `..` in use in the first block, or an error exactly if there is none |
| DirOps.RewriteDotDot | src/core/modules/mofs_dir.c:1067-1109 | that entry names the new parent and nothing else changes, nor bitmap and block mappings |
| DirScans.Readdir | src/core/modules/mofs_dir.c:885-985 | the next entry in use from the cursor on, or the end with the cursor where it was |
| DirScans.ScanOrdered | src/core/modules/mofs_dir.c:930-978 | a scan answers in slot order, no slot twice |
| DirScans.ScanComplete | src/core/modules/mofs_dir.c:930-978 | an entry that keeps its slot is answered exactly once, whatever else is added or removed between the calls |
| DirScans.ScanGoesOn | src/core/modules/mofs_dir.c:930-978 | each call of readdir takes a scan one slot on or ends it |
| DirScans.ScanAmid | src/core/modules/mofs_dir.c:885-985 | a loop of readdir calls with any public operation between two calls: if it comes to the end, every entry that kept its slot was answered exactly once |
| Namespace.DetachTree | src/core/modules/mofs_dir.c:1273-1276 | taking a node's entry and its parent's link away leaves a tree with that node loose |
| Namespace.AttachTree | src/core/modules/mofs_dir.c:1278-1303 | hanging a loose node below a directory it is not above makes a tree |
| Namespace.KillTree | src/core/modules/mofs_dir.c:735-751 | freeing a loose node without children leaves a tree |
| Namespace.BirthTree | src/core/modules/mofs_dir.c:576-620 | a free inode becomes a loose node without disturbing the tree |
| Namespace.CreateTree | src/core/modules/mofs_dir.c:528-655 | creating a file or directory keeps the tree |
| Namespace.DotsAtRootBreak | src/core/modules/mofs_format.c:216-221 | a node called `.` or `..` in the root fits no tree |
| Namespace.RemoveTree | src/core/modules/mofs_dir.c:674-768 | unlink and rmdir keep the tree |
| Namespace.MoveTree | src/core/modules/mofs_dir.c:1196-1315 | moving a node keeps the tree if the target does not lie below it |
| Namespace.AncestorGuardExact | src/core/modules/mofs_dir.c:1258-1266 | a moved node still reaches the root if and only if it is no ancestor of the target |
| Namespace.ShortChain | src/core/modules/mofs_dir.c:1120-1147 | every chain of parents is shorter than the number of inodes |
| Namespace.KidsBound | src/core/modules/mofs_dir.c:1157-1175 | links are at most two plus the slots, so the 16-bit count does not wrap |
| TreeShape.MapLookup | src/core/modules/mofs_dir.c:151-216 | looking a name up in the slots is looking it up in the map |
| TreeShape.MapInsert | src/core/modules/mofs_dir.c:344-507 | an entry in a free slot inserts the name and keeps names unique |
| TreeShape.MapDelete | src/core/modules/mofs_dir.c:236-322 | a tombstone deletes the name and no other |
| TreeOps.Create | src/core/modules/mofs_file.c:246-327 | exact error; the new record by field (type, permissions, one link, owner, size 0, all three times), the new entry, the parent's times of modification and change and the whole state around them; a failure restores the state before the call, bitmaps and block mappings included |
| TreeOps.CreatedTree | src/core/modules/mofs_file.c:246-327 | the tree is kept if and only if the new name is neither `.` nor `..`, and only the root lets these through |
| Scenarios.DotInRoot | src/core/modules/mofs_format.c:216-221 | on a fresh volume: creating `.` in the root succeeds, and no tree explains the result |
| TreeOps.Furnish | src/core/modules/mofs_dir.c:597-620 | a new directory has one block with exactly `.` and `..` in it, two blocks fewer are free |
| TreeOps.Unfurnish | src/core/modules/mofs_dir.c:645-655 | the rollback restores the state from before the inode was taken, and gives back exactly the bits and list nodes taken |
| TreeOps.Mkdir | src/core/modules/mofs_dir.c:528-655 | exact error; the new record by field (type, permissions, two links, owner, one block, all three times), its block and entry, the parent's link and its times of modification and change, the whole state around them; a failure restores the state before the call, bitmaps and block mappings included |
| TreeOps.LinksBound | src/core/modules/mofs_dir.c:629-636 | the link count of a directory of the tree lies between 2 and 2050 |
| TreeOps.Relink | src/core/modules/mofs_dir.c:1157-1175 | one link count changes and ownership, or its absence, stays |
| TreeOps.Discard | src/core/modules/mofs_file.c:391-404 | releasing all blocks of a node never runs out of room and frees exactly the blocks it took |
| TreeOps.Unlink | src/core/modules/mofs_file.c:345-404 | exact error; entry, blocks and record of the file are gone, the parent has the given times of modification and change, and nothing else changes |
| TreeOps.Rmdir | src/core/modules/mofs_dir.c:674-768 | exact error; an empty directory is gone with its parent's link, the parent has the given times of modification and change, nothing else changes |
| TreeOps.IsAbove | src/core/modules/mofs_dir.c:1120-1147 | the walk answers yes if and only if the node is an ancestor, and its guard never ends it early |
| Renaming.ShiftedIsMove | src/core/modules/mofs_dir.c:1273-1303 | tombstone, new entry, `..` and the two link counts together are the move in the tree |
| Renaming.MoveEntry | src/core/modules/mofs_dir.c:1273-1315 | the entry moves, or on no-space is made again in its old directory; both directories have the given times of modification and change; everything else stays |
| Renaming.Replace | src/core/modules/mofs_dir.c:1235-1256 | the destination is removed exactly if it is of the same kind and, for directories, empty |
| Renaming.FinishRename | src/core/modules/mofs_dir.c:1258-1315 | refused exactly below itself, else moved or no-space, and the tree stands in every case |
| Renaming.Rename | src/core/modules/mofs_dir.c:1196-1315 | the error for every input, every way the call can end and when it does, which times it sets, that the tree stands after each, and that after EINVAL the volume has changed if and only if the node was to go below itself in place of another node that can be replaced |
| Renaming.RefusalExact | src/core/modules/mofs_dir.c:1239-1266 | a rename that answers EINVAL has changed the volume if and only if a destination other than the node existed, could be replaced, and the node lies above the directory of the new name; what it changed is the removal of that destination |
| Scenarios.RenameIntoChild | src/core/modules/mofs_dir.c:1239-1266 | on a fresh volume: mkdir /a, mkdir /a/b, rename /a to /a/b answers EINVAL, and /a/b is gone |
| Scenarios.SwallowTold | src/core/modules/mofs_dir.c:1239-1266 | the same session on the empty world, for every geometry with room and every user who may search /a |
| Paths.ComponentsAppend | src/core/modules/mofs_path.c:108-125 | a path falls apart at any slash into the components before and after it |
| Paths.SlashesDoNotMatter | src/core/modules/mofs_path.c:108-125 | repeated and trailing slashes leave the components alone |
| Paths.Token | src/core/modules/mofs_path.c:108-125 | each token is the next component and the rest of the path has the others |
| Paths.WalkAppend | src/core/modules/mofs_path.c:114-160 | resolving a path is resolving its front, then its rest from there; the first failing component decides the error |
| Paths.WalkGranted | src/core/modules/mofs_path.c:11-31 | success means every directory searched is the root or a directory whose attributes the search permission answers with success |
| Paths.TrailWalk | src/core/modules/mofs_path.c:119-160 | along directories that each grant search and name the next, the walk of the whole path is the walk of the rest from the last of them |
| Paths.TrailBarred | src/core/modules/mofs_path.c:11-31 | the first directory that does not grant search decides: ENOTDIR if it is none, else what the permission answered |
| Paths.TrailMissing | src/core/modules/mofs_path.c:149-159 | a component but the last that is missing in a directory that grants search is ENOENT |
| Paths.TrailEnds | src/core/modules/mofs_path.c:119-147 | in the last directory: ENAMETOOLONG from 28 bytes on, the number found under the name, or its absence, by the flags of the caller |
| Paths.WalkTrail | src/core/modules/mofs_path.c:54-167 | conversely, a walk that succeeds has gone along such directories, each granting search, the last one included |
| Paths.SameComponents | src/core/modules/mofs_path.c:54-167 | two paths with the same components resolve alike |
| Paths.Resolve | src/core/modules/mofs_path.c:54-167 | the token loop returns what the recursive walk over the name maps of the world returns, for every path, every search permission and every combination of the resolve flags, access checks on; what that walk does is in Paths.TrailEnds, TrailBarred and TrailMissing |
| Worlds.NameThereIff | src/core/modules/mofs_dir.c:151-216 | a name is in the name map exactly if a slot matches it, and then with the number of that slot |
| Worlds.NamesFull | src/core/modules/mofs_dir.c:400-432 | a directory has as many names as slots in use, so that it is full exactly if all are |
| WorldSteps.MakeErrIs | src/core/modules/mofs_dir.c:528-655 | the errors of create and mkdir, and when they break the volume, are decided by name map, free inodes and free blocks |
| WorldSteps.MadeFile | src/core/modules/mofs_file.c:246-327 | create adds one name and one empty file with one link to the world, and nothing else |
| WorldSteps.MadeDir | src/core/modules/mofs_dir.c:528-655 | mkdir adds one name, one link of the parent and one directory with `.` and `..`, for two blocks |
| WorldSteps.RemoveErrIs | src/core/modules/mofs_dir.c:674-768 | the errors of unlink and rmdir are decided by the name maps |
| WorldSteps.TookAway | src/core/modules/mofs_dir.c:674-768 | unlink and rmdir take one name and one node from the world and give back exactly the blocks its length calls for |
| WorldSteps.AboveIs | src/core/modules/mofs_dir.c:1120-1147 | the parents that directories name decide descent as the tree does |
| WorldSteps.RenameErrIs | src/core/modules/mofs_dir.c:1196-1315 | the errors of rename are decided by name maps, kinds and descent |
| WorldSteps.MovedWorld | src/core/modules/mofs_dir.c:1273-1303 | a move takes the old name away, adds the new one and, for a directory, moves a link and renames `..` |
| WorldSteps.RenameRefines | src/core/modules/mofs_dir.c:1196-1315 | every outcome of rename, the refusal that cost the destination included, is the step of the world |
| Sessions.WalkEnds | src/core/modules/mofs_path.c:54-167 | in a tree a walk ends in a directory and finds only nodes in use |
| Sessions.FileKeeps | src/core/modules/mofs_file.c:558-1154 | operations on contents are none on the directory graph |
| Sessions.ContentRefines | src/core/modules/mofs_file.c:558-1154 | a read, write or truncate is the step of the world on that one file; what that step does byte by byte is in Meanings.ReadMeans, WriteMeans and ResizeMeans |
| Sessions.DoNew | src/posix/posix.c:507-531 | create and mkdir by path are the step of the world, answer included, and break the volume exactly when it says so |
| Sessions.DoRemove | src/posix/posix.c:480-558 | unlink and rmdir by path are the step of the world, answer included |
| Sessions.DoMove | src/posix/posix.c:560-579 | rename by path is the step of the world, answer included |
| Sessions.RunSession | src/posix/posix.c:149-579 | any sequence of path operations keeps ownership, sizes, the tree and the block count, or stops at the command that broke ownership or the tree; if it skips no block and fails no shrink, all answers, the refusal of offsets beyond 32 bits included, and the final state are those of the session on the world, whose commands Meanings describes one by one |
| Sessions.BuildsAgree | src/core/modules/mofs_block.c:816-834 | on such sessions, creates, removals and renames included, volumes with different cache builds answer alike and end in the same world |
| Sessions.ToldOn | src/posix/posix.c:149-579 | a session on the world is its first part and then the rest |
| Meanings.JoinedApart | src/core/modules/mofs_path.c:108-125 | a path put together from names and slashes is taken apart into these names |
| Meanings.EndsResolved | src/core/modules/mofs_path.c:54-167 | a path along directories that grant search resolves to its last directory and name, found or missing, by the flags of the caller |
| Meanings.Stopped | src/core/modules/mofs_path.c:54-167 | a path stopped by a directory or a name answers every operation with that error, and nothing changes |
| Meanings.NoName | src/core/modules/mofs_path.c:68-117 | a path without a leading slash or without a name is EINVAL for every operation; the root can be opened and cannot be made, taken away or moved |
| Meanings.ReadMeans | src/posix/posix.c:253-292 | pread by path: the error for every input, else the bytes from the offset up to the length or the end of the file |
| Meanings.WriteMeans | src/posix/posix.c:294-335 | pwrite by path: the error for every input, the count written within 1024 blocks, every byte of the file after it (written, else old, else zero), the free blocks charged, all else unchanged |
| Meanings.ResizeMeans | src/posix/posix.c:412-442 | truncate by path: the error for every input, the prefix or the zero extension, the free blocks charged, all else unchanged |
| Meanings.TameMeans | src/core/modules/mofs_file.c:666-1154 | exactly which commands a session may not contain to be the session on the world: a write that skips a block and a shrink that finds no room |
| Meanings.MakeMeans | src/core/modules/mofs_dir.c:528-655 | create and mkdir by path: the error for every input, the item that appears at the lowest free number with its type, permissions, owner, links and names, the name and the link in the parent, the blocks taken, and when the volume is lost |
| Meanings.UnlinkMeans | src/core/modules/mofs_file.c:345-404 | unlink by path: EISDIR for a directory and nothing changes; a file is gone, its name is out of the directory, its blocks are free |
| Meanings.RmdirMeans | src/core/modules/mofs_dir.c:674-768 | rmdir by path: EINVAL for `.` and `..`, ENOTDIR for a file, ENOTEMPTY exactly if there is another name, else the directory is gone with its name, a link of the parent and two blocks |
| Meanings.MissingMeans | src/core/modules/mofs_path.c:131-145 | what is not there is ENOENT for all operations but create and mkdir |
| Meanings.AboveMeans | src/core/modules/mofs_dir.c:1120-1147 | a node lies above a directory if the chain of `..` from there meets it, and does not if the chain ends at the root without it |
| Meanings.RenameRefused | src/core/modules/mofs_dir.c:1196-1256 | rename by path: EINVAL for `.` and `..`, success for the same node, ENOTDIR, EISDIR and ENOTEMPTY by the kinds of the two nodes, and nothing changes |
| Meanings.RenameStopped | src/core/modules/mofs_dir.c:1196-1256 | a destination path that is stopped decides the error of rename, and nothing changes |
| Meanings.RenameBelow | src/core/modules/mofs_dir.c:1239-1266 | a rename below itself is EINVAL, and a destination that could be replaced is gone |
| Meanings.RenameMoves | src/core/modules/mofs_dir.c:1273-1315 | a rename to a free name: the new name has the node, the old one is out, all other names stay, a directory names its new parent and takes a link along; ENOSPC and the loss of the volume exactly when the target is full |
| Meanings.RenameReplaces | src/core/modules/mofs_dir.c:1235-1315 | a rename onto a node it can replace: that node is taken away, then the other takes its name |
| Formatting.TooSmall | src/core/modules/mofs_format.c:126-150 | the size check turns away exactly volumes of at most four blocks, for every block size |
| Formatting.PlanValid | src/core/modules/mofs_format.c:126-172 | regions are ordered, disjoint, fill the volume and have room for their indices if and only if the volume exceeds eight blocks |
| Formatting.PlaceFits | src/core/modules/mofs_inode.c:348-350 | the place of every inode record of a formatted volume fits the C int it is computed in exactly up to 2^27 blocks |
| Formatting.FiveBlocks | src/core/modules/mofs_format.c:216-228 | exactly at five blocks there is a single data block, too few for the root's directory block and list node |
| Formatting.ClearedAbs | src/core/modules/mofs_format.c:152-158 | cleared metadata means nothing is in use |
| Formatting.RootBytes | src/core/modules/mofs_format.c:190-214 | the bytes 0x04 and 0x03 are inode 2 and data blocks 0 and 1 |
| Formatting.FormattedFresh | src/core/modules/mofs_format.c:186-298 | the writes together mean an empty root directory in two blocks and nothing else |
| Formatting.FormatWhole | src/core/modules/mofs_format.c:113-150 | on a whole device formatting fails exactly up to five blocks and from 2^32 blocks on |
| Formatting.PlanTight | src/core/modules/mofs_format.c:113-150 | the layout has the inode count and the smallest regions, each bound from both sides |
| Formatting.Format | src/core/modules/mofs_format.c:90-306 | the error for every block size, requested size and device size; the number of blocks, one inode for four blocks or part of them, and every metadata region the smallest that holds what is indexed in it; the superblock in block 0; the meaning of the image for every size that can be mounted |
| Formatting.FreshOwned | src/core/modules/mofs_format.c:186-298 | the image satisfies the ownership invariant |
| Formatting.FreshTree | src/core/modules/mofs_format.c:186-298 | the image satisfies the tree invariant |
| Formatting.FreshClear | src/core/modules/mofs_format.c:186-298 | runs on byte strings can start from the image |
| Mounting.FreshIsIntact | src/core/modules/mofs_format.c:186-298 | the image satisfies all invariants at once and is the empty world |
| Mounting.Mount | src/core/modules/mofs_core.c:39-171 | the error for every superblock and device size, told from the words of block 0; the cache has the slots of its build; a device in order, mounted with any cache build, satisfies all invariants and holds the files it held, with the new owner of the root |
| Mounting.HandedBy | src/core/modules/mofs_core.c:141-155 | a new owner of the root is user, group and time of change of record 2, and no other byte of any record |
| Mounting.Unmount | src/core/modules/mofs_core.c:191-224 | what the cache held is on the device, which is in order and holds the files as they were |
| Mounting.FormatAndRun | src/core/modules/mofs_format.c:90-306 | format, mount and any session: the error for every size, all invariants, and on sessions that skip no block and fail no shrink the answers of the empty world |
| Mounting.RunAcrossMounts | src/core/modules/mofs_core.c:191-224 | a session, an unmount, a mount with another build and a second session answer as one session does |
| DiskFormat.LowFirst | src/core/include/mofs_core.h:87-124 | a word on the device is its bytes, the low one first |
| DiskFormat.SuperWords | src/core/include/mofs_core.h:87-101 | the nine words of the superblock |
| DiskFormat.Regions | src/core/modules/mofs_block.c:485-539 | block, byte and weight of every bit of the two bitmaps, and the block of every data block |
| DiskFormat.RecordPlace | src/core/include/mofs_core.h:111-124 | every field of every inode record, by block and byte |
| DiskFormat.ListPlace | src/core/include/mofs_core.h:104-108 | where pointer j of a file is found: the node, the word in it, its header and the way there from the record |
| DiskFormat.BytePlace | src/core/modules/mofs_block.c:404-468 | byte i of a file is byte i % bs of the data block of its pointer i / bs |
| DiskFormat.EntryPlace | include/posix/mofs_dirent.h:7-11 | name and number of every directory slot, and which slots are in use |
| DiskFormat.NodeKind | include/posix/sys/mofs_stat.h:7-8 | which inode numbers are in use, which are directories, and what of the record users see |
| DiskFormat.NamePlace | src/core/modules/mofs_dir.c:151-222 | a directory has exactly the names of its slots in use |
| DiskFormat.FreshRoot | src/core/modules/mofs_format.c:263-284 | the record of the root of a fresh volume, by field, and the empty world |
| SectorIo.Slot.Round | src/os/zephyr/service/os_devio.c:149-206 | each round moves at least a byte and brings the transfer one phase on |
| SectorIo.Slot.Transfer | src/os/zephyr/service/os_devio.c:117-222 | a success moves exactly the bytes up to the request's or device's end as on a byte array and advances the offset; a failure has written exactly a prefix of the request, a failed read nothing, and leaves the offset unless only the sync request failed; at most three rounds |
| Locking.OwnStepSerial | src/port/include/mofs_port_sync.h:58-93 | steps a thread makes on its own commute with whole operations of the others |
| Locking.StepRest | src/port/include/mofs_port_sync.h:58-93 | each step of an interleaving leaves the outcome of finishing one by one unchanged |
| Locking.AloneIs | src/port/include/mofs_port_sync.h:58-93 | an operation that takes the lock, works, calls another that takes it again and gives both levels back is its steps in order, up to the last level |
| Locking.Serializable | src/posix/posix.c:253-318 | every interleaving under the recursive lock leaves the volume as the operations in the order of outermost locking do, and every finished thread with what it would have got then |

## Left out

- Device faults above the cache: the cache is proved with faults, the layers above it on a device whose transfers succeed.
- Renaming.MoveEntry: the steps after an append that made the target directory grow are not modelled, since ownership is already lost then.
- FileData.DropInode: stated for inodes without blocks, which is how every caller uses it; the primitive for any inode is Volumes.Volume.FreeInode.
- FileOps.Pread: the number of blocks requested and the size of the buffer for them are 32-bit in the source; requests so large that these wrap are not modelled.
- Paths.Resolve: resolution without access checks is not modelled, since every caller asks for them.
- Mounting.Mount: a device smaller than one block is not modelled, and neither is a device that passes the checks and is not in order.
- SectorIo.Slot.Transfer: a disk access that fails is taken to leave the disk alone.
- Formatting.Format: writes inside one block are modelled as patches of that block, and a write past the end of the device fails with an I/O error.
- Permission bits, group lookup and user contexts: search permission is a parameter of path resolution, other permission checks are taken to pass.
- File and directory handle pools, open flags and the implicit file offset.
- stat, closing of handles, and a failing sync of the device at unmount.
- Memory allocation in the C code: buffers are taken to be available.
- Byte order: the code stores words as the machine does; the model takes the low byte first.
- Clock values: any value below 2^64, passed in.
- Crash consistency between flushes: the code promises nothing there.
- Inode numbers are taken to be below 2^25, so that 64 times the number fits the C int it is computed in (Formatting.PlaceFits says when a volume meets this), and cache ticks not to overflow.
