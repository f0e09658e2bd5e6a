/**
 * The mounted volume: what the raw blocks mean (bitmaps, inode table, data
 * region) and the primitives that read and patch them through the cache.
 */
module Volumes {
  import opened Errors
  import opened Bytes
  import opened Layout
  import opened BlockDevice
  import opened BlockCaches
  import opened Mapping

  /** The volume as its regions are meant: two bitmaps, the inode table and the data blocks. */
  datatype Vol = Vol(bits: seq<bool>, ibits: seq<bool>, inodes: seq<Inode>, data: seq<Block>)

  ghost function BitBlk(g: Geometry, i: nat): nat
    requires g.blkSize > 0
  {
    Quot(i, g.blkSize * 8)
  }

  ghost function InoBlk(g: Geometry, n: nat): nat
    requires g.blkSize > 0
  {
    Quot(n * INODE_SIZE, g.blkSize)
  }

  /** Every bitmap bit and every inode record lies inside its own region. */
  ghost predicate Room(g: Geometry) {
    && ValidBlkSize(g.blkSize)
    && 0 < g.inodeBitmapStart <= g.dataBitmapStart <= g.inodeTableStart <= g.dataRegionStart
    && g.dataRegionStart + g.dataBlkNum == g.holeBlkNum < LIMIT32
    && (forall i :: 0 <= i < g.inodeNum ==> g.inodeBitmapStart + BitBlk(g, i) < g.dataBitmapStart)
    && (forall i :: 0 <= i < g.dataBlkNum ==> g.dataBitmapStart + BitBlk(g, i) < g.inodeTableStart)
    && (forall n :: 0 <= n < g.inodeNum ==> g.inodeTableStart + InoBlk(g, n) < g.dataRegionStart)
  }

  lemma GeoRoom(g: Geometry)
    requires GeoValid(g)
    ensures Room(g)
  {
    forall i | 0 <= i < g.inodeNum ensures g.inodeBitmapStart + BitBlk(g, i) < g.dataBitmapStart {
      QuotLt(i, g.blkSize * 8, g.dataBitmapStart - g.inodeBitmapStart);
    }
    forall i | 0 <= i < g.dataBlkNum ensures g.dataBitmapStart + BitBlk(g, i) < g.inodeTableStart {
      QuotLt(i, g.blkSize * 8, g.inodeTableStart - g.dataBitmapStart);
    }
    forall n | 0 <= n < g.inodeNum ensures g.inodeTableStart + InoBlk(g, n) < g.dataRegionStart {
      QuotLt(n * INODE_SIZE, g.blkSize, g.dataRegionStart - g.inodeTableStart);
    }
  }

  ghost predicate Image(g: Geometry, v: seq<Block>) {
    Room(g) && Sized(v, g.holeBlkNum, g.blkSize)
  }

  ghost predicate DataBit(g: Geometry, v: seq<Block>, i: nat)
    requires Image(g, v) && i < g.dataBlkNum
  {
    assert g.dataBitmapStart + BitBlk(g, i) < g.inodeTableStart;
    BitAt(v, g.dataBitmapStart, g.blkSize, i)
  }

  ghost predicate InodeBit(g: Geometry, v: seq<Block>, i: nat)
    requires Image(g, v) && i < g.inodeNum
  {
    assert g.inodeBitmapStart + BitBlk(g, i) < g.dataBitmapStart;
    BitAt(v, g.inodeBitmapStart, g.blkSize, i)
  }

  ghost function InodeRec(g: Geometry, v: seq<Block>, n: nat): Inode
    requires Image(g, v) && n < g.inodeNum
  {
    assert g.inodeTableStart + InoBlk(g, n) < g.dataRegionStart;
    InodeAt(v, g.inodeTableStart, g.blkSize, n)
  }

  ghost function Abs(g: Geometry, v: seq<Block>): (s: Vol)
    requires Image(g, v)
    ensures |s.bits| == g.dataBlkNum && |s.ibits| == g.inodeNum && |s.inodes| == g.inodeNum && |s.data| == g.dataBlkNum
    ensures forall i :: 0 <= i < g.dataBlkNum ==> s.bits[i] == DataBit(g, v, i)
    ensures forall i :: 0 <= i < g.inodeNum ==> s.ibits[i] == InodeBit(g, v, i)
    ensures forall n :: 0 <= n < g.inodeNum ==> s.inodes[n] == InodeRec(g, v, n)
    ensures forall i :: 0 <= i < g.dataBlkNum ==> s.data[i] == v[g.dataRegionStart + i]
  {
    Vol(seq(g.dataBlkNum, i requires 0 <= i < g.dataBlkNum => DataBit(g, v, i)),
        seq(g.inodeNum, i requires 0 <= i < g.inodeNum => InodeBit(g, v, i)),
        seq(g.inodeNum, n requires 0 <= n < g.inodeNum => InodeRec(g, v, n)),
        seq(g.dataBlkNum, i requires 0 <= i < g.dataBlkNum => v[g.dataRegionStart + i]))
  }

  /** Replacing a block leaves the regions it is not in as they are. */
  lemma AbsElsewhere(g: Geometry, v: seq<Block>, b: nat, d: Block)
    requires Image(g, v) && b < g.holeBlkNum && |d| == g.blkSize
    ensures var w := v[b := d];
            && Image(g, w)
            && (!(g.dataBitmapStart <= b < g.inodeTableStart) ==> Abs(g, w).bits == Abs(g, v).bits)
            && (!(g.inodeBitmapStart <= b < g.dataBitmapStart) ==> Abs(g, w).ibits == Abs(g, v).ibits)
            && (!(g.inodeTableStart <= b < g.dataRegionStart) ==> Abs(g, w).inodes == Abs(g, v).inodes)
            && (b < g.dataRegionStart ==> Abs(g, w).data == Abs(g, v).data)
            && (b >= g.dataRegionStart ==> Abs(g, w).data == Abs(g, v).data[b - g.dataRegionStart := d])
  {
    hide Quot, Rem, BitAt, InodeAt, Abs;
    var w := v[b := d];
    if !(g.dataBitmapStart <= b < g.inodeTableStart) {
      forall j | 0 <= j < g.dataBlkNum ensures DataBit(g, w, j) == DataBit(g, v, j) {
        assert g.dataBitmapStart + BitBlk(g, j) < g.inodeTableStart;
        OtherBlockBit(v, b, d, g.dataBitmapStart, g.blkSize, j);
      }
    }
    if !(g.inodeBitmapStart <= b < g.dataBitmapStart) {
      forall j | 0 <= j < g.inodeNum ensures InodeBit(g, w, j) == InodeBit(g, v, j) {
        assert g.inodeBitmapStart + BitBlk(g, j) < g.dataBitmapStart;
        OtherBlockBit(v, b, d, g.inodeBitmapStart, g.blkSize, j);
      }
    }
    if !(g.inodeTableStart <= b < g.dataRegionStart) {
      forall n | 0 <= n < g.inodeNum ensures InodeRec(g, w, n) == InodeRec(g, v, n) {
        assert g.inodeTableStart + InoBlk(g, n) < g.dataRegionStart;
        OtherBlockInode(v, b, d, g.inodeTableStart, g.blkSize, n);
      }
    }
  }

  lemma AbsDataBit(g: Geometry, v: seq<Block>, i: nat, on: bool)
    requires Image(g, v) && i < g.dataBlkNum
    ensures var blk := g.dataBitmapStart + BitBlk(g, i);
            && blk < g.inodeTableStart
            && var w := v[blk := PatchBit(v[blk], g.blkSize, i, on)];
            Image(g, w) && Abs(g, w) == Abs(g, v).(bits := Abs(g, v).bits[i := on])
  {
    hide Quot, Rem, BitAt, InodeAt, PatchBit, Abs;
    var blk := g.dataBitmapStart + BitBlk(g, i);
    assert blk < g.inodeTableStart;
    var w := v[blk := PatchBit(v[blk], g.blkSize, i, on)];
    AbsElsewhere(g, v, blk, PatchBit(v[blk], g.blkSize, i, on));
    forall j | 0 <= j < g.dataBlkNum ensures DataBit(g, w, j) == if j == i then on else DataBit(g, v, j) {
      assert g.dataBitmapStart + BitBlk(g, j) < g.inodeTableStart;
      PatchedBit(v, g.dataBitmapStart, g.blkSize, i, on, j);
    }
    assert Abs(g, w).bits == Abs(g, v).bits[i := on];
  }

  lemma AbsInodeBit(g: Geometry, v: seq<Block>, i: nat, on: bool)
    requires Image(g, v) && i < g.inodeNum
    ensures var blk := g.inodeBitmapStart + BitBlk(g, i);
            && blk < g.dataBitmapStart
            && var w := v[blk := PatchBit(v[blk], g.blkSize, i, on)];
            Image(g, w) && Abs(g, w) == Abs(g, v).(ibits := Abs(g, v).ibits[i := on])
  {
    hide Quot, Rem, BitAt, InodeAt, PatchBit, Abs;
    var blk := g.inodeBitmapStart + BitBlk(g, i);
    assert blk < g.dataBitmapStart;
    var w := v[blk := PatchBit(v[blk], g.blkSize, i, on)];
    AbsElsewhere(g, v, blk, PatchBit(v[blk], g.blkSize, i, on));
    forall j | 0 <= j < g.inodeNum ensures InodeBit(g, w, j) == if j == i then on else InodeBit(g, v, j) {
      assert g.inodeBitmapStart + BitBlk(g, j) < g.dataBitmapStart;
      PatchedBit(v, g.inodeBitmapStart, g.blkSize, i, on, j);
    }
    assert Abs(g, w).ibits == Abs(g, v).ibits[i := on];
  }

  lemma AbsInode(g: Geometry, v: seq<Block>, n: nat, rec: Inode)
    requires Image(g, v) && n < g.inodeNum && Fits(rec)
    ensures var blk := g.inodeTableStart + InoBlk(g, n);
            && blk < g.dataRegionStart
            && var w := v[blk := Splice(v[blk], InodeOff(n, g.blkSize), Encode(rec))];
            Image(g, w) && Abs(g, w) == Abs(g, v).(inodes := Abs(g, v).inodes[n := rec])
  {
    hide Quot, Rem, BitAt, InodeAt, Splice, Encode, Abs, InodeOff;
    var blk := g.inodeTableStart + InoBlk(g, n);
    assert blk < g.dataRegionStart;
    var w := v[blk := Splice(v[blk], InodeOff(n, g.blkSize), Encode(rec))];
    AbsElsewhere(g, v, blk, Splice(v[blk], InodeOff(n, g.blkSize), Encode(rec)));
    forall m | 0 <= m < g.inodeNum ensures InodeRec(g, w, m) == if m == n then rec else InodeRec(g, v, m) {
      assert g.inodeTableStart + InoBlk(g, m) < g.dataRegionStart;
      PatchedInode(v, g.inodeTableStart, g.blkSize, n, rec, m);
    }
    assert Abs(g, w).inodes == Abs(g, v).inodes[n := rec];
  }

  lemma AbsInodeBytes(g: Geometry, v: seq<Block>, n: nat)
    requires Image(g, v) && n < g.inodeNum
    ensures g.inodeTableStart + InoBlk(g, n) < g.dataRegionStart
    ensures var blk, off := g.inodeTableStart + InoBlk(g, n), InodeOff(n, g.blkSize);
            Abs(g, v).inodes[n] == Decode(v[blk][off..off + INODE_SIZE])
  {
    hide Quot, Rem, Decode, InodeOff, BitAt;
    assert g.inodeTableStart + InoBlk(g, n) < g.dataRegionStart;
  }

  /** Sizes and field widths that every volume image has. */
  ghost predicate VolSized(g: Geometry, s: Vol) {
    && |s.bits| == g.dataBlkNum && |s.ibits| == g.inodeNum && |s.inodes| == g.inodeNum && |s.data| == g.dataBlkNum
    && (forall i :: 0 <= i < |s.data| ==> |s.data[i]| == g.blkSize)
    && (forall n :: 0 <= n < |s.inodes| ==> Fits(s.inodes[n]))
  }

  lemma AbsSized(g: Geometry, v: seq<Block>)
    requires Image(g, v)
    ensures VolSized(g, Abs(g, v))
  {
    hide Quot, Rem, Decode, InodeOff, BitAt;
    forall n | 0 <= n < g.inodeNum ensures Fits(InodeRec(g, v, n)) {
      assert g.inodeTableStart + InoBlk(g, n) < g.dataRegionStart;
      DecodeFits(v[g.inodeTableStart + InoBlk(g, n)][InodeOff(n, g.blkSize)..InodeOff(n, g.blkSize) + INODE_SIZE]);
    }
  }

  /** The blocks `v` mean `s`, and block 0 still holds the superblock. */
  ghost predicate Mounted(g: Geometry, v: seq<Block>, s: Vol, super: Block)
    ensures Mounted(g, v, s, super) ==> VolSized(g, s)
  {
    if Image(g, v) && s == Abs(g, v) && v[0] == super then AbsSized(g, v); true else false
  }

  /** `bits` is the bitmap that starts at block `start`. */
  ghost predicate BitsShown(v: seq<Block>, start: nat, bs: nat, bits: seq<bool>) {
    bs > 0 && forall i :: 0 <= i < |bits| ==>
      start + Quot(i, bs * 8) < |v| && |v[start + Quot(i, bs * 8)]| == bs && bits[i] == BitAt(v, start, bs, i)
  }

  lemma AbsBitsShown(g: Geometry, v: seq<Block>)
    requires Image(g, v)
    ensures BitsShown(v, g.dataBitmapStart, g.blkSize, Abs(g, v).bits)
    ensures BitsShown(v, g.inodeBitmapStart, g.blkSize, Abs(g, v).ibits)
  {
    hide Quot, Rem, BitAt, InodeAt;
    forall i | 0 <= i < g.dataBlkNum ensures g.dataBitmapStart + Quot(i, g.blkSize * 8) < |v| {
      assert g.dataBitmapStart + BitBlk(g, i) < g.inodeTableStart;
    }
    forall i | 0 <= i < g.inodeNum ensures g.inodeBitmapStart + Quot(i, g.blkSize * 8) < |v| {
      assert g.inodeBitmapStart + BitBlk(g, i) < g.dataBitmapStart;
    }
  }

  /** The part of `bits` from index `base` is what the block `d` holds. */
  ghost predicate BlockShows(d: Block, base: nat, bits: seq<bool>) {
    forall i :: base <= i < base + |d| * 8 && i < |bits| ==> bits[i] == Bit(d[(i - base) / 8], (i - base) % 8)
  }

  lemma BlockBits(v: seq<Block>, start: nat, bs: nat, blk: nat, bits: seq<bool>)
    requires BitsShown(v, start, bs, bits) && start + blk < |v| && |v[start + blk]| == bs
    ensures BlockShows(v[start + blk], blk * (bs * 8), bits)
  {
    hide Quot, Rem, BitByte, BitBit, Bit;
    var base := blk * (bs * 8);
    forall i | base <= i < base + bs * 8 && i < |bits|
      ensures bits[i] == Bit(v[start + blk][(i - base) / 8], (i - base) % 8)
    {
      var k, b := (i - base) / 8, (i - base) % 8;
      assert i == base + k * 8 + b;
      BitAddress(blk, k, b, bs);
    }
  }

  /** Seen from the data region. */
  lemma RegionSettles(g: Geometry, view: seq<Block>, was: seq<Block>, now: seq<Block>, b: nat)
    requires Image(g, view) && Settles(view, was, now, b, b + 1)
    ensures |was| == |now| == g.holeBlkNum
    ensures b < g.dataRegionStart ==>
              Settles(Abs(g, view).data, was[g.dataRegionStart..], now[g.dataRegionStart..], 0, 0)
    ensures b >= g.dataRegionStart ==>
              Settles(Abs(g, view).data, was[g.dataRegionStart..], now[g.dataRegionStart..],
                      b - g.dataRegionStart, b - g.dataRegionStart + 1)
  {
    hide Quot, Rem, BitAt, InodeAt, Abs;
  }

  lemma RegionSettled(g: Geometry, view: seq<Block>, was: seq<Block>, now: seq<Block>)
    requires Image(g, view) && Settles(view, was, now, 0, 0)
    ensures |was| == |now| == g.holeBlkNum
    ensures Settles(Abs(g, view).data, was[g.dataRegionStart..], now[g.dataRegionStart..], 0, 0)
  {
    RegionSettles(g, view, was, now, 0);
  }

  /** Which time fields an operation stamps (MOFS_INODE_TIME_*). */
  datatype Times = Times(a: bool, m: bool, c: bool)

  /** mofs_inode_stamp_now on a record; only time fields change. */
  function Stamp(rec: Inode, mask: Times, now: nat): Inode {
    rec.(atime := if mask.a then now else rec.atime,
         mtime := if mask.m then now else rec.mtime,
         ctime := if mask.c then now else rec.ctime)
  }

  /** The node was changed at `now`, and not read. */
  ghost predicate ChangedAt(was: Inode, rec: Inode, now: nat) {
    rec.atime == was.atime && rec.mtime == now && rec.ctime == now
  }

  /** The node was read at `now`, and not changed. */
  ghost predicate AccessedAt(was: Inode, rec: Inode, now: nat) {
    rec.atime == now && rec.mtime == was.mtime && rec.ctime == was.ctime
  }

  /** The record of the node was changed at `now`, and not the node. */
  ghost predicate RecordedAt(was: Inode, rec: Inode, now: nat) {
    rec.atime == was.atime && rec.mtime == was.mtime && rec.ctime == now
  }

  /** The node was made at `now`. */
  ghost predicate MadeAt(rec: Inode, now: nat) {
    rec.atime == now && rec.mtime == now && rec.ctime == now
  }

  /** All but the times. */
  ghost predicate SameButTimes(was: Inode, rec: Inode) {
    && rec.size == was.size && rec.links == was.links && rec.mode == was.mode
    && rec.uid == was.uid && rec.gid == was.gid
    && rec.head == was.head && rec.nr == was.nr && rec.reserved == was.reserved
  }

  /** The record free_inode leaves behind. */
  function ZeroInode(): Inode {
    Inode(0, 0, 0, 0, 0, 0, 0, 0, 0, 0, Zeros(16))
  }

  const LIMIT64: nat := 0x1_0000_0000_0000_0000

  class Volume {
    const geo: Geometry
    const io: BlockCache
    ghost var vol: Vol
    ghost var led: Ledger
    ghost const super: Block

    constructor (geo: Geometry, io: BlockCache, ghost led: Ledger)
      requires GeoValid(geo) && io.Valid() && io.Ready() && io.dev.bs == geo.blkSize
      requires Image(geo, io.view) && io.split <= geo.dataRegionStart
      ensures Valid() && vol == Abs(geo, io.view) && this.led == led && this.geo == geo && this.io == io
      ensures |io.view| > 0 && super == io.view[0]
    {
      super := io.view[0];
      this.geo := geo;
      this.io := io;
      this.led := led;
      vol := Abs(geo, io.view);
    }

    ghost function Repr(): set<object> {
      {this} + io.Repr()
    }

    /** The cache is in order, no device fault is pending and `vol` is what the blocks mean. */
    ghost predicate Valid()
      reads Repr()
      ensures Valid() ==> VolSized(geo, vol)
    {
      && this !in io.Repr()
      && GeoValid(geo) && io.Valid() && io.Ready() && io.dev.bs == geo.blkSize && io.split <= geo.dataRegionStart
      && Mounted(geo, io.view, vol, super)
    }

    /** What the device holds of the data region, behind the cache. */
    ghost function Disk(): (d: seq<Block>)
      reads Repr()
      requires Valid()
      ensures |d| == geo.dataBlkNum && forall i :: 0 <= i < |d| ==> |d[i]| == geo.blkSize
    {
      assert |io.dev.blocks| == geo.holeBlkNum == geo.dataRegionStart + geo.dataBlkNum by {
        GeoRoom(geo);
      }
      io.dev.blocks[geo.dataRegionStart..]
    }

    /** Bring the bookkeeping of owners up to date. */
    ghost method Record(l: Ledger)
      requires Valid()
      modifies this`led
      ensures Valid() && led == l && Disk() == old(Disk())
    {
      led := l;
    }

    /** Write everything back: what the device holds is what the volume is. */
    method Flush() returns (err: Errno)
      requires Valid()
      modifies io.Repr()
      ensures Valid() && err == Ok && io.dev.blocks == io.view && |io.view| > 0 && io.view[0] == super
      ensures Image(geo, io.dev.blocks) && Abs(geo, io.dev.blocks) == vol
    {
      hide BlockCache.Valid, BlockCache.Ready, Abs;
      err := io.Flush(Ok);
    }

    /** Read one block, as read_list_node does: anything but a whole block is an I/O error. */
    method ReadBlock(b: nat) returns (err: Errno, d: Block)
      requires Valid() && b < geo.holeBlkNum
      modifies io.Repr()
      ensures Valid() && io.view == old(io.view)
      ensures err == Ok && d == io.view[b] && |d| == geo.blkSize
      ensures Settles(io.view, old(io.dev.blocks), io.dev.blocks, 0, 0) && Settles(vol.data, old(Disk()), Disk(), 0, 0)
    {
      hide BlockCache.Valid, BlockCache.Ready, Abs;
      var buf, part;
      err, buf, part := io.ReadBlocks(b, 1);
      if err == Ok && (|buf| != 1 || part != []) {
        err := EIO;
      }
      d := if |buf| == 1 then buf[0] else [];
      RegionSettled(geo, io.view, old(io.dev.blocks), io.dev.blocks);
    }

    /** Write one block; the meaning of the volume is brought up to date by the caller. */
    method WriteBlock(b: nat, d: Block) returns (err: Errno)
      requires Valid() && b < geo.holeBlkNum && |d| == geo.blkSize
      modifies io.Repr()
      ensures io.Valid() && io.Ready() && io.view == old(io.view)[b := d]
      ensures err == Ok && Settles(old(io.view), old(io.dev.blocks), io.dev.blocks, b, b + 1)
    {
      hide BlockCache.Valid, BlockCache.Ready, Abs;
      var written, fraction;
      var one := [d];
      err, written, fraction := io.WriteBlocks(b, one);
      assert io.view[b + 0] == one[0];
      if err == Ok && (written != 1 || fraction != 0) {
        err := EIO;
      }
      assert io.view == old(io.view)[b := d];
    }

    /** set_data_bitmap_bit. */
    method SetDataBit(i: nat, on: bool) returns (err: Errno)
      requires Valid()
      modifies this`vol, io.Repr()
      ensures Valid()
      ensures Settles(vol.data, old(Disk()), Disk(), 0, 0)
      ensures i < geo.dataBlkNum ==> err == Ok && vol == old(vol).(bits := old(vol).bits[i := on])
      ensures i >= geo.dataBlkNum ==> err == EINVAL && vol == old(vol)
    {
      hide BlockCache.Valid, BlockCache.Ready, Abs, PatchBit, Quot, Rem, BitAt;
      if i >= geo.dataBlkNum {
        return EINVAL;
      }
      var bits := geo.blkSize * 8;
      QuotRem(i, bits);
      AbsDataBit(geo, io.view, i, on);
      var target := geo.dataBitmapStart + i / bits;
      var buf;
      err, buf := ReadBlock(target);
      if err != Ok {
        return;
      }
      ghost var disk := io.dev.blocks;
      err := WriteBlock(target, PatchBit(buf, geo.blkSize, i, on));
      RegionSettles(geo, old(io.view), disk, io.dev.blocks, target);
      vol := vol.(bits := vol.bits[i := on]);
    }

    /** set_inode_bitmap_bit: inodes 0 to 2 are reserved. */
    method SetInodeBit(i: nat, on: bool) returns (err: Errno)
      requires Valid()
      modifies this`vol, io.Repr()
      ensures Valid()
      ensures Settles(vol.data, old(Disk()), Disk(), 0, 0)
      ensures 3 <= i < geo.inodeNum ==> err == Ok && vol == old(vol).(ibits := old(vol).ibits[i := on])
      ensures !(3 <= i < geo.inodeNum) ==> err == EINVAL && vol == old(vol)
    {
      hide BlockCache.Valid, BlockCache.Ready, Abs, PatchBit, Quot, Rem, BitAt;
      if i < 3 || i >= geo.inodeNum {
        return EINVAL;
      }
      var bits := geo.blkSize * 8;
      QuotRem(i, bits);
      AbsInodeBit(geo, io.view, i, on);
      var target := geo.inodeBitmapStart + i / bits;
      var buf;
      err, buf := ReadBlock(target);
      if err != Ok {
        return;
      }
      ghost var disk := io.dev.blocks;
      err := WriteBlock(target, PatchBit(buf, geo.blkSize, i, on));
      RegionSettles(geo, old(io.view), disk, io.dev.blocks, target);
      vol := vol.(ibits := vol.ibits[i := on]);
    }

    /** The two inner loops of the bitmap scan: bytes of one bitmap block, bits of one byte. */
    method ScanBlock(d: Block, base: nat, lo: nat, limit: nat, want: nat, before: seq<nat>, ghost bits: seq<bool>)
      returns (found: seq<nat>, ghost pos: nat)
      requires |bits| == limit && |before| < want && before == Clear(bits, lo, Min(base, limit))
      requires BlockShows(d, base, bits)
      ensures pos <= limit && found == Clear(bits, lo, pos) && |found| <= want
      ensures |found| < want ==> pos == Min(base + |d| * 8, limit)
    {
      hide Bit;
      found, pos := before, Min(base, limit);
      var byt := 0;
      while byt < |d| && |found| < want
        invariant byt <= |d| && pos <= limit && found == Clear(bits, lo, pos) && |found| <= want
        invariant |found| < want ==> pos == Min(base + byt * 8, limit)
      {
        var bit := 0;
        while bit < 8 && |found| < want
          invariant bit <= 8 && pos <= limit && found == Clear(bits, lo, pos) && |found| <= want
          invariant |found| < want ==> pos == Min(base + byt * 8 + bit, limit)
        {
          var idx := base + byt * 8 + bit;
          if idx >= limit {
            break;
          }
          assert (idx - base) / 8 == byt && (idx - base) % 8 == bit;
          if idx >= lo && !Bit(d[byt], bit) {
            found := found + [idx];
          }
          pos := idx + 1;
          bit := bit + 1;
        }
        byt := byt + 1;
      }
    }

    /** The bitmap scan: the `want` lowest clear indices from `lo`, or no space when there are fewer. */
    method Scan(start: nat, blocks: nat, lo: nat, limit: nat, want: nat, ghost bits: seq<bool>)
      returns (err: Errno, found: seq<nat>)
      requires Valid() && start + blocks <= geo.holeBlkNum && |bits| == limit <= blocks * (geo.blkSize * 8)
      requires BitsShown(io.view, start, geo.blkSize, bits)
      modifies io.Repr()
      ensures Valid()
      ensures Settles(vol.data, old(Disk()), Disk(), 0, 0)
      ensures err == if |Clear(bits, lo, limit)| >= want then Ok else ENOSPC
      ensures err == Ok ==> found == Clear(bits, lo, limit)[..want]
    {
      hide BlockCache.Valid, BlockCache.Ready, Abs, BitsShown, BlockShows, Clear;
      found := [];
      if want == 0 {
        return Ok, found;
      }
      ghost var pos: nat := 0;
      ClearEmpty(bits, lo);
      var blk := 0;
      while blk < blocks && |found| < want
        invariant Valid() && io.view == old(io.view) && blk <= blocks && pos <= limit
        invariant Settles(vol.data, old(Disk()), Disk(), 0, 0)
        invariant found == Clear(bits, lo, pos) && |found| <= want
        invariant |found| < want ==> pos == Min(blk * (geo.blkSize * 8), limit)
      {
        var buf;
        err, buf := ReadBlock(start + blk);
        if err != Ok {
          return;
        }
        BlockBits(io.view, start, geo.blkSize, blk, bits);
        found, pos := ScanBlock(buf, blk * (geo.blkSize * 8), lo, limit, want, found, bits);
        assert (blk + 1) * (geo.blkSize * 8) == blk * (geo.blkSize * 8) + geo.blkSize * 8;
        blk := blk + 1;
      }
      ClearPrefix(bits, lo, pos, limit);
      err := if |found| < want then ENOSPC else Ok;
    }

    /** find_free_data_block_indices. */
    method FindFreeData(want: nat) returns (err: Errno, found: seq<nat>)
      requires Valid()
      modifies io.Repr()
      ensures Valid()
      ensures Settles(vol.data, old(Disk()), Disk(), 0, 0)
      ensures err == if want <= FreeCount(vol.bits) then Ok else ENOSPC
      ensures err == Ok ==> found == Lowest(vol.bits, want)
    {
      hide BlockCache.Valid, BlockCache.Ready, Abs, BitsShown, Clear;
      AbsBitsShown(geo, io.view);
      err,
        found := Scan(geo.dataBitmapStart, geo.inodeTableStart - geo.dataBitmapStart, 0, geo.dataBlkNum, want,
        vol.bits);
    }

    /** find_free_inode_indices: the reserved indices 0 to 2 are skipped. */
    method FindFreeInode(want: nat) returns (err: Errno, found: seq<nat>)
      requires Valid()
      modifies io.Repr()
      ensures Valid()
      ensures Settles(vol.data, old(Disk()), Disk(), 0, 0)
      ensures err == if |Clear(vol.ibits, 3, geo.inodeNum)| >= want then Ok else ENOSPC
      ensures err == Ok ==> found == Clear(vol.ibits, 3, geo.inodeNum)[..want]
    {
      hide BlockCache.Valid, BlockCache.Ready, Abs, BitsShown, Clear;
      AbsBitsShown(geo, io.view);
      err,
        found := Scan(geo.inodeBitmapStart, geo.dataBitmapStart - geo.inodeBitmapStart, 3, geo.inodeNum, want,
        vol.ibits);
    }

    /** mofs_read_inode. */
    method ReadInode(n: nat) returns (err: Errno, rec: Inode)
      requires Valid()
      modifies io.Repr()
      ensures Valid()
      ensures Settles(vol.data, old(Disk()), Disk(), 0, 0)
      ensures n < geo.inodeNum ==> err == Ok && rec == vol.inodes[n]
      ensures n >= geo.inodeNum ==> err == EINVAL
    {
      hide BlockCache.Valid, BlockCache.Ready, Quot, Rem, BitAt, Decode;
      rec := Decode(Zeros(INODE_SIZE));
      if n >= geo.inodeNum {
        return EINVAL, rec;
      }
      QuotRem(n * INODE_SIZE, geo.blkSize);
      assert geo.inodeTableStart + InoBlk(geo, n) < geo.dataRegionStart;
      var buf;
      err, buf := ReadBlock(geo.inodeTableStart + n * INODE_SIZE / geo.blkSize);
      if err == Ok {
        var off := InodeOff(n, geo.blkSize);
        rec := Decode(buf[off..off + INODE_SIZE]);
      }
    }

    /** mofs_write_inode: patched inside the cache, or read, spliced and written back without it. */
    method WriteInode(n: nat, rec: Inode) returns (err: Errno)
      requires Valid() && Fits(rec)
      modifies this`vol, io.Repr()
      ensures Valid()
      ensures Settles(vol.data, old(Disk()), Disk(), 0, 0)
      ensures n < geo.inodeNum ==> err == Ok && vol == old(vol).(inodes := old(vol).inodes[n := rec])
      ensures n >= geo.inodeNum ==> err == EINVAL && vol == old(vol)
    {
      hide BlockCache.Valid, BlockCache.Ready, BlockCache.Roomy, Quot, Rem, BitAt, Encode, Abs, Splice;
      if n >= geo.inodeNum {
        return EINVAL;
      }
      QuotRem(n * INODE_SIZE, geo.blkSize);
      AbsInode(geo, io.view, n, rec);
      var blk, off := geo.inodeTableStart + n * INODE_SIZE / geo.blkSize, InodeOff(n, geo.blkSize);
      err := PatchBlock(blk, off, Encode(rec));
      RegionSettles(geo, old(io.view), old(io.dev.blocks), io.dev.blocks, blk);
      vol := vol.(inodes := vol.inodes[n := rec]);
    }

    /** Replace a byte range of one block; the meaning of the volume is brought up to date by the caller. */
    method PatchBlock(b: nat, off: nat, bytes: Block) returns (err: Errno)
      requires Valid() && b < geo.holeBlkNum && bytes != [] && off + |bytes| <= geo.blkSize
      modifies io.Repr()
      ensures io.Valid() && io.Ready() && |old(io.view)[b]| == geo.blkSize
      ensures io.view == old(io.view)[b := Splice(old(io.view)[b], off, bytes)]
      ensures err == Ok && Settles(old(io.view), old(io.dev.blocks), io.dev.blocks, b, b + 1)
    {
      hide BlockCache.Valid, BlockCache.Ready, BlockCache.Roomy, Abs, Splice;
      err := io.ModifyBlock(b, off, bytes);
      if err == EINVAL {
        var buf;
        err, buf := ReadBlock(b);
        if err == Ok {
          err := WriteBlock(b, Splice(buf, off, bytes));
        }
      }
    }

    /** mofs_inode_stamp_persist: read, stamp and write back one record of the table. */
    method StampPersist(n: nat, mask: Times, now: nat) returns (err: Errno)
      requires Valid() && now < LIMIT64
      modifies this`vol, io.Repr()
      ensures Valid()
      ensures Settles(vol.data, old(Disk()), Disk(), 0, 0)
      ensures n < geo.inodeNum && mask != Times(false, false, false) ==>
                err == Ok && vol == old(vol).(inodes := old(vol).inodes[n := Stamp(old(vol).inodes[n], mask, now)])
      ensures err == Ok ==>
                && n < geo.inodeNum && SameButTimes(old(vol).inodes[n], vol.inodes[n])
                && vol.inodes[n].atime == (if mask.a then now else old(vol).inodes[n].atime)
                && vol.inodes[n].mtime == (if mask.m then now else old(vol).inodes[n].mtime)
                && vol.inodes[n].ctime == (if mask.c then now else old(vol).inodes[n].ctime)
      ensures !(n < geo.inodeNum && mask != Times(false, false, false)) ==> err == EINVAL && vol == old(vol)
    {
      hide BlockCache.Valid, BlockCache.Ready, Quot, Rem, BitAt, Encode, Decode, InodeOff, Abs, Splice;
      if n >= geo.inodeNum || !(mask.a || mask.m || mask.c) {
        return EINVAL;
      }
      QuotRem(n * INODE_SIZE, geo.blkSize);
      ghost var rec := Stamp(vol.inodes[n], mask, now);
      AbsInode(geo, io.view, n, rec);
      AbsInodeBytes(geo, io.view, n);
      var blk, off := geo.inodeTableStart + n * INODE_SIZE / geo.blkSize, InodeOff(n, geo.blkSize);
      var buf;
      err, buf := ReadBlock(blk);
      if err == Ok {
        ghost var disk := io.dev.blocks;
        err := WriteBlock(blk, Splice(buf, off, Encode(Stamp(Decode(buf[off..off + INODE_SIZE]), mask, now))));
        RegionSettles(geo, old(io.view), disk, io.dev.blocks, blk);
      }
      vol := vol.(inodes := vol.inodes[n := rec]);
    }

    /** allocate_inode. */
    method AllocateInode() returns (err: Errno, n: nat)
      requires Valid()
      modifies this`vol, io.Repr()
      ensures Valid()
      ensures Settles(vol.data, old(Disk()), Disk(), 0, 0)
      ensures err == if Clear(old(vol).ibits, 3, geo.inodeNum) != [] then Ok else ENOSPC
      ensures err == Ok ==> n == Clear(old(vol).ibits, 3, geo.inodeNum)[0]
      ensures err == Ok ==> 3 <= n < geo.inodeNum && !old(vol).ibits[n]
      ensures err == Ok ==> vol == old(vol).(ibits := old(vol).ibits[n := true])
      ensures err != Ok ==> vol == old(vol)
    {
      hide BlockCache.Valid, BlockCache.Ready, Abs, Clear;
      var found;
      n := 0;
      err, found := FindFreeInode(1);
      if err != Ok {
        return;
      }
      ClearFacts(vol.ibits, 3, geo.inodeNum);
      n := found[0];
      err := SetInodeBit(n, true);
      assert vol.ibits[n] && !old(vol).ibits[n];
    }

    /** free_inode: the bit is cleared and the record zeroed. */
    method FreeInode(n: nat) returns (err: Errno)
      requires Valid()
      modifies this`vol, io.Repr()
      ensures Valid()
      ensures Settles(vol.data, old(Disk()), Disk(), 0, 0)
      ensures 3 <= n < geo.inodeNum ==> err == Ok
      ensures 3 <= n < geo.inodeNum ==>
                vol == old(vol).(ibits := old(vol).ibits[n := false], inodes := old(vol).inodes[n := ZeroInode()])
      ensures !(3 <= n < geo.inodeNum) ==> err == EINVAL && vol == old(vol)
    {
      hide BlockCache.Valid, BlockCache.Ready, Abs;
      if n < 3 || n >= geo.inodeNum {
        return EINVAL;
      }
      err := SetInodeBit(n, false);
      if err == Ok {
        err := WriteInode(n, ZeroInode());
      }
    }

    /** Read a block of the data region: a list node or file data. */
    method ReadData(abs: nat) returns (err: Errno, d: Block)
      requires Valid() && geo.dataRegionStart <= abs < geo.holeBlkNum
      modifies io.Repr()
      ensures Valid() && err == Ok && d == vol.data[abs - geo.dataRegionStart]
      ensures Settles(vol.data, old(Disk()), Disk(), 0, 0)
    {
      hide BlockCache.Valid, BlockCache.Ready, Quot, Rem, BitAt, InodeAt;
      err, d := ReadBlock(abs);
      assert d == io.view[geo.dataRegionStart + (abs - geo.dataRegionStart)];
    }

    /** Write a block of the data region. */
    method WriteData(abs: nat, d: Block) returns (err: Errno)
      requires Valid() && geo.dataRegionStart <= abs < geo.holeBlkNum && |d| == geo.blkSize
      modifies this`vol, io.Repr()
      ensures Valid() && err == Ok && vol == old(vol).(data := old(vol).data[abs - geo.dataRegionStart := d])
      ensures Settles(old(vol).data, old(Disk()), Disk(), abs - geo.dataRegionStart, abs - geo.dataRegionStart + 1)
    {
      hide BlockCache.Valid, BlockCache.Ready, Abs;
      AbsElsewhere(geo, io.view, abs, d);
      err := WriteBlock(abs, d);
      RegionSettles(geo, old(io.view), old(io.dev.blocks), io.dev.blocks, abs);
      vol := vol.(data := vol.data[abs - geo.dataRegionStart := d]);
    }

    /** Drop the cached copy of a data-region block: with a cache the block shows again what the device holds. */
    method Invalidate(abs: nat)
      requires Valid() && geo.dataRegionStart <= abs < geo.holeBlkNum
      modifies this`vol, io.Repr()
      ensures Valid() && Disk() == old(Disk())
      ensures var i := abs - geo.dataRegionStart;
              vol == old(vol).(data := old(vol).data[i := if io.enabled then Disk()[i] else old(vol).data[i]])
    {
      hide BlockCache.Valid, BlockCache.Ready, Abs;
      ghost var v := io.view;
      io.Invalidate(abs);
      assert io.view == v[abs := io.view[abs]];
      AbsElsewhere(geo, v, abs, io.view[abs]);
      vol := vol.(data := vol.data[abs - geo.dataRegionStart := io.view[abs]]);
    }
  }
}
