/** mofs_format: the layout of a fresh volume and the image written to it. */
module Formatting {
  import opened Errors
  import opened Bytes
  import opened Layout
  import opened ListNodes
  import opened Mapping
  import opened Volumes
  import opened Ownership
  import opened FileBytes
  import opened FileData
  import opened FileOps
  import opened ByteFiles
  import opened FileRuns
  import opened Dirents
  import opened Namespace
  import opened TreeShape

  // ---------------------------------------------------------------- layout arithmetic

  /** Blocks of the inode bitmap, the data bitmap and the inode table. */
  datatype Plan = Plan(hole: nat, inodeNum: nat, inodeMap: nat, dataMap: nat, table: nat)

  function PlanFor(devSize: nat, bs: nat): Plan
    requires bs > 0
  {
    var hole, inodeNum := devSize / bs, CeilDiv(devSize, bs * 4);
    Plan(hole, inodeNum, CeilDiv(inodeNum, bs * 8), CeilDiv(hole, bs * 8), CeilDiv(inodeNum * INODE_SIZE, bs))
  }

  /** Blocks before the data region. */
  function Reserved(p: Plan): nat {
    1 + p.inodeMap + p.dataMap + p.table
  }

  function GeoOf(p: Plan, bs: nat): Geometry
    requires Reserved(p) <= p.hole
  {
    Geometry(bs, p.hole, p.inodeNum, p.hole - Reserved(p), 1, 1 + p.inodeMap, 1 + p.inodeMap + p.dataMap, Reserved(p))
  }

  lemma CeilDivAtMost(n: nat, d: nat, q: nat)
    requires d > 0 && n <= q * d
    ensures CeilDiv(n, d) <= q
  {
    hide CeilDiv;
    CeilDivBounds(n, d);
    if CeilDiv(n, d) > q {
      MulMono(q, CeilDiv(n, d) - 1, d);
    }
  }

  lemma CeilDivDen(n: nat, d: nat, e: nat)
    requires 0 < d <= e
    ensures CeilDiv(n, e) <= CeilDiv(n, d)
  {
    hide CeilDiv;
    CeilDivBounds(n, d);
    MulMono(d, e, CeilDiv(n, d));
    CeilDivAtMost(n, e, CeilDiv(n, d));
  }

  lemma InodeBound(devSize: nat, bs: nat)
    requires ValidBlkSize(bs)
    ensures CeilDiv(devSize, bs * 4) <= (devSize / bs + 4) / 4
    ensures devSize / bs >= 1 ==> CeilDiv(devSize, bs * 4) >= 1
  {
    hide CeilDiv;
    var h := devSize / bs;
    var q := (h + 4) / 4;
    MulMono(h + 1, q * 4, bs);
    CeilDivAtMost(devSize, bs * 4, q);
    CeilDivBounds(devSize, bs * 4);
  }

  /** Bounds on the metadata that hold for every block size. */
  lemma ReservedBounds(devSize: nat, bs: nat)
    requires ValidBlkSize(bs)
    ensures var p := PlanFor(devSize, bs);
            && p.inodeNum <= (p.hole + 4) / 4
            && Reserved(p) <= 1 + (p.inodeNum + 4095) / 4096 + (p.hole + 4095) / 4096 + (p.inodeNum + 7) / 8
            && (p.hole >= 1 ==> Reserved(p) >= 4)
  {
    var p := PlanFor(devSize, bs);
    InodeBound(devSize, bs);
    CeilDivDen(p.inodeNum, 4096, bs * 8);
    CeilDivDen(p.hole, 4096, bs * 8);
    CeilDivDen(p.inodeNum * INODE_SIZE, 512, bs);
    CeilDivBounds(p.inodeNum, bs * 8);
    CeilDivBounds(p.hole, bs * 8);
    CeilDivBounds(p.inodeNum * INODE_SIZE, bs);
  }

  /** The check for a volume too small for its own metadata turns away exactly the volumes of at most four blocks. */
  lemma TooSmall(devSize: nat, bs: nat)
    requires ValidBlkSize(bs)
    ensures PlanFor(devSize, bs).hole <= Reserved(PlanFor(devSize, bs)) <==> devSize / bs <= 4
  {
    hide CeilDiv;
    ReservedBounds(devSize, bs);
  }

  /** Two inodes are reserved and the third is the root, so that an accepted volume can be mounted exactly if it is
      larger than eight blocks. */
  lemma PlanValid(devSize: nat, bs: nat)
    requires ValidBlkSize(bs) && devSize / bs > 4 && devSize / bs < LIMIT32
    ensures Reserved(PlanFor(devSize, bs)) < devSize / bs
    ensures GeoValid(GeoOf(PlanFor(devSize, bs), bs)) <==> devSize > 8 * bs
    ensures devSize > 8 * bs ==> PlanFor(devSize, bs).hole - Reserved(PlanFor(devSize, bs)) >= 2
  {
    hide CeilDiv;
    var p := PlanFor(devSize, bs);
    ReservedBounds(devSize, bs);
    CeilDivBounds(p.inodeNum, bs * 8);
    CeilDivBounds(p.hole, bs * 8);
    CeilDivBounds(p.inodeNum * INODE_SIZE, bs);
    InodeCount(devSize, bs);
  }

  lemma InodeCount(devSize: nat, bs: nat)
    requires ValidBlkSize(bs) && devSize / bs < LIMIT32
    ensures CeilDiv(devSize, bs * 4) > 2 <==> devSize > 8 * bs
    ensures CeilDiv(devSize, bs * 4) < LIMIT32
  {
  }

  /** One inode for four blocks or part of them, and every region of the metadata no larger than it has to be. */
  ghost predicate Tight(g: Geometry, size: nat) {
    && (g.inodeNum - 1) * (g.blkSize * 4) < size <= g.inodeNum * (g.blkSize * 4)
    && g.inodeBitmapStart == 1
    && Fewest(g.dataBitmapStart - 1, g.blkSize * 8, g.inodeNum)
    && Fewest(g.inodeTableStart - g.dataBitmapStart, g.blkSize * 8, g.holeBlkNum)
    && Fewest(g.dataRegionStart - g.inodeTableStart, g.blkSize, g.inodeNum * 64)
    && g.dataRegionStart + g.dataBlkNum == g.holeBlkNum
  }

  /** `k` units of `unit` hold `n`, and fewer do not. */
  ghost predicate Fewest(k: int, unit: nat, n: nat) {
    (k - 1) * unit < n <= k * unit
  }

  lemma PlanTight(size: nat, bs: nat)
    requires ValidBlkSize(bs) && size / bs > 4
    ensures Reserved(PlanFor(size, bs)) < size / bs && Tight(GeoOf(PlanFor(size, bs), bs), size)
  {
    hide CeilDiv;
    TooSmall(size, bs);
    var p := PlanFor(size, bs);
    CeilDivBounds(size, bs * 4);
    CeilDivBounds(p.inodeNum, bs * 8);
    CeilDivBounds(p.hole, bs * 8);
    CeilDivBounds(p.inodeNum * INODE_SIZE, bs);
    FewestIs(p.inodeMap, bs * 8, p.inodeNum);
    FewestIs(p.dataMap, bs * 8, p.hole);
    FewestIs(p.table, bs, p.inodeNum * 64);
    FewestIs(p.inodeNum, bs * 4, size);
  }

  lemma FewestIs(k: nat, unit: nat, n: nat)
    requires unit > 0 && n > 0 && k == CeilDiv(n, unit)
    ensures Fewest(k, unit, n)
  {
    hide CeilDiv;
    CeilDivBounds(n, unit);
  }

  /** The place of an inode record is computed as its number times the record size, in a C int. It fits for every inode
      of a formatted volume exactly up to 2^27 blocks. */
  lemma PlaceFits(devSize: nat, bs: nat)
    requires ValidBlkSize(bs)
    ensures (forall n :: 0 <= n < PlanFor(devSize, bs).inodeNum ==> n * INODE_SIZE < 0x8000_0000)
            <==> devSize <= 0x800_0000 * bs
  {
    hide CeilDiv;
    var m := PlanFor(devSize, bs).inodeNum;
    CeilDivBounds(devSize, bs * 4);
    if devSize <= 0x800_0000 * bs {
      CeilDivAtMost(devSize, bs * 4, 0x200_0000);
    } else {
      if m <= 0x200_0000 {
        MulMono(m, 0x200_0000, bs * 4);
      }
      assert 0x200_0000 * INODE_SIZE >= 0x8000_0000;
    }
  }

  // ---------------------------------------------------------------- the image

  /** A device the formatter writes to, block by block. */
  class RawDisk {
    const bs: nat
    var blocks: seq<Block>

    ghost predicate Valid()
      reads this
    {
      Sized(blocks, |blocks|, bs)
    }

    constructor (blocks: seq<Block>, bs: nat)
      requires Sized(blocks, |blocks|, bs)
      ensures Valid() && this.blocks == blocks && this.bs == bs
    {
      this.bs := bs;
      this.blocks := blocks;
    }

    /** clear_blocks. */
    method Clear(b: nat)
      requires Valid() && b < |blocks|
      modifies this
      ensures Valid() && blocks == old(blocks)[b := Zeros(bs)]
    {
      blocks := blocks[b := Zeros(bs)];
    }

    /** Seek to byte `off` of block `b` and write `bytes` there. */
    method Put(b: nat, off: nat, bytes: Block)
      requires Valid() && b < |blocks| && off + |bytes| <= bs
      modifies this
      ensures Valid() && |old(blocks)[b]| == bs && blocks == old(blocks)[b := Splice(old(blocks)[b], off, bytes)]
    {
      blocks := blocks[b := Splice(blocks[b], off, bytes)];
    }
  }

  function RootRec(g: Geometry, now: nat): Inode {
    Inode(g.blkSize, 2, FTYPE_DIR + 493, 0, 0, g.dataRegionStart + 1, 1, now, now, now, Zeros(16))
  }

  /** The list node of the root directory. */
  function RootList(g: Geometry): (b: Block)
    requires g.blkSize >= 12
    ensures |b| == g.blkSize
  {
    PutU32(PutU32(PutU32(Zeros(g.blkSize), 0, 0), 4, 1), 8, g.dataRegionStart)
  }

  /** What a fresh volume means: two blocks in use, one inode in use. */
  ghost predicate Fresh(g: Geometry, s: Vol, now: nat) {
    && |s.bits| == |s.data| == g.dataBlkNum >= 2 && |s.ibits| == |s.inodes| == g.inodeNum > ROOT_INODE
    && (forall i :: 0 <= i < |s.bits| ==> s.bits[i] == (i < 2))
    && (forall i :: 0 <= i < |s.ibits| ==> s.ibits[i] == (i == ROOT_INODE))
    && (forall n :: 0 <= n < |s.inodes| ==> s.inodes[n] == if n == ROOT_INODE then RootRec(g, now) else ZeroInode())
    && g.blkSize >= 12 && s.data[0] == Zeros(g.blkSize) && s.data[1] == RootList(g)
  }

  lemma {:induction false} NoBits(k: nat)
    ensures !Bit(0, k)
  {
    if k > 0 {
      NoBits(k - 1);
    }
  }

  lemma {:induction false} LeZero(n: nat)
    ensures FromLe(Zeros(n)) == 0
  {
    if n > 0 {
      LeZero(n - 1);
      assert Zeros(n)[1..] == Zeros(n - 1);
    }
  }

  lemma ZeroRecord()
    ensures Decode(Zeros(INODE_SIZE)) == ZeroInode()
  {
    hide FromLe;
    var z := Zeros(INODE_SIZE);
    LeZero(2);
    LeZero(4);
    LeZero(8);
    assert z[0..4] == Zeros(4) && z[4..6] == Zeros(2) && z[6..8] == Zeros(2) && z[8..12] == Zeros(4)
      && z[12..16] == Zeros(4);
    assert z[16..20] == Zeros(4) && z[20..24] == Zeros(4) && z[24..32] == Zeros(8) && z[32..40] == Zeros(8)
      && z[40..48] == Zeros(8);
    assert z[48..64] == Zeros(16);
  }

  /** Nothing is in use on a volume whose metadata is all zeros. */
  lemma ClearedAbs(g: Geometry, v: seq<Block>)
    requires Image(g, v) && forall b :: 0 <= b < g.dataRegionStart ==> v[b] == Zeros(g.blkSize)
    ensures forall i :: 0 <= i < g.dataBlkNum ==> !Abs(g, v).bits[i]
    ensures forall i :: 0 <= i < g.inodeNum ==> !Abs(g, v).ibits[i] && Abs(g, v).inodes[i] == ZeroInode()
  {
    hide Quot, Rem, Bit, Decode, InodeOff, BitByte, BitBit;
    ZeroRecord();
    forall i | 0 <= i < g.dataBlkNum ensures !DataBit(g, v, i) {
      assert g.dataBitmapStart + BitBlk(g, i) < g.inodeTableStart;
      NoBits(BitBit(i, g.blkSize));
    }
    forall i | 0 <= i < g.inodeNum ensures !InodeBit(g, v, i) {
      assert g.inodeBitmapStart + BitBlk(g, i) < g.dataBitmapStart;
      NoBits(BitBit(i, g.blkSize));
    }
    forall n | 0 <= n < g.inodeNum ensures InodeRec(g, v, n) == ZeroInode() {
      assert g.inodeTableStart + InoBlk(g, n) < g.dataRegionStart;
      var off := InodeOff(n, g.blkSize);
      assert Zeros(g.blkSize)[off..off + INODE_SIZE] == Zeros(INODE_SIZE);
    }
  }

  lemma FirstBits(bs: nat, i: nat)
    requires bs >= 512 && i < 8
    ensures Quot(i, bs * 8) == 0 && BitByte(i, bs) == 0 && BitBit(i, bs) == i
  {
    QuotRemUnique(i, bs * 8, 0, i);
  }

  /** The byte 0x04 at the start of a cleared block is bit 2; the byte 0x03 is bits 0 and 1. */
  lemma RootBytes(bs: nat)
    requires bs >= 512
    ensures Splice(Zeros(bs), 0, [4]) == PatchBit(Zeros(bs), bs, 2, true)
    ensures Splice(Zeros(bs), 0, [3]) == PatchBit(PatchBit(Zeros(bs), bs, 0, true), bs, 1, true)
  {
    hide Quot, Rem, BitByte, BitBit;
    FirstBits(bs, 0);
    FirstBits(bs, 1);
    FirstBits(bs, 2);
    assert PutBit(0, 2, true) == 4 && PutBit(0, 0, true) == 1 && PutBit(1, 1, true) == 3;
  }

  /** The image after the metadata was cleared: superblock and the two bitmap bytes. */
  ghost function Bitmapped(g: Geometry, v: seq<Block>, super: Block): seq<Block>
    requires GeoValid(g) && g.holeBlkNum <= |v| && Sized(v, |v|, g.blkSize) && |super| <= g.blkSize
  {
    var w1 := v[0 := Splice(v[0], 0, super)];
    var w2 := w1[g.inodeBitmapStart := Splice(w1[g.inodeBitmapStart], 0, [4])];
    w2[g.dataBitmapStart := Splice(w2[g.dataBitmapStart], 0, [3])]
  }

  ghost predicate Strict(g: Geometry) {
    GeoValid(g) && 0 < g.inodeBitmapStart < g.dataBitmapStart < g.inodeTableStart < g.dataRegionStart
      && g.dataBlkNum >= 2
  }

  lemma BitmappedAbs(g: Geometry, v: seq<Block>, super: Block)
    requires Strict(g) && Sized(v, g.holeBlkNum, g.blkSize) && |super| <= g.blkSize
    requires forall b :: 0 <= b < g.dataRegionStart ==> v[b] == Zeros(g.blkSize)
    ensures Image(g, v) && Image(g, Bitmapped(g, v, super))
    ensures Abs(g, Bitmapped(g, v, super)) ==
            Abs(g, v).(bits := Abs(g, v).bits[0 := true][1 := true], ibits := Abs(g, v).ibits[2 := true])
  {
    hide Quot, Rem, BitByte, BitBit, Abs, PatchBit, Splice, Room;
    GeoRoom(g);
    RootBytes(g.blkSize);
    FirstBits(g.blkSize, 0);
    FirstBits(g.blkSize, 1);
    FirstBits(g.blkSize, 2);
    var bs, z := g.blkSize, Zeros(g.blkSize);
    var w1 := v[0 := Splice(v[0], 0, super)];
    AbsElsewhere(g, v, 0, Splice(v[0], 0, super));
    AbsInodeBit(g, w1, 2, true);
    var w2 := w1[g.inodeBitmapStart := PatchBit(z, bs, 2, true)];
    AbsDataBit(g, w2, 0, true);
    var w3 := w2[g.dataBitmapStart := PatchBit(z, bs, 0, true)];
    AbsDataBit(g, w3, 1, true);
    assert w3[g.dataBitmapStart := PatchBit(PatchBit(z, bs, 0, true), bs, 1, true)] == Bitmapped(g, v, super);
  }

  /** The rest of the image: the root directory, its list node, its record. */
  ghost function WithRoot(g: Geometry, v: seq<Block>, now: nat): seq<Block>
    requires GeoValid(g) && g.dataBlkNum >= 2 && g.holeBlkNum <= |v| && Sized(v, |v|, g.blkSize)
  {
    var w4 := v[g.dataRegionStart := Zeros(g.blkSize)];
    var w5 := w4[g.dataRegionStart + 1 := RootList(g)];
    w5[g.inodeTableStart := Splice(w5[g.inodeTableStart], 2 * INODE_SIZE, Encode(RootRec(g, now)))]
  }

  lemma RootPlace(bs: nat)
    requires ValidBlkSize(bs)
    ensures Quot(2 * INODE_SIZE, bs) == 0 && InodeOff(2, bs) == 2 * INODE_SIZE
  {
    QuotRemUnique(2 * INODE_SIZE, bs, 0, 2 * INODE_SIZE);
  }

  lemma WithRootAbs(g: Geometry, v: seq<Block>, now: nat)
    requires Strict(g) && Image(g, v) && now < LIMIT64
    ensures Image(g, WithRoot(g, v, now))
    ensures Abs(g, WithRoot(g, v, now)) ==
            Abs(g, v).(data := Abs(g, v).data[0 := Zeros(g.blkSize)][1 := RootList(g)],
              inodes := Abs(g, v).inodes[2 := RootRec(g, now)])
  {
    hide Quot, Rem, Abs, Splice, Room, Encode, RootList, InodeOff;
    RootPlace(g.blkSize);
    AbsElsewhere(g, v, g.dataRegionStart, Zeros(g.blkSize));
    var w4 := v[g.dataRegionStart := Zeros(g.blkSize)];
    AbsElsewhere(g, w4, g.dataRegionStart + 1, RootList(g));
    var w5 := w4[g.dataRegionStart + 1 := RootList(g)];
    assert Fits(RootRec(g, now));
    AbsInode(g, w5, 2, RootRec(g, now));
  }

  lemma FormattedFresh(g: Geometry, v: seq<Block>, super: Block, now: nat)
    requires Strict(g) && Sized(v, g.holeBlkNum, g.blkSize) && |super| <= g.blkSize && now < LIMIT64
    requires forall b :: 0 <= b < g.dataRegionStart ==> v[b] == Zeros(g.blkSize)
    ensures Sized(Bitmapped(g, v, super), g.holeBlkNum, g.blkSize)
    ensures Image(g, WithRoot(g, Bitmapped(g, v, super), now))
      && Fresh(g, Abs(g, WithRoot(g, Bitmapped(g, v, super), now)), now)
  {
    hide Abs, Splice, Room, RootList, Bitmapped, WithRoot;
    GeoRoom(g);
    ClearedAbs(g, v);
    BitmappedAbs(g, v, super);
    WithRootAbs(g, Bitmapped(g, v, super), now);
  }

  lemma PlanFits(size: nat, bs: nat)
    requires ValidBlkSize(bs) && 4 < size / bs < LIMIT32
    ensures Reserved(PlanFor(size, bs)) < size / bs && SuperFits(Super(MAGIC, GeoOf(PlanFor(size, bs), bs)))
  {
    hide CeilDiv;
    TooSmall(size, bs);
    InodeCount(size, bs);
  }

  /** Blocks of a larger device behind the volume play no part. */
  lemma PrefixImage(g: Geometry, v: seq<Block>, super: Block, now: nat)
    requires Strict(g) && g.holeBlkNum <= |v| && Sized(v, |v|, g.blkSize) && |super| <= g.blkSize
    ensures var w := Bitmapped(g, v, super);
            && |w| == |v| && Sized(w, |w|, g.blkSize)
            && WithRoot(g, w, now)[..g.holeBlkNum] == WithRoot(g, Bitmapped(g, v[..g.holeBlkNum], super), now)
            && WithRoot(g, w, now)[0] == Splice(v[0], 0, super)
  {
    hide Splice, Encode, RootList, Room;
    var h := g.holeBlkNum;
    var w, x := Bitmapped(g, v, super), Bitmapped(g, v[..h], super);
    assert w[..h] == x;
    var y, z := w[g.dataRegionStart := Zeros(g.blkSize)][g.dataRegionStart + 1 := RootList(g)],
                x[g.dataRegionStart := Zeros(g.blkSize)][g.dataRegionStart + 1 := RootList(g)];
    assert y[..h] == z && y[g.inodeTableStart] == z[g.inodeTableStart];
  }

  /** Bytes of the volume to make: the requested number of blocks, or the whole device. */
  function VolumeBytes(devSize: nat, fsSize: int, bs: nat): nat {
    if fsSize > 0 then fsSize * bs else devSize
  }

  /** What formatting `size` bytes of a device of `n` blocks comes to. The metadata, the root directory and its list
      node are all that is written, so that a volume larger than its device is made as long as these have room. */
  ghost function FormatErr(bs: nat, size: nat, n: nat): Errno {
    if !ValidBlkSize(bs) || size / bs <= 4 then EINVAL
    else if Reserved(PlanFor(size, bs)) > n then EIO
    else if size / bs >= LIMIT32 then EINVAL
    else if Reserved(PlanFor(size, bs)) + 2 > n then EIO
    else Ok
  }

  /** On the whole of a device only the volume of five blocks runs past the end. */
  lemma FormatWhole(bs: nat, size: nat)
    requires ValidBlkSize(bs)
    ensures FormatErr(bs, size, size / bs) == if size / bs <= 4 || size / bs >= LIMIT32 then EINVAL
                                             else if size / bs == 5 then EIO else Ok
  {
    hide CeilDiv;
    if size / bs > 4 {
      TooSmall(size, bs);
      FiveBlocks(size, bs);
    }
  }

  method ClearFront(d: RawDisk, n: nat) returns (err: Errno)
    requires d.Valid()
    modifies d
    ensures d.Valid() && |d.blocks| == |old(d.blocks)| && err == if n > |d.blocks| then EIO else Ok
    ensures err == Ok ==> forall b :: 0 <= b < n ==> d.blocks[b] == Zeros(d.bs)
  {
    var i := 0;
    while i < n
      invariant d.Valid() && i <= n && i <= |d.blocks| == |old(d.blocks)|
      invariant forall b :: 0 <= b < i ==> d.blocks[b] == Zeros(d.bs)
    {
      if i >= |d.blocks| {
        return EIO;
      }
      d.Clear(i);
      i := i + 1;
    }
    err := Ok;
  }

  /** The superblock, the bits of the root, its directory block, its list node and its record. */
  method WriteRoot(d: RawDisk, g: Geometry, super: Block, now: nat) returns (err: Errno)
    requires d.Valid() && g.blkSize == d.bs && ValidBlkSize(d.bs) && |super| == SUPER_SIZE && now < LIMIT64
    requires 0 < g.inodeBitmapStart < g.dataBitmapStart < g.inodeTableStart < g.dataRegionStart <= |d.blocks|
    requires forall b :: 0 <= b < g.dataRegionStart ==> d.blocks[b] == Zeros(d.bs)
    modifies d
    ensures d.Valid() && |d.blocks| == |old(d.blocks)|
    ensures err == if g.dataRegionStart + 2 > |d.blocks| then EIO else Ok
    ensures err == Ok ==> d.blocks[0] == Splice(old(d.blocks)[0], 0, super)
    ensures err == Ok && GeoValid(g) && g.dataBlkNum >= 2 && g.holeBlkNum <= |d.blocks| ==>
              Image(g, d.blocks[..g.holeBlkNum]) && Fresh(g, Abs(g, d.blocks[..g.holeBlkNum]), now)
  {
    hide Room, Abs, Fresh, Splice, RootList, Encode;
    d.Put(0, 0, super);
    d.Put(g.inodeBitmapStart, 0, [4]);
    d.Put(g.dataBitmapStart, 0, [3]);
    if g.dataRegionStart >= |d.blocks| {
      return EIO;
    }
    d.Clear(g.dataRegionStart);
    if g.dataRegionStart + 1 >= |d.blocks| {
      return EIO;
    }
    d.Clear(g.dataRegionStart + 1);
    var list := RootList(g);
    d.Put(g.dataRegionStart + 1, 0, list);
    WholeBlock(Zeros(d.bs), list);
    d.Put(g.inodeTableStart, 2 * INODE_SIZE, Encode(RootRec(g, now)));
    if GeoValid(g) && g.dataBlkNum >= 2 && g.holeBlkNum <= |d.blocks| {
      FormattedFresh(g, old(d.blocks)[..g.holeBlkNum], super, now);
      assert d.blocks == WithRoot(g, Bitmapped(g, old(d.blocks), super), now);
      PrefixImage(g, old(d.blocks), super, now);
    }
    err := Ok;
  }

  /** mofs_format. A write past the end of the device is an I/O error. */
  method Format(d: RawDisk, devSize: nat, fsSize: int, now: nat) returns (err: Errno, g: Geometry)
    requires d.Valid() && now < LIMIT64 && (d.bs > 0 ==> |d.blocks| == devSize / d.bs)
    modifies d
    ensures d.Valid() && |d.blocks| == |old(d.blocks)|
    ensures err == FormatErr(d.bs, VolumeBytes(devSize, fsSize, d.bs), |d.blocks|)
    ensures err == Ok ==> g.blkSize == d.bs && g.holeBlkNum == VolumeBytes(devSize, fsSize, d.bs) / d.bs
    ensures err == Ok ==> g.holeBlkNum == (if fsSize > 0 then fsSize else devSize / d.bs)
    ensures err == Ok ==> Tight(g, VolumeBytes(devSize, fsSize, d.bs))
    ensures err == Ok ==> |d.blocks| > 0 && d.bs >= SUPER_SIZE && SuperOf(d.blocks[0]) == Super(MAGIC, g)
    ensures err == Ok ==> (GeoValid(g) <==> VolumeBytes(devSize, fsSize, d.bs) > 8 * d.bs)
    ensures err == Ok && GeoValid(g) && g.holeBlkNum <= |d.blocks| ==>
              Image(g, d.blocks[..g.holeBlkNum]) && Fresh(g, Abs(g, d.blocks[..g.holeBlkNum]), now)
  {
    hide Tight, CeilDiv, Room, Abs, Fresh, Splice, SuperBytes, RootList, Encode, SuperOf;
    g := Geometry(0, 0, 0, 0, 0, 0, 0, 0);
    var bs := d.bs;
    if !ValidBlkSize(bs) {
      return EINVAL, g;
    }
    var size := VolumeBytes(devSize, fsSize, bs);
    var p := PlanFor(size, bs);
    TooSmall(size, bs);
    if p.hole <= Reserved(p) {
      return EINVAL, g;
    }
    g := GeoOf(p, bs);
    err := ClearFront(d, Reserved(p));
    if err != Ok {
      return;
    }
    if p.hole >= LIMIT32 {
      return EINVAL, g;
    }
    PlanValid(size, bs);
    PlanRegions(size, bs);
    PlanFits(size, bs);
    PlanTight(size, bs);
    if fsSize > 0 {
      DivModUnique(fsSize * bs, bs, fsSize, 0);
    }
    SuperRoundTrip(Super(MAGIC, g), d.blocks[0]);
    err := WriteRoot(d, g, SuperBytes(Super(MAGIC, g)), now);
  }

  lemma WholeBlock(b: Block, d: Block)
    requires |d| == |b|
    ensures Splice(b, 0, d) == d
  {
  }

  /** The smallest volume that is not turned away has one data block only. */
  lemma FiveBlocks(devSize: nat, bs: nat)
    requires ValidBlkSize(bs) && devSize / bs > 4
    ensures PlanFor(devSize, bs).hole - Reserved(PlanFor(devSize, bs)) < 2 <==> devSize / bs == 5
  {
    hide CeilDiv;
    ReservedBounds(devSize, bs);
  }

  lemma PlanRegions(devSize: nat, bs: nat)
    requires ValidBlkSize(bs) && devSize / bs > 4
    ensures var p := PlanFor(devSize, bs); p.inodeMap >= 1 && p.dataMap >= 1 && p.table >= 1 && Reserved(p) < p.hole
  {
    hide CeilDiv;
    var p := PlanFor(devSize, bs);
    TooSmall(devSize, bs);
    InodeBound(devSize, bs);
    CeilDivBounds(p.inodeNum, bs * 8);
    CeilDivBounds(p.hole, bs * 8);
    CeilDivBounds(p.inodeNum * INODE_SIZE, bs);
  }

  // ---------------------------------------------------------------- the invariants of a fresh volume

  ghost function RootLedger(g: Geometry): Ledger {
    Ledger(seq(g.inodeNum, n => if n == ROOT_INODE then [1] else []),
           seq(g.inodeNum, n => if n == ROOT_INODE then [0] else []),
           seq(g.dataBlkNum, i =>
             if i == 0 then DataOf(ROOT_INODE, 0) else if i == 1 then NodeOf(ROOT_INODE, 0) else Free))
  }

  ghost function RootNest(g: Geometry): Nest {
    Nest(seq(g.inodeNum, _ => ROOT_INODE), seq(g.inodeNum, _ => 0))
  }

  lemma RootListHolds(g: Geometry)
    requires g.blkSize >= 12 && g.dataRegionStart < LIMIT32
    ensures NodeHolds(RootList(g), g.dataRegionStart, -1, [0])
  {
    hide U32, PutU32;
    var a := PutU32(Zeros(g.blkSize), 0, 0);
    var b := PutU32(a, 4, 1);
    PutU32At(Zeros(g.blkSize), 0, 0, 0);
    PutU32At(a, 4, 1, 0);
    PutU32At(a, 4, 1, 4);
    PutU32At(b, 8, g.dataRegionStart, 0);
    PutU32At(b, 8, g.dataRegionStart, 4);
    PutU32At(b, 8, g.dataRegionStart, 8);
  }

  lemma FreshOwned(g: Geometry, s: Vol, now: nat)
    requires GeoValid(g) && Fresh(g, s, now)
    ensures Owned(g, s, RootLedger(g))
  {
    hide NodeHolds, RootList;
    var l, base, cap := RootLedger(g), g.dataRegionStart, PtrsPerNode(g.blkSize);
    RootListHolds(g);
    assert Cut([0], cap) == [[0]];
    assert Linked(s.data, base, [1], [[0]], 0);
    forall n | 0 <= n < |s.inodes| ensures Mapped(g, s.data, s.inodes[n], l.nodes[n], l.ptrs[n]) {
      CutEmpty(cap);
    }
  }

  /** The graph of a fresh volume: an empty root and nothing else. */
  lemma FreshTree(g: Geometry, s: Vol, now: nat)
    requires GeoValid(g) && Fresh(g, s, now) && PtrsIn(RootLedger(g), |s.data|)
    ensures Shaped(g, FsOf(g, s, RootLedger(g))) && Tree(NsOf(FsOf(g, s, RootLedger(g))), RootNest(g))
    ensures forall n :: 0 <= n < g.inodeNum ==>
              NsOf(FsOf(g, s, RootLedger(g)))[n]
              == if n == ROOT_INODE then Dir(seq(PerBlock(g.blkSize), _ => NONE), 2) else Dead
  {
    hide EntsOf, Bit, FreeCount, RootList, Entries;
    var f, t := FsOf(g, s, RootLedger(g)), RootNest(g);
    ModeBits(0);
    ModeBits(493);
    assert f.blocks[ROOT_INODE] == [Zeros(g.blkSize)];
    EntsOne(Zeros(g.blkSize));
    ZeroEntries(g.blkSize);
    var ns := NsOf(f);
    forall n | 0 <= n < g.inodeNum
      ensures ShapedAt(g, f, n)
      ensures ns[n] == if n == ROOT_INODE then Dir(seq(PerBlock(g.blkSize), _ => NONE), 2) else Dead
    {
      assert n != ROOT_INODE ==> f.blocks[n] == [];
    }
    RootTree(ns, t, PerBlock(g.blkSize));
  }

  lemma RootTree(ns: Ns, t: Nest, k: nat)
    requires ROOT_INODE < |ns| == |t.parent| == |t.slot|
    requires forall n :: 0 <= n < |ns| ==> ns[n] == if n == ROOT_INODE then Dir(seq(k, _ => NONE), 2) else Dead
    ensures Tree(ns, t)
  {
    assert Up(t.parent, -1, ROOT_INODE, 0);
    KidsNone(ns, t.parent, -1, ROOT_INODE, |ns|);
    assert Dotted(ns, t, -1, ROOT_INODE);
  }

  /** No file of a fresh volume has anything behind its last byte, so that runs on byte strings can start there. */
  lemma FreshClear(g: Geometry, s: Vol, now: nat)
    requires GeoValid(g) && Fresh(g, s, now) && PtrsIn(RootLedger(g), |s.data|)
    ensures AllSized(g, FsOf(g, s, RootLedger(g))) && AllClear(FsOf(g, s, RootLedger(g)))
  {
    hide FreeCount, RootList, CeilDiv;
    var f := FsOf(g, s, RootLedger(g));
    FlatOne(Zeros(g.blkSize));
    CeilDivUnique(0, g.blkSize, 0);
    CeilDivUnique(g.blkSize, g.blkSize, 1);
    assert f.blocks[ROOT_INODE] == [Zeros(g.blkSize)];
    forall n | 0 <= n < g.inodeNum ensures SizeOk(g, f, n) && TailClear(f, n) {
      assert n != ROOT_INODE ==> f.blocks[n] == [];
    }
  }
}
