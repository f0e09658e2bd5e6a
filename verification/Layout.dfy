/** On-disk layout: regions of the volume, bitmap addressing and the packed inode table. */
module Layout {
  import opened Bytes

  const INODE_SIZE: nat := 64
  const MAX_FILE_DATA_BLOCKS: nat := 1024
  const ROOT_INODE: nat := 2
  const LIMIT32: nat := 0x1_0000_0000

  datatype Geometry = Geometry(
    blkSize: nat,
    holeBlkNum: nat,
    inodeNum: nat,
    dataBlkNum: nat,
    inodeBitmapStart: nat,
    dataBitmapStart: nat,
    inodeTableStart: nat,
    dataRegionStart: nat)

  /** mofs_validate_logical_blk_size: the powers of two from 512 to 65536. */
  predicate ValidBlkSize(bs: nat) {
    bs == 512 || bs == 1024 || bs == 2048 || bs == 4096 || bs == 8192 || bs == 16384 || bs == 32768 || bs == 65536
  }

  /** The regions follow each other and have room for what is indexed in them. */
  ghost predicate GeoValid(g: Geometry) {
    && ValidBlkSize(g.blkSize)
    && 0 < g.inodeBitmapStart <= g.dataBitmapStart <= g.inodeTableStart <= g.dataRegionStart
    && g.inodeNum <= (g.dataBitmapStart - g.inodeBitmapStart) * (g.blkSize * 8)
    && g.dataBlkNum <= (g.inodeTableStart - g.dataBitmapStart) * (g.blkSize * 8)
    && g.inodeNum * INODE_SIZE <= (g.dataRegionStart - g.inodeTableStart) * g.blkSize
    && g.dataRegionStart + g.dataBlkNum == g.holeBlkNum < LIMIT32
    && ROOT_INODE < g.inodeNum < LIMIT32
  }

  ghost predicate Sized(v: seq<Block>, n: nat, bs: nat) {
    |v| == n && forall b :: 0 <= b < |v| ==> |v[b]| == bs
  }

  // ----------------------------------------------------------- superblock

  const MAGIC: nat := 0x53464F4D
  const SUPER_SIZE: nat := 36

  datatype Super = Super(magic: nat, geo: Geometry)

  /** The superblock record: nine 32-bit words. */
  function SuperBytes(s: Super): (b: Block)
    ensures |b| == SUPER_SIZE
  {
    var g := s.geo;
    Le(s.magic, 4) + Le(g.holeBlkNum, 4) + Le(g.inodeNum, 4) + Le(g.dataBlkNum, 4) + Le(g.inodeBitmapStart, 4)
    + Le(g.dataBitmapStart, 4) + Le(g.inodeTableStart, 4) + Le(g.dataRegionStart, 4) + Le(g.blkSize, 4)
  }

  /** The record at the start of a block. */
  function SuperOf(b: Block): Super
    requires |b| >= SUPER_SIZE
  {
    Super(U32(b, 0),
      Geometry(U32(b, 32), U32(b, 4), U32(b, 8), U32(b, 12), U32(b, 16), U32(b, 20), U32(b, 24), U32(b, 28)))
  }

  ghost predicate SuperFits(s: Super) {
    && s.magic < LIMIT32 && s.geo.blkSize < LIMIT32 && s.geo.holeBlkNum < LIMIT32 && s.geo.inodeNum < LIMIT32
    && s.geo.dataBlkNum < LIMIT32 && s.geo.inodeBitmapStart < LIMIT32 && s.geo.dataBitmapStart < LIMIT32
    && s.geo.inodeTableStart < LIMIT32 && s.geo.dataRegionStart < LIMIT32
  }

  /** What is written to the start of a block is what mounting reads there. */
  lemma SuperRoundTrip(s: Super, b: Block)
    requires SuperFits(s) && |b| >= SUPER_SIZE
    ensures SuperOf(Splice(b, 0, SuperBytes(s))) == s
  {
    hide Le, FromLe, Splice;
    var g, w := s.geo, Splice(b, 0, SuperBytes(s));
    assert w[0..4] == Le(s.magic, 4) && w[4..8] == Le(g.holeBlkNum, 4) && w[8..12] == Le(g.inodeNum, 4);
    assert w[12..16] == Le(g.dataBlkNum, 4) && w[16..20] == Le(g.inodeBitmapStart, 4)
      && w[20..24] == Le(g.dataBitmapStart, 4);
    assert w[24..28] == Le(g.inodeTableStart, 4) && w[28..32] == Le(g.dataRegionStart, 4)
      && w[32..36] == Le(g.blkSize, 4);
    WordSizes();
    FromLeOfLe(s.magic, 4);
    FromLeOfLe(g.holeBlkNum, 4);
    FromLeOfLe(g.inodeNum, 4);
    FromLeOfLe(g.dataBlkNum, 4);
    FromLeOfLe(g.inodeBitmapStart, 4);
    FromLeOfLe(g.dataBitmapStart, 4);
    FromLeOfLe(g.inodeTableStart, 4);
    FromLeOfLe(g.dataRegionStart, 4);
    FromLeOfLe(g.blkSize, 4);
  }

  // -------------------------------------------------------------- bitmaps

  /** Byte of its block that holds bit `i`: `(i % (bs * 8)) / 8`. */
  function BitByte(i: nat, bs: nat): (k: nat)
    requires bs > 0
    ensures k < bs
  {
    Rem(i, bs * 8) / 8
  }

  /** Bit of its byte: `(i % (bs * 8)) % 8`. */
  function BitBit(i: nat, bs: nat): (k: nat)
    requires bs > 0
    ensures k < 8
  {
    Rem(i, bs * 8) % 8
  }

  /** Bit `i` of the bitmap whose first block is `start`, addressed by block, byte and bit. */
  ghost predicate BitAt(v: seq<Block>, start: nat, bs: nat, i: nat)
    requires bs > 0 && start + Quot(i, bs * 8) < |v| && |v[start + Quot(i, bs * 8)]| == bs
  {
    Bit(v[start + Quot(i, bs * 8)][BitByte(i, bs)], BitBit(i, bs))
  }

  /** A bitmap block with the bit of index `i` set or cleared. */
  function PatchBit(d: Block, bs: nat, i: nat, on: bool): (r: Block)
    requires bs > 0 && |d| == bs
    ensures |r| == bs
  {
    d[BitByte(i, bs) := SetByteBit(d[BitByte(i, bs)], BitBit(i, bs), on)]
  }

  /** Two bitmap indices share block, byte and bit only when they are equal. */
  lemma BitAddressUnique(i: nat, j: nat, bs: nat)
    requires bs > 0
    requires Quot(i, bs * 8) == Quot(j, bs * 8) && BitByte(i, bs) == BitByte(j, bs) && BitBit(i, bs) == BitBit(j, bs)
    ensures i == j
  {
    var r, s := Rem(i, bs * 8), Rem(j, bs * 8);
    assert r == r / 8 * 8 + r % 8 && s == s / 8 * 8 + s % 8;
    QuotRemInjective(i, j, bs * 8);
  }

  /** The address of the bit the triple loop looks at. */
  lemma BitAddress(blk: nat, byt: nat, bit: nat, bs: nat)
    requires bs > 0 && byt < bs && bit < 8
    ensures var i := blk * (bs * 8) + byt * 8 + bit;
            Quot(i, bs * 8) == blk && BitByte(i, bs) == byt && BitBit(i, bs) == bit
  {
    QuotRemUnique(blk * (bs * 8) + byt * 8 + bit, bs * 8, blk, byt * 8 + bit);
  }

  /** Patching the bit of index `i` in its block changes that bit of the bitmap and no other. */
  lemma PatchedBit(v: seq<Block>, start: nat, bs: nat, i: nat, on: bool, j: nat)
    requires bs > 0 && start + Quot(i, bs * 8) < |v| && start + Quot(j, bs * 8) < |v|
    requires |v[start + Quot(i, bs * 8)]| == bs && |v[start + Quot(j, bs * 8)]| == bs
    ensures var blk := start + Quot(i, bs * 8);
            BitAt(v[blk := PatchBit(v[blk], bs, i, on)], start, bs, j) == if j == i then on else BitAt(v, start, bs, j)
  {
    hide Quot, Rem, BitByte, BitBit, Bit, PutBit;
    var blk, byt, bit := start + Quot(i, bs * 8), BitByte(i, bs), BitBit(i, bs);
    PutBitAt(v[blk][byt], bit, on, BitBit(j, bs));
    if i != j && start + Quot(j, bs * 8) == blk && BitByte(j, bs) == byt && BitBit(j, bs) == bit {
      BitAddressUnique(i, j, bs);
    }
  }

  lemma OtherBlockBit(v: seq<Block>, b: nat, d: Block, start: nat, bs: nat, j: nat)
    requires bs > 0 && start + Quot(j, bs * 8) < |v| && |v[start + Quot(j, bs * 8)]| == bs
    requires b < |v| && b != start + Quot(j, bs * 8)
    ensures BitAt(v[b := d], start, bs, j) == BitAt(v, start, bs, j)
  {
  }

  // ---------------------------------------------------------- inode table

  datatype Inode = Inode(
    size: nat,
    links: nat,
    mode: nat,
    uid: nat,
    gid: nat,
    head: nat,
    nr: nat,
    atime: nat,
    mtime: nat,
    ctime: nat,
    reserved: Block)

  ghost predicate Fits(i: Inode) {
    && i.size < LIMIT32 && i.links < 0x1_0000 && i.mode < 0x1_0000
    && i.uid < LIMIT32 && i.gid < LIMIT32 && i.head < LIMIT32 && i.nr < LIMIT32
    && i.atime < 0x1_0000_0000_0000_0000 && i.mtime < 0x1_0000_0000_0000_0000 && i.ctime < 0x1_0000_0000_0000_0000
    && |i.reserved| == 16
  }

  function Encode(i: Inode): (b: Block)
    requires |i.reserved| == 16
    ensures |b| == INODE_SIZE
  {
    Le(i.size, 4) + Le(i.links, 2) + Le(i.mode, 2) + Le(i.uid, 4) + Le(i.gid, 4) + Le(i.head, 4) + Le(i.nr, 4)
    + Le(i.atime, 8) + Le(i.mtime, 8) + Le(i.ctime, 8) + i.reserved
  }

  function Decode(b: Block): Inode
    requires |b| == INODE_SIZE
  {
    Inode(FromLe(b[0..4]), FromLe(b[4..6]), FromLe(b[6..8]), FromLe(b[8..12]), FromLe(b[12..16]), FromLe(b[16..20]),
          FromLe(b[20..24]), FromLe(b[24..32]), FromLe(b[32..40]), FromLe(b[40..48]), b[48..64])
  }

  lemma DecodeEncode(i: Inode)
    requires Fits(i)
    ensures Decode(Encode(i)) == i
  {
    hide Le, FromLe;
    var b := Encode(i);
    assert b[0..4] == Le(i.size, 4) && b[4..6] == Le(i.links, 2) && b[6..8] == Le(i.mode, 2)
      && b[8..12] == Le(i.uid, 4);
    assert b[12..16] == Le(i.gid, 4) && b[16..20] == Le(i.head, 4) && b[20..24] == Le(i.nr, 4);
    assert b[24..32] == Le(i.atime, 8) && b[32..40] == Le(i.mtime, 8) && b[40..48] == Le(i.ctime, 8);
    assert b[48..64] == i.reserved;
    WordSizes();
    FromLeOfLe(i.size, 4);
    FromLeOfLe(i.links, 2);
    FromLeOfLe(i.mode, 2);
    FromLeOfLe(i.uid, 4);
    FromLeOfLe(i.gid, 4);
    FromLeOfLe(i.head, 4);
    FromLeOfLe(i.nr, 4);
    FromLeOfLe(i.atime, 8);
    FromLeOfLe(i.mtime, 8);
    FromLeOfLe(i.ctime, 8);
  }

  lemma DecodeFits(b: Block)
    requires |b| == INODE_SIZE
    ensures Fits(Decode(b))
  {
    WordSizes();
    LeOfFromLe(b[0..4]);
    LeOfFromLe(b[4..6]);
    LeOfFromLe(b[6..8]);
    LeOfFromLe(b[8..12]);
    LeOfFromLe(b[12..16]);
    LeOfFromLe(b[16..20]);
    LeOfFromLe(b[20..24]);
    LeOfFromLe(b[24..32]);
    LeOfFromLe(b[32..40]);
    LeOfFromLe(b[40..48]);
  }

  /** No inode record straddles two blocks: `n * 64 % bs` is a multiple of 64. */
  lemma InodeAddress(n: nat, bs: nat)
    requires ValidBlkSize(bs)
    ensures Rem(n * INODE_SIZE, bs) + INODE_SIZE <= bs
    ensures Rem(n * INODE_SIZE, bs) % INODE_SIZE == 0
  {
    hide Quot, Rem;
    var per := bs / INODE_SIZE;
    assert bs == per * INODE_SIZE;
    QuotRem(n, per);
    var q, r := Quot(n, per), Rem(n, per);
    assert q * (per * INODE_SIZE) == q * per * INODE_SIZE;
    MulMono(r, per, INODE_SIZE);
    QuotRemUnique(n * INODE_SIZE, bs, q, r * INODE_SIZE);
  }

  /** Byte offset of inode `n` in its block, `n * 64 % bs`. */
  function InodeOff(n: nat, bs: nat): (off: nat)
    requires ValidBlkSize(bs)
    ensures off + INODE_SIZE <= bs
  {
    InodeAddress(n, bs);
    Rem(n * INODE_SIZE, bs)
  }

  /** Distinct records of one block do not overlap. */
  lemma InodesApart(n: nat, m: nat, bs: nat)
    requires ValidBlkSize(bs) && n != m && Quot(n * INODE_SIZE, bs) == Quot(m * INODE_SIZE, bs)
    ensures InodeOff(n, bs) + INODE_SIZE <= InodeOff(m, bs) || InodeOff(m, bs) + INODE_SIZE <= InodeOff(n, bs)
  {
    InodeAddress(n, bs);
    InodeAddress(m, bs);
    if InodeOff(n, bs) == InodeOff(m, bs) {
      QuotRemInjective(n * INODE_SIZE, m * INODE_SIZE, bs);
    }
  }

  ghost function InodeAt(v: seq<Block>, start: nat, bs: nat, n: nat): Inode
    requires ValidBlkSize(bs) && start + Quot(n * INODE_SIZE, bs) < |v| && |v[start + Quot(n * INODE_SIZE, bs)]| == bs
  {
    Decode(v[start + Quot(n * INODE_SIZE, bs)][InodeOff(n, bs)..InodeOff(n, bs) + INODE_SIZE])
  }

  /** Splicing a record into its block changes that inode and leaves its block-mates alone. */
  lemma PatchedInode(v: seq<Block>, start: nat, bs: nat, n: nat, rec: Inode, m: nat)
    requires ValidBlkSize(bs) && Fits(rec)
    requires start + Quot(n * INODE_SIZE, bs) < |v| && |v[start + Quot(n * INODE_SIZE, bs)]| == bs
    requires start + Quot(m * INODE_SIZE, bs) < |v| && |v[start + Quot(m * INODE_SIZE, bs)]| == bs
    ensures var blk := start + Quot(n * INODE_SIZE, bs);
            InodeAt(v[blk := Splice(v[blk], InodeOff(n, bs), Encode(rec))], start, bs, m)
            == if m == n then rec else InodeAt(v, start, bs, m)
  {
    hide Quot, Rem, InodeOff, Encode, Decode, Splice;
    DecodeEncode(rec);
    var blk, off, at := start + Quot(n * INODE_SIZE, bs), InodeOff(n, bs), InodeOff(m, bs);
    SpliceSlices(v[blk], off, Encode(rec), at, at + INODE_SIZE);
    if m != n && start + Quot(m * INODE_SIZE, bs) == blk {
      InodesApart(n, m, bs);
    }
  }

  lemma OtherBlockInode(v: seq<Block>, b: nat, d: Block, start: nat, bs: nat, n: nat)
    requires ValidBlkSize(bs) && start + Quot(n * INODE_SIZE, bs) < |v| && |v[start + Quot(n * INODE_SIZE, bs)]| == bs
    requires b < |v| && b != start + Quot(n * INODE_SIZE, bs)
    ensures InodeAt(v[b := d], start, bs, n) == InodeAt(v, start, bs, n)
  {
  }
}
