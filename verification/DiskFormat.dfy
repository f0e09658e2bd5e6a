/** Where everything lies on the device, byte by byte: what another reader of the format has to know. */
module DiskFormat {
  import opened Bytes
  import opened Layout
  import opened ListNodes
  import opened Mapping
  import opened Volumes
  import opened Ownership
  import opened FileBytes
  import opened FileData
  import opened FileOps
  import opened Dirents
  import opened Namespace
  import opened TreeShape
  import opened Worlds
  import Mounting
  import Formatting

  // ---------------------------------------------------------------- words and bits

  /** Words of two, four and eight bytes, the low byte first. */
  lemma LowFirst(b: Block)
    ensures |b| == 2 ==> FromLe(b) == b[0] as int + 0x100 * b[1] as int
    ensures |b| == 4 ==>
      FromLe(b) == b[0] as int + 0x100 * b[1] as int + 0x1_0000 * b[2] as int + 0x100_0000 * b[3] as int
    ensures |b| == 8 ==> FromLe(b) == FromLe(b[..4]) + 0x1_0000_0000 * FromLe(b[4..])
  {
    if |b| >= 2 {
      Shift(b);
      Shift(b[1..]);
      assert b[1..][1..] == b[2..];
    }
    if |b| == 4 {
      Shift(b[2..]);
      Shift(b[3..]);
      assert b[2..][1..] == b[3..] && b[3..][1..] == [];
    }
    if |b| == 8 {
      FromLeSplit(b, 4);
      WordSizes();
    }
  }

  lemma Shift(b: Block)
    requires b != []
    ensures FromLe(b) == b[0] + 256 * FromLe(b[1..])
  {
  }

  lemma {:induction false} FromLeSplit(b: Block, k: nat)
    requires k <= |b|
    ensures FromLe(b) == FromLe(b[..k]) + Pow256(k) * FromLe(b[k..])
  {
    if k == 0 {
      assert b[0..] == b;
    } else {
      hide FromLe, Pow256;
      FromLeSplit(b[1..], k - 1);
      Shift(b);
      Shift(b[..k]);
      assert b[..k][1..] == b[1..][..k - 1] && b[1..][k - 1..] == b[k..];
      PowStep(k, FromLe(b[k..]));
    }
  }

  lemma PowStep(k: nat, x: int)
    requires k > 0
    ensures Pow256(k) * x == 256 * (Pow256(k - 1) * x)
  {
    var p := Pow256(k - 1);
    assert Pow256(k) == 256 * p;
  }

  /** Bit `k` of a byte has the weight 2 to the power `k`. */
  lemma BitWeight(x: byte, k: nat)
    requires k < 8
    ensures Bit(x, k) <==> x / [1, 2, 4, 8, 16, 32, 64, 128][k] % 2 == 1
  {
    hide Bit;
    BitDiv(x, k);
    assert Pow2(0) == 1 && Pow2(2) == 4 && Pow2(4) == 16 && Pow2(6) == 64;
    assert Pow2(1) == 2 && Pow2(3) == 8 && Pow2(5) == 32 && Pow2(7) == 128;
  }

  // ---------------------------------------------------------------- regions

  /** The superblock: the magic number, then the numbers of the layout. */
  lemma SuperWords(b: Block)
    requires |b| >= 36
    ensures var s := SuperOf(b);
            && s.magic == U32(b, 0) && s.geo.holeBlkNum == U32(b, 4) && s.geo.inodeNum == U32(b, 8)
            && s.geo.dataBlkNum == U32(b, 12) && s.geo.inodeBitmapStart == U32(b, 16)
            && s.geo.dataBitmapStart == U32(b, 20) && s.geo.inodeTableStart == U32(b, 24)
            && s.geo.dataRegionStart == U32(b, 28) && s.geo.blkSize == U32(b, 32)
  {
    hide U32;
  }

  /** Bit `k` of this byte is `on`. */
  ghost predicate BitIs(x: byte, k: nat, on: bool) {
    k < 8 && on == (x / [1, 2, 4, 8, 16, 32, 64, 128][k] % 2 == 1)
  }

  /** Bit `i` of the bitmap that starts in block `start`, with `per` bits in each block. */
  ghost predicate BitOnDevice(blocks: seq<Block>, start: nat, per: nat, i: nat, on: bool)
    requires per > 0
  {
    var blk, r := start + i / per, i % per;
    0 <= blk < |blocks| && r / 8 < |blocks[blk]| && BitIs(blocks[blk][r / 8], r % 8, on)
  }

  lemma BitPlace(blocks: seq<Block>, start: nat, bs: nat, i: nat)
    requires bs > 0 && start + Quot(i, bs * 8) < |blocks| && |blocks[start + Quot(i, bs * 8)]| == bs
    ensures BitOnDevice(blocks, start, bs * 8, i, BitAt(blocks, start, bs, i))
  {
    hide Bit, Quot, Rem;
    QuotRem(i, bs * 8);
    BitWeight(blocks[start + Quot(i, bs * 8)][BitByte(i, bs)], BitBit(i, bs));
  }

  /** The two bitmaps and the data blocks. */
  lemma Regions(g: Geometry, blocks: seq<Block>, i: nat)
    requires Image(g, blocks)
    ensures i < g.dataBlkNum ==> BitOnDevice(blocks, g.dataBitmapStart, g.blkSize * 8, i, Abs(g, blocks).bits[i])
    ensures i < g.inodeNum ==> BitOnDevice(blocks, g.inodeBitmapStart, g.blkSize * 8, i, Abs(g, blocks).ibits[i])
    ensures i < g.dataBlkNum ==> Abs(g, blocks).data[i] == blocks[g.dataRegionStart + i]
  {
    hide BitAt, BitOnDevice, Abs, Quot, Rem;
    if i < g.dataBlkNum {
      assert g.dataBitmapStart + BitBlk(g, i) < g.inodeTableStart;
      BitPlace(blocks, g.dataBitmapStart, g.blkSize, i);
    }
    if i < g.inodeNum {
      assert g.inodeBitmapStart + BitBlk(g, i) < g.dataBitmapStart;
      BitPlace(blocks, g.inodeBitmapStart, g.blkSize, i);
    }
  }

  /** The record `rec` lies at byte `o` of block `b`. */
  ghost predicate RecordAt(b: Block, o: nat, rec: Inode) {
    && o + 64 <= |b|
    && rec.size == FromLe(b[o..o + 4]) && rec.links == FromLe(b[o + 4..o + 6]) && rec.mode == FromLe(b[o + 6..o + 8])
    && rec.uid == FromLe(b[o + 8..o + 12]) && rec.gid == FromLe(b[o + 12..o + 16])
    && rec.head == FromLe(b[o + 16..o + 20]) && rec.nr == FromLe(b[o + 20..o + 24])
    && rec.atime == FromLe(b[o + 24..o + 32]) && rec.mtime == FromLe(b[o + 32..o + 40])
    && rec.ctime == FromLe(b[o + 40..o + 48]) && rec.reserved == b[o + 48..o + 64]
  }

  lemma RecordParts(b: Block, o: nat)
    requires o + 64 <= |b|
    ensures RecordAt(b, o, Decode(b[o..o + 64]))
  {
    hide FromLe;
    Part(b, o, 0, 4);
    Part(b, o, 4, 6);
    Part(b, o, 6, 8);
    Part(b, o, 8, 12);
    Part(b, o, 12, 16);
    Part(b, o, 16, 20);
    Part(b, o, 20, 24);
    Part(b, o, 24, 32);
    Part(b, o, 32, 40);
    Part(b, o, 40, 48);
    Part(b, o, 48, 64);
  }

  lemma Part(b: Block, o: nat, lo: nat, hi: nat)
    requires o + 64 <= |b| && lo <= hi <= 64
    ensures b[o..o + 64][lo..hi] == b[o + lo..o + hi]
  {
    var r, x, y := b[o..o + 64], b[o..o + 64][lo..hi], b[o + lo..o + hi];
    forall k | 0 <= k < hi - lo ensures x[k] == y[k] {
      assert r[lo + k] == b[o + lo + k];
    }
  }

  /** The inode table: 64 bytes for each number, packed. */
  lemma RecordPlace(g: Geometry, blocks: seq<Block>, n: nat)
    requires Image(g, blocks) && n < g.inodeNum
    ensures g.inodeTableStart + n * 64 / g.blkSize < |blocks|
    ensures RecordAt(blocks[g.inodeTableStart + n * 64 / g.blkSize], n * 64 % g.blkSize, Abs(g, blocks).inodes[n])
  {
    hide RecordAt, Abs, Quot, Rem, Decode;
    QuotRem(n * 64, g.blkSize);
    assert g.inodeTableStart + InoBlk(g, n) < g.dataRegionStart;
    InodeAddress(n, g.blkSize);
    RecordParts(blocks[g.inodeTableStart + n * 64 / g.blkSize], n * 64 % g.blkSize);
  }

  // ---------------------------------------------------------------- files

  lemma {:induction false} CutAt(ptrs: seq<nat>, cap: nat, j: nat)
    requires cap > 0 && j < |ptrs|
    ensures Quot(j, cap) < |Cut(ptrs, cap)| && Rem(j, cap) < |Cut(ptrs, cap)[Quot(j, cap)]|
    ensures Cut(ptrs, cap)[Quot(j, cap)][Rem(j, cap)] == ptrs[j]
    decreases |ptrs|
  {
    if |ptrs| > cap && j >= cap {
      CutAt(ptrs[cap..], cap, j - cap);
    }
  }

  /** Block `j` of file `n` is the data block its list says: the record has the number of the first node, each node that
      of the next or 0, and pointer `j` is the word `j % cap` behind the eight bytes of header of node `j / cap`. */
  lemma ListPlace(g: Geometry, blocks: seq<Block>, l: Ledger, n: nat, j: nat)
    requires Image(g, blocks) && Owned(g, Abs(g, blocks), l) && g.blkSize >= 12
    requires n < g.inodeNum && n < |l.ptrs| == |l.nodes| && j < |l.ptrs[n]|
    ensures var s, cap, base := Abs(g, blocks), (g.blkSize - 8) / 4, g.dataRegionStart;
            var nodes, i := l.nodes[n], j / cap;
            && s.inodes[n].nr == |l.ptrs[n]| <= 1024 && nodes != [] && s.inodes[n].head == base + nodes[0]
            && 0 <= i < |nodes| == CeilDiv(|l.ptrs[n]|, cap) && base + nodes[i] < |blocks|
            && var node := blocks[base + nodes[i]];
            && 8 + 4 * (j % cap) + 4 <= |node|
            && U32(node, 0) == (if i + 1 < |nodes| then base + nodes[i + 1] else 0)
            && U32(node, 4) == (if i + 1 < |nodes| then cap else |l.ptrs[n]| - i * cap)
            && U32(node, 8 + 4 * (j % cap)) == base + l.ptrs[n][j]
  {
    hide Abs, Quot, Rem, U32, Tagged, Backed, BitsMatch, CeilDiv, Cut;
    var s, cap := Abs(g, blocks), PtrsPerNode(g.blkSize);
    assert Mapped(g, s.data, s.inodes[n], l.nodes[n], l.ptrs[n]);
    QuotRem(j, cap);
    CutAt(l.ptrs[n], cap, j);
    CutShape(l.ptrs[n], cap);
    CutLast(l.ptrs[n], cap);
    var i := Quot(j, cap);
    assert Linked(s.data, g.dataRegionStart, l.nodes[n], Cut(l.ptrs[n], cap), i);
    assert s.data[l.nodes[n][i]] == blocks[g.dataRegionStart + l.nodes[n][i]];
  }

  lemma {:induction false} CutLast(ptrs: seq<nat>, cap: nat)
    requires cap > 0 && ptrs != []
    ensures var k := |Cut(ptrs, cap)|; k > 0 && |Cut(ptrs, cap)[k - 1]| == |ptrs| - (k - 1) * cap
    decreases |ptrs|
  {
    if |ptrs| > cap {
      CutLast(ptrs[cap..], cap);
      MulAdd(|Cut(ptrs, cap)| - 2, 1, cap);
    }
  }

  /** Byte `i` of a file is byte `i % bs` of the data block its list has for block `i / bs`. */
  lemma BytePlace(g: Geometry, blocks: seq<Block>, l: Ledger, n: nat, i: nat)
    requires Image(g, blocks) && PtrsIn(l, g.dataBlkNum) && n < |l.ptrs| == g.inodeNum
    requires i < |BytesOf(Mounting.Stored(g, blocks, l), n)|
    ensures i < Abs(g, blocks).inodes[n].size && i / g.blkSize < |l.ptrs[n]|
    ensures var b := g.dataRegionStart + l.ptrs[n][i / g.blkSize];
            && b < |blocks| && |blocks[b]| == g.blkSize
            && BytesOf(Mounting.Stored(g, blocks, l), n)[i] == blocks[b][i % g.blkSize]
  {
    hide Abs, Quot, Rem, Flat;
    var f, bs := Mounting.Stored(g, blocks, l), g.blkSize;
    var s := Abs(g, blocks);
    assert Whole(f.blocks[n], bs) by {
      forall k | 0 <= k < |f.blocks[n]| ensures |f.blocks[n][k]| == bs {
        assert f.blocks[n][k] == s.data[l.ptrs[n][k]] == blocks[g.dataRegionStart + l.ptrs[n][k]];
      }
    }
    FlatLength(f.blocks[n], bs);
    QuotRem(i, bs);
    QuotLt(i, bs, |f.blocks[n]|);
    var k := i / bs;
    FlatUpdate(f.blocks[n], bs, k, f.blocks[n][k]);
    assert f.blocks[n][k] == s.data[l.ptrs[n][k]] == blocks[g.dataRegionStart + l.ptrs[n][k]];
  }

  // ---------------------------------------------------------------- directories

  lemma {:induction false} CStrFacts(b: Block)
    ensures |CStr(b)| <= |b| && CStr(b) == b[..|CStr(b)|] && CString(CStr(b))
    ensures |CStr(b)| < |b| ==> b[|CStr(b)|] == 0
  {
    if b != [] && b[0] != 0 {
      CStrFacts(b[1..]);
      assert b == [b[0]] + b[1..];
    }
  }

  /** Slot `j` of a directory block: 28 bytes of name up to the first zero, then the inode number. It is in use if
      neither is missing. */
  lemma EntryPlace(b: Block, j: nat)
    requires j < |b| / 32
    ensures |Entries(b)| == |b| / 32
    ensures var e, at := Entries(b)[j], 32 * j;
            && e.ino == U32(b, at + 28) && |e.name| <= 28 && e.name == b[at..at + |e.name|]
            && (forall i :: 0 <= i < |e.name| ==> e.name[i] != 0) && (|e.name| < 28 ==> b[at + |e.name|] == 0)
            && (Live(e) <==> U32(b, at + 28) != 0 && b[at] != 0)
  {
    hide CStr, FromLe;
    var s := SlotBytes(b, j);
    CStrFacts(s[..28]);
    assert s[28..32] == b[32 * j + 28..32 * j + 32];
    assert s[..28] == b[32 * j..32 * j + 28];
    var k := |CStr(s[..28])|;
    assert s[..28][..k] == b[32 * j..32 * j + k];
  }

  // ---------------------------------------------------------------- nodes

  /** What an inode number stands for: its bit in the inode bitmap says whether it is in use, bit 14 of the mode whether
      it is a directory; numbers below 2 are never in use, and 2 always is. */
  lemma NodeKind(f: Fs, n: nat)
    requires Aligned(f) && n < |f.inodes|
    ensures var it, rec := WorldOf(f).items[n], f.inodes[n];
            && (it.Gone? <==> n < 2 || (n > 2 && !f.ibits[n]))
            && (it.Folder? <==> !it.Gone? && rec.mode / 0x4000 % 2 == 1)
            && (!it.Gone? ==> it.attr == Attr(rec.mode, rec.uid, rec.gid) && it.links == rec.links)
            && (it.Regular? ==> it.bytes == BytesOf(f, n))
  {
    hide Bit, BytesOf, Names, Pow2;
    Pow14();
    BitDiv(f.inodes[n].mode, 14);
  }

  /** The names of a directory are those of its slots in use. */
  lemma NamePlace(f: Fs, n: nat, name: Block)
    requires Aligned(f) && n < |f.inodes| && WorldOf(f).items[n].Folder? && Tidy(EntsOf(f.blocks[n]))
    ensures name in WorldOf(f).items[n].names
            <==> exists j :: 0 <= j < |EntsOf(f.blocks[n])| && Live(EntsOf(f.blocks[n])[j])
                             && EntsOf(f.blocks[n])[j].name == name
    ensures forall j :: 0 <= j < |EntsOf(f.blocks[n])| && Live(EntsOf(f.blocks[n])[j])
                        && EntsOf(f.blocks[n])[j].name == name ==>
              name in WorldOf(f).items[n].names && WorldOf(f).items[n].names[name] == EntsOf(f.blocks[n])[j].ino
  {
    hide EntsOf, Bit, BytesOf, NameMap, Tidy, Live;
    MapLookup(EntsOf(f.blocks[n]), name);
  }

  // ---------------------------------------------------------------- the fresh volume

  /** The root of a fresh volume, by field. */
  lemma FreshRoot(g: Geometry, now: nat)
    requires 2 < g.inodeNum
    ensures var rec := Formatting.RootRec(g, now);
            && rec.size == g.blkSize && rec.links == 2 && rec.mode == 0x41ED && rec.uid == 0 && rec.gid == 0
            && rec.head == g.dataRegionStart + 1 && rec.nr == 1
            && rec.atime == now && rec.mtime == now && rec.ctime == now
    ensures Mounting.FreshWorld(g).items[2] == Folder(Attr(0x41ED, 0, 0), 2, map[])
    ensures Mounting.FreshWorld(g).free == g.dataBlkNum - 2
  {
  }
}
