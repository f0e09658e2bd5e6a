/** States of a small volume on which the code does not do what one would expect of it. */
module Witnesses {
  import opened Errors
  import opened Bytes
  import opened Layout
  import opened ListNodes
  import opened Volumes
  import opened Accounting
  import opened FileBytes
  import opened FileData
  import opened FileOps
  import opened ByteFiles

  /** `data` data blocks of 512 bytes and four inodes. */
  function SmallGeo(data: nat): (g: Geometry)
    requires data <= 4096
    ensures GeoValid(g) && PtrsPerNode(g.blkSize) == 126
  {
    Geometry(512, data + 4, 4, data, 1, 2, 3, 4)
  }

  function FileRec(size: nat, head: nat, nr: nat): Inode {
    ZeroInode().(size := size, links := 1, mode := 0x81A4, head := head, nr := nr)
  }

  function RootRec(): Inode {
    ZeroInode().(size := 512, links := 2, mode := 0x41ED, head := 5, nr := 1)
  }

  /** The root with its block, one file, inode 3, with the given blocks, and `free` free blocks. */
  function OneFile(size: nat, head: nat, blocks: seq<Block>, free: nat): Fs {
    var z := ZeroInode();
    Fs([z, z, RootRec(), FileRec(size, head, |blocks|)], [false, false, true, true], [[], [], [Zeros(512)], blocks],
      free)
  }

  lemma OneFileSized(size: nat, head: nat, blocks: seq<Block>, free: nat, data: nat)
    requires Whole(blocks, 512) && |blocks| <= MAX_FILE_DATA_BLOCKS && size < LIMIT32 && head < LIMIT32 && data <= 4096
    requires |blocks| == CeilDiv(size, 512) && data == free + 2 + |blocks| + NodesFor(|blocks|, 126)
    ensures var f := OneFile(size, head, blocks, free);
            && FsSized(SmallGeo(data), f) && SizeOk(SmallGeo(data), f, 3) && !IsDir(f.inodes[3])
            && f.blocks[3] == blocks && f.inodes[3].size == size && f.free == free
            && f.free + Held(f.inodes, 126) == data
  {
    hide CeilDiv;
    HeldFour(OneFile(size, head, blocks, free).inodes);
    CeilDivUnique(0, 126, 0);
    CeilDivUnique(1, 126, 1);
    assert !Bit(0x81A4, 14) by {
      assert Bit(0x81A4, 14) == Bit(0x81A4 / 2 / 2 / 2 / 2, 10) == Bit(0x81A4 / 256, 6) == Bit(0x81A4 / 4096, 2);
    }
  }

  lemma HeldFour(inodes: seq<Inode>)
    requires |inodes| == 4
    ensures Held(inodes, 126)
      == Cost(inodes[0].nr, 126) + Cost(inodes[1].nr, 126) + Cost(inodes[2].nr, 126) + Cost(inodes[3].nr, 126)
  {
    hide Cost;
    assert inodes[..3][..2] == inodes[..2] && inodes[..2][..1] == inodes[..1] && inodes[..1][..0] == [];
    assert Held(inodes[..1], 126) == Cost(inodes[0].nr, 126);
    assert Held(inodes[..2], 126) == Held(inodes[..1], 126) + Cost(inodes[1].nr, 126);
    assert Held(inodes[..3], 126) == Held(inodes[..2], 126) + Cost(inodes[2].nr, 126);
  }

  // ---------------------------------------------------------------- a gap

  ghost function Gapped(head: nat, now: nat): Fs {
    var f := OneFile(0, 0, [], 5);
    OneFile(513, head, [Sevens(512), [9] + Zeros(511)], 2).(
      inodes := f.inodes[3 := Stamp(f.inodes[3].(size := 513, head := head, nr := 2), Times(false, true, true), now)])
  }

  /** One byte written at offset 512 of an empty file: the block in front of it shows what its last owner left. */
  lemma SkippedByteShows(head: nat, now: nat)
    requires head < LIMIT32 && now < LIMIT64
    ensures var g, f, stale := SmallGeo(7), OneFile(0, 0, [], 5), [Sevens(512), Sevens(512)];
            && FsSized(g, f) && SizeOk(g, f, 3) && WriteErr(g, f, 3, 512, 1) == Ok
            && Wrote(g, f, Gapped(head, now), 3, 512, [9], now, stale)
            && BytesOf(Gapped(head, now), 3) != Overwritten(BytesOf(f, 3), 512, [9])
  {
    hide CeilDiv, Quot, Flat;
    var g, f, f', stale := SmallGeo(7), OneFile(0, 0, [], 5), Gapped(head, now), [Sevens(512), Sevens(512)];
    CeilDivUnique(0, 512, 0);
    CeilDivUnique(513, 512, 2);
    CeilDivUnique(0, 126, 0);
    CeilDivUnique(2, 126, 1);
    OneFileSized(0, 0, [], 5, 7);
    QuotRemUnique(512, 512, 1, 0);
    var a, b := Sevens(512), [9] + Zeros(511);
    FlatTwo(a, a);
    FlatTwo(a, b);
    assert [] + stale == stale;
    assert Flat(f'.blocks[3]) == Patched(Flat(stale), 0, 0, 512, 1024, 512, [9]);
    assert BytesOf(f', 3)[0] == 7 && Overwritten(BytesOf(f, 3), 512, [9])[0] == 0;
  }

  lemma FlatTwo(a: Block, b: Block)
    ensures Flat([a, b]) == a + b
  {
    FlatOne(a);
    FlatOne(b);
    FlatAppend([a], [b]);
    assert [a] + [b] == [a, b];
  }

  // ---------------------------------------------------------------- a failed shrink

  function Sevenths(n: nat): (q: seq<Block>)
    ensures |q| == n && forall k :: 0 <= k < n ==> q[k] == Sevens(512)
  {
    seq(n, _ => Sevens(512))
  }

  /** A full volume with one file of 300 blocks: cutting it to any size in the last blocks lacks room for the shorter
      list. */
  lemma NoRoomToCut(size: nat)
    requires 298 * 512 < size <= 299 * 512
    ensures var g, f := SmallGeo(305), OneFile(300 * 512, 6, Sevenths(300), 0);
            && FsSized(g, f) && SizeOk(g, f, 3) && f.free + Held(f.inodes, 126) == g.dataBlkNum
              && CeilDiv(size, 512) == 299
            && TruncErr(g, f, 3, size) == ENOSPC
  {
    hide CeilDiv;
    CeilDivUnique(300 * 512, 512, 300);
    CeilDivUnique(size, 512, 299);
    CeilDivUnique(299, 126, 3);
    CeilDivUnique(300, 126, 3);
    OneFileSized(300 * 512, 6, Sevenths(300), 0, 305);
  }

  lemma SevenAt(i: nat)
    requires i < 300 * 512
    ensures i < |Flat(Sevenths(300))| == 300 * 512 && Flat(Sevenths(300))[i] == 7
  {
    hide Flat, Quot, Rem, Sevens;
    var q, r := Quot(i, 512), Rem(i, 512);
    QuotRem(i, 512);
    QuotLt(i, 512, 300);
    FlatUpdate(Sevenths(300), 512, q, Sevens(512));
    assert Flat(Sevenths(300))[q * 512..q * 512 + 512][r] == Sevens(512)[r];
  }

  /** Cut to one byte less than 299 blocks: the last byte of block 298 is gone, with a cache or without. */
  lemma TailLost(f': Fs, disk: seq<seq<Block>>, cached: bool)
    requires CutLost(SmallGeo(305), OneFile(300 * 512, 6, Sevenths(300), 0), f', disk, 3, 299 * 512 - 1, cached)
    ensures BytesOf(f', 3) != BytesOf(OneFile(300 * 512, 6, Sevenths(300), 0), 3)
  {
    hide CeilDiv, Flat, CutLost, Agree;
    var g, f, size := SmallGeo(305), OneFile(300 * 512, 6, Sevenths(300), 0), 299 * 512 - 1;
    NoRoomToCut(size);
    CutLostExact(g, f, f', disk, 3, size, cached);
    SevenAt(size);
    assert BytesOf(f, 3)[size] == 7;
  }

  /** Cut to 299 blocks with a cache: the last block comes back as the device has it, here as zeros. */
  lemma DropLost(f': Fs, disk: seq<seq<Block>>)
    requires CutLost(SmallGeo(305), OneFile(300 * 512, 6, Sevenths(300), 0), f', disk, 3, 299 * 512, true)
    requires disk[3][299] == Zeros(512)
    ensures BytesOf(f', 3) != BytesOf(OneFile(300 * 512, 6, Sevenths(300), 0), 3)
  {
    hide CeilDiv, Flat, ZeroIn, Zeros;
    var g, f, size := SmallGeo(305), OneFile(300 * 512, 6, Sevenths(300), 0), 299 * 512;
    NoRoomToCut(size);
    CutLostExact(g, f, f', disk, 3, size, true);
    SevenAt(size);
    FlatUpdate(disk[3], 512, 299, Zeros(512));
    assert Flat(disk[3])[299 * 512..299 * 512 + 512][0] == Zeros(512)[0];
    assert BytesOf(f, 3)[size] == 7 && Flat(disk[3])[size] == 0;
  }

  /** A full volume again; the last of 300 blocks holds one byte. */
  function Ragged(): Fs {
    OneFile(299 * 512 + 1, 6, Sevenths(299) + [[7] + Zeros(511)], 0)
  }

  lemma RaggedIs()
    ensures var g, f := SmallGeo(305), Ragged();
            && FsSized(g, f) && SizeOk(g, f, 3) && TailClear(f, 3) && TruncErr(g, f, 3, 299 * 512) == ENOSPC
            && |Flat(f.blocks[3])| == 300 * 512
  {
    hide CeilDiv, Flat;
    var a, last := Sevenths(299), [7] + Zeros(511);
    CeilDivUnique(299 * 512 + 1, 512, 300);
    CeilDivUnique(299 * 512, 512, 299);
    CeilDivUnique(299, 126, 3);
    CeilDivUnique(300, 126, 3);
    OneFileSized(299 * 512 + 1, 6, a + [last], 0, 305);
    FlatAppend(a, [last]);
    FlatLength(a, 512);
    FlatOne(last);
  }

  /** Cut to 299 blocks with a cache: the last block comes back as the device has it, also behind the end of the file,
      and a write that starts with the next block makes that part of the file. */
  lemma TailBack(f': Fs, disk: seq<seq<Block>>, stale: seq<Block>)
    requires CutLost(SmallGeo(305), Ragged(), f', disk, 3, 299 * 512, true) && disk[3][299] == Sevens(512)
    requires FsSized(SmallGeo(305), f')
    ensures TailClear(Ragged(), 3) && !TailClear(f', 3) && !SkippedZero(SmallGeo(305), f', 3, 300 * 512, stale)
  {
    hide CeilDiv, Flat, CutLost;
    var g, f := SmallGeo(305), Ragged();
    RaggedIs();
    CeilDivUnique(299 * 512, 512, 299);
    CutTailExact(g, f, f', disk, 3, 299 * 512, true);
    LastByte(f, f', disk);
    TailShows(g, f', 3, stale);
  }

  lemma LastByte(f: Fs, f': Fs, disk: seq<seq<Block>>)
    requires f == Ragged() && CutLost(SmallGeo(305), f, f', disk, 3, 299 * 512, true) && disk[3][299] == Sevens(512)
    ensures |f'.blocks[3]| == 300 && f'.inodes == f.inodes
    ensures |Flat(disk[3])| == 300 * 512 && Flat(disk[3])[300 * 512 - 1] == 7
  {
    hide CeilDiv, Flat;
    FlatLength(disk[3], 512);
    FlatUpdate(disk[3], 512, 299, Sevens(512));
    assert Flat(disk[3])[299 * 512..299 * 512 + 512][511] == Sevens(512)[511];
  }
}
