/** Files as lists of blocks: what the mapping and the data region say together, and block-wise access. */
module FileData {
  import opened Errors
  import opened Bytes
  import opened Layout
  import opened ListNodes
  import opened Mapping
  import opened BlockCaches
  import opened Volumes
  import opened Ownership
  import opened Allocator
  import opened FileBytes

  ghost predicate PtrsIn(l: Ledger, n: nat) {
    forall m, k :: 0 <= m < |l.ptrs| && 0 <= k < |l.ptrs[m]| ==> l.ptrs[m][k] < n
  }

  /** The blocks of every inode. */
  ghost function Contents(s: Vol, l: Ledger): (c: seq<seq<Block>>)
    requires PtrsIn(l, |s.data|)
    ensures |c| == |l.ptrs| && forall n :: 0 <= n < |c| ==> c[n] == FileBlocks(s, l, n)
  {
    seq(|l.ptrs|, n requires 0 <= n < |l.ptrs| => FileBlocks(s, l, n))
  }

  lemma OwnedPtrsIn(g: Geometry, s: Vol, l: Ledger)
    requires Owned(g, s, l) && VolSized(g, s)
    ensures PtrsIn(l, |s.data|) && |l.ptrs| == |s.inodes|
  {
    hide Mapped, Backed, BitsMatch;
  }

  lemma WriteOneContents(g: Geometry, s: Vol, l: Ledger, n: nat, k: nat, d: Block)
    requires Owned(g, s, l) && VolSized(g, s) && n < |l.ptrs| && k < |l.ptrs[n]| && PtrsIn(l, |s.data|)
    ensures var s' := s.(data := s.data[l.ptrs[n][k] := d]);
            Owned(g, s', l) && Contents(s', l) == Contents(s, l)[n := Contents(s, l)[n][k := d]]
  {
    hide Mapped, Backed, BitsMatch, Tagged;
    var s' := s.(data := s.data[l.ptrs[n][k] := d]);
    assert l.ptrs[n][k] in l.ptrs[n];
    OwnedDataFrame(g, s, l, s', n, [l.ptrs[n][k]]);
    forall m | 0 <= m < |l.ptrs|
      ensures FileBlocks(s', l, m) == if m == n then FileBlocks(s, l, m)[k := d] else FileBlocks(s, l, m)
    {
      forall j | 0 <= j < |l.ptrs[m]| && !(m == n && j == k) ensures l.ptrs[m][j] != l.ptrs[n][k] {
        PtrsDiffer(l, g.dataBlkNum, m, j, n, k);
      }
    }
  }

  lemma PtrsDiffer(l: Ledger, dataNum: nat, m: nat, j: nat, n: nat, k: nat)
    requires Tagged(l, dataNum) && m < |l.ptrs| && j < |l.ptrs[m]| && n < |l.ptrs| && k < |l.ptrs[n]|
      && !(m == n && j == k)
    ensures l.ptrs[m][j] != l.ptrs[n][k]
  {
    assert l.tag[l.ptrs[m][j]] == DataOf(m, j) && l.tag[l.ptrs[n][k]] == DataOf(n, k);
  }

  /** Contents of the blocks an allocation appends: whatever the free blocks held. */
  ghost function Stale(s: Vol, n: nat): (q: seq<Block>)
    requires n <= FreeCount(s.bits) && |s.bits| == |s.data|
    ensures |q| == n
  {
    LowestFree(s.bits, n);
    seq(n, j requires 0 <= j < n => s.data[Lowest(s.bits, n)[j]])
  }

  lemma GrownContents(g: Geometry, s: Vol, l: Ledger, s': Vol, l': Ledger, ino: nat, n: nat, added: seq<nat>)
    requires VolSized(g, s) && PtrsIn(l, |s.data|) && PtrsIn(l', |s'.data|) && |s'.data| == |s.data|
    requires ino < |s.inodes| && ino < |l.ptrs| && PtrsPerNode(g.blkSize) > 0 && Grown(g, s, l, s', l', ino, n, added)
    ensures Contents(s', l') == Contents(s, l)[ino := Contents(s, l)[ino] + Stale(s, n)]
  {
    hide FreeCount, Lowest;
    LowestFree(s.bits, n);
    forall m | 0 <= m < |l.ptrs|
      ensures FileBlocks(s', l', m) == if m == ino then FileBlocks(s, l, m) + Stale(s, n) else FileBlocks(s, l, m)
    {
    }
  }

  lemma ShrunkContents(g: Geometry, s: Vol, l: Ledger, s': Vol, l': Ledger, ino: nat, start: nat, m: nat)
    requires VolSized(g, s) && PtrsIn(l, |s.data|) && PtrsIn(l', |s'.data|) && |s'.data| == |s.data|
    requires ino < |s.inodes| && ino < |l.ptrs| && PtrsPerNode(g.blkSize) > 0 && start + m <= |l.ptrs[ino]|
    requires Shrunk(g, s, l, s', l', ino, start, m)
    ensures Contents(s', l') == Contents(s, l)[ino := Contents(s, l)[ino][..start] + Contents(s, l)[ino][start + m..]]
  {
    hide FreeCount, VolSized;
    forall n | 0 <= n < |l.ptrs|
      ensures FileBlocks(s', l', n) == if n == ino then FileBlocks(s, l, n)[..start] + FileBlocks(s, l, n)[start + m..]
                                       else FileBlocks(s, l, n)
    {
    }
  }

  /** The volume as files see it: inode records, their blocks and the room that is left. */
  datatype Fs = Fs(inodes: seq<Inode>, ibits: seq<bool>, blocks: seq<seq<Block>>, free: nat)

  ghost predicate FsSized(g: Geometry, f: Fs) {
    && |f.inodes| == |f.ibits| == |f.blocks| == g.inodeNum
    && (forall n :: 0 <= n < |f.blocks| ==> f.inodes[n].nr == |f.blocks[n]| <= MAX_FILE_DATA_BLOCKS)
    && (forall n :: 0 <= n < |f.blocks| ==> Whole(f.blocks[n], g.blkSize))
    && (forall n :: 0 <= n < |f.inodes| ==> Fits(f.inodes[n]))
  }

  ghost function FsOf(g: Geometry, s: Vol, l: Ledger): Fs
    requires PtrsIn(l, |s.data|)
  {
    Fs(s.inodes, s.ibits, Contents(s, l), FreeCount(s.bits))
  }

  lemma FsOfSized(g: Geometry, s: Vol, l: Ledger)
    requires Owned(g, s, l) && VolSized(g, s)
    ensures PtrsIn(l, |s.data|) && FsSized(g, FsOf(g, s, l))
  {
    hide Chain, Backed, BitsMatch, FreeCount, Fits;
    OwnedPtrsIn(g, s, l);
    forall n | 0 <= n < |s.inodes| ensures s.inodes[n].nr == |l.ptrs[n]| <= MAX_FILE_DATA_BLOCKS {
      assert Mapped(g, s.data, s.inodes[n], l.nodes[n], l.ptrs[n]);
    }
  }

  /** The volume is in order and every block has at most one owner. */
  ghost predicate Good(v: Volume)
    reads v.Repr()
    ensures Good(v) ==> GeoValid(v.geo) && PtrsPerNode(v.geo.blkSize) >= 126
  {
    v.Valid() && Owned(v.geo, v.vol, v.led)
  }

  ghost function View(v: Volume): (f: Fs)
    reads v.Repr()
    requires Good(v)
    ensures FsSized(v.geo, f) && |f.ibits| == |f.inodes| == |f.blocks| == v.geo.inodeNum
  {
    FsOfSized(v.geo, v.vol, v.led);
    FsOf(v.geo, v.vol, v.led)
  }

  /** The data bitmap and the owner of every block are as `bits` and `led` say. */
  ghost predicate MapsAre(v: Volume, bits: seq<bool>, led: Ledger)
    reads v
  {
    v.vol.bits == bits && v.led == led
  }

  /** The lists of no inode but `n` differ. */
  ghost predicate OnlyLists(l: Ledger, l': Ledger, n: nat) {
    && n < |l.nodes| == |l.ptrs| == |l'.nodes| == |l'.ptrs|
    && l'.nodes == l.nodes[n := l'.nodes[n]] && l'.ptrs == l.ptrs[n := l'.ptrs[n]]
  }

  /** The owners of all blocks, and with them the bitmap, are told by the lists. */
  lemma ListsTell(g: Geometry, s: Vol, l: Ledger, s': Vol, l': Ledger)
    requires Owned(g, s, l) && Owned(g, s', l') && l'.nodes == l.nodes && l'.ptrs == l.ptrs
    ensures l' == l && s'.bits == s.bits
  {
    hide Mapped;
    forall i | 0 <= i < |l.tag| ensures l'.tag[i] == l.tag[i] {
      match l.tag[i] {
        case NodeOf(n, k) => assert l.nodes[n][k] == i;
        case DataOf(n, k) => assert l.ptrs[n][k] == i;
        case Free =>
      }
    }
  }

  /** An inode that has no blocks, as before, has left no trace in bitmap and mapping. */
  lemma EmptyAgain(g: Geometry, s: Vol, l: Ledger, s': Vol, l': Ledger, n: nat)
    requires Owned(g, s, l) && Owned(g, s', l') && OnlyLists(l, l', n) && n < |s.inodes| == |s'.inodes|
    requires l.ptrs[n] == [] && l'.ptrs[n] == [] && PtrsPerNode(g.blkSize) > 0
    ensures l' == l && s'.bits == s.bits
  {
    hide Chain, Tagged, Backed, BitsMatch;
    assert Mapped(g, s.data, s.inodes[n], l.nodes[n], []) && Mapped(g, s'.data, s'.inodes[n], l'.nodes[n], []);
    MappedParts(g, s.data, s.inodes[n], l.nodes[n], []);
    MappedParts(g, s'.data, s'.inodes[n], l'.nodes[n], []);
    CeilDivBounds(0, PtrsPerNode(g.blkSize));
    assert l.nodes[n := []] == l.nodes && l.ptrs[n := []] == l.ptrs;
    ListsTell(g, s, l, s', l');
  }

  lemma ListLengths(v: Volume, n: nat)
    requires Good(v) && n < v.geo.inodeNum
    ensures Owned(v.geo, v.vol, v.led) && n < |v.vol.inodes| == |v.led.ptrs| == v.geo.inodeNum
    ensures |v.led.ptrs[n]| == |View(v).blocks[n]|
  {
    hide Mapped, Backed, BitsMatch, FreeCount;
    GeoFacts(v);
  }

  /** What the device holds of every file, behind the cache. */
  ghost function OnDisk(v: Volume): (d: seq<seq<Block>>)
    reads v.Repr()
    requires Good(v)
    ensures |d| == |View(v).blocks|
    ensures forall n :: 0 <= n < |d| ==> |d[n]| == |View(v).blocks[n]| && Whole(d[n], v.geo.blkSize)
  {
    OwnedPtrsIn(v.geo, v.vol, v.led);
    Contents(v.vol.(data := v.Disk()), v.led)
  }

  /** Block `k` of file `n` apart, the device copy of every file block is as before, or what the file shows. */
  ghost predicate Backs(blocks: seq<seq<Block>>, was: seq<seq<Block>>, now: seq<seq<Block>>, n: nat, k: int) {
    && |blocks| == |was| == |now|
    && (forall i :: 0 <= i < |blocks| ==> |blocks[i]| == |was[i]| == |now[i]|)
    && forall i, j :: 0 <= i < |blocks| && 0 <= j < |blocks[i]| && !(i == n && j == k) ==>
         now[i][j] == was[i][j] || now[i][j] == blocks[i][j]
  }

  lemma MapSettles(g: Geometry, s: Vol, l: Ledger, was: seq<Block>, now: seq<Block>)
    requires Owned(g, s, l) && VolSized(g, s) && Settles(s.data, was, now, 0, 0) && PtrsIn(l, |s.data|)
    ensures Backs(Contents(s, l), Contents(s.(data := was), l), Contents(s.(data := now), l), 0, -1)
  {
    hide Owned, VolSized;
  }

  lemma MapSettlesBut(g: Geometry, s: Vol, l: Ledger, was: seq<Block>, now: seq<Block>, n: nat, k: nat)
    requires Owned(g, s, l) && VolSized(g, s) && PtrsIn(l, |s.data|) && n < |l.ptrs| && k < |l.ptrs[n]|
    requires Settles(s.data, was, now, l.ptrs[n][k], l.ptrs[n][k] + 1)
    ensures Backs(Contents(s, l), Contents(s.(data := was), l), Contents(s.(data := now), l), n, k)
  {
    hide Mapped, Backed, BitsMatch, Tagged, VolSized;
    forall i, j | 0 <= i < |l.ptrs| && 0 <= j < |l.ptrs[i]| && !(i == n && j == k)
      ensures l.ptrs[i][j] != l.ptrs[n][k]
    {
      PtrsDiffer(l, g.dataBlkNum, i, j, n, k);
    }
  }

  /** The inode record of `n`, through the table. */
  method GetInode(v: Volume, n: nat) returns (err: Errno, rec: Inode)
    requires Good(v)
    modifies v.io.Repr()
    ensures Good(v) && View(v) == old(View(v)) && Backs(View(v).blocks, old(OnDisk(v)), OnDisk(v), 0, -1)
    ensures n < v.geo.inodeNum ==> err == Ok && rec == View(v).inodes[n]
    ensures n >= v.geo.inodeNum ==> err == EINVAL
  {
    hide Volume.Valid, Owned, FreeCount, Volume.Disk, Settles, Backs;
    OwnedPtrsIn(v.geo, v.vol, v.led);
    err, rec := v.ReadInode(n);
    MapSettles(v.geo, v.vol, v.led, old(v.Disk()), v.Disk());
  }

  /** Write the inode record of `n`; list head and block count are those on disk. */
  method PutInode(v: Volume, n: nat, rec: Inode) returns (err: Errno)
    requires Good(v) && Fits(rec)
    requires n < v.geo.inodeNum ==> rec.head == View(v).inodes[n].head && rec.nr == View(v).inodes[n].nr
    modifies v, v.io.Repr()
    ensures Good(v) && MapsAre(v, old(v.vol).bits, old(v.led))
    ensures n < v.geo.inodeNum ==> err == Ok && View(v) == old(View(v)).(inodes := old(View(v)).inodes[n := rec])
    ensures n >= v.geo.inodeNum ==> err == EINVAL && View(v) == old(View(v))
  {
    hide Volume.Valid, Owned, FreeCount;
    if n < v.geo.inodeNum {
      OwnedInodeFrame(v.geo, v.vol, v.led, n, rec);
    }
    err := v.WriteInode(n, rec);
  }

  /** mofs_inode_stamp_persist. */
  method StampInode(v: Volume, n: nat, mask: Times, now: nat) returns (err: Errno)
    requires Good(v) && now < LIMIT64
    modifies v, v.io.Repr()
    ensures Good(v) && MapsAre(v, old(v.vol).bits, old(v.led))
    ensures n < v.geo.inodeNum && mask != Times(false, false, false) ==>
              && err == Ok
              && View(v) == old(View(v)).(inodes := old(View(v)).inodes[n := Stamp(old(View(v)).inodes[n], mask, now)])
    ensures !(n < v.geo.inodeNum && mask != Times(false, false, false)) ==> err == EINVAL && View(v) == old(View(v))
  {
    hide Volume.Valid, Owned, FreeCount;
    if n < v.geo.inodeNum && mask != Times(false, false, false) {
      OwnedInodeFrame(v.geo, v.vol, v.led, n, Stamp(v.vol.inodes[n], mask, now));
    }
    err := v.StampPersist(n, mask, now);
  }

  /** allocate_inode. */
  method NewInode(v: Volume) returns (err: Errno, n: nat)
    requires Good(v)
    modifies v, v.io.Repr()
    ensures Good(v) && MapsAre(v, old(v.vol).bits, old(v.led))
    ensures err == Ok || err == ENOSPC
    ensures err == Ok ==> 3 <= n < v.geo.inodeNum && !old(View(v)).ibits[n]
    ensures err == Ok ==>
      Clear(old(View(v)).ibits, 3, v.geo.inodeNum) != [] && n == Clear(old(View(v)).ibits, 3, v.geo.inodeNum)[0]
    ensures err == Ok ==> View(v) == old(View(v)).(ibits := old(View(v)).ibits[n := true])
    ensures err != Ok ==> View(v) == old(View(v)) && Clear(old(View(v)).ibits, 3, v.geo.inodeNum) == []
  {
    hide Volume.Valid, Owned, FreeCount, Clear;
    ghost var s := v.vol;
    err, n := v.AllocateInode();
    OwnedBitFrame(v.geo, s, v.led, v.vol.ibits);
  }

  /** free_inode, for an inode without blocks. */
  method DropInode(v: Volume, n: nat) returns (err: Errno)
    requires Good(v) && (n < v.geo.inodeNum ==> View(v).blocks[n] == [])
    modifies v, v.io.Repr()
    ensures Good(v) && MapsAre(v, old(v.vol).bits, old(v.led))
    ensures 3 <= n < v.geo.inodeNum ==> err == Ok
    ensures 3 <= n < v.geo.inodeNum ==>
              View(v) == old(View(v)).(ibits := old(View(v)).ibits[n := false],
                                       inodes := old(View(v)).inodes[n := ZeroInode()])
    ensures !(3 <= n < v.geo.inodeNum) ==> err == EINVAL && View(v) == old(View(v))
  {
    hide Volume.Valid, Owned, FreeCount;
    ghost var s := v.vol;
    if 3 <= n < v.geo.inodeNum {
      OwnedInodeFrame(v.geo, s, v.led, n, ZeroInode());
      OwnedBitFrame(v.geo, s.(inodes := s.inodes[n := ZeroInode()]), v.led, s.ibits[n := false]);
    }
    err := v.FreeInode(n);
  }

  /** Read file block `k` of inode `n`: resolve it, then read it. */
  method ReadBlk(v: Volume, n: nat, k: nat) returns (err: Errno, d: Block)
    requires Good(v) && n < v.geo.inodeNum && k < |View(v).blocks[n]|
    modifies v.io.Repr()
    ensures Good(v) && View(v) == old(View(v)) && Backs(View(v).blocks, old(OnDisk(v)), OnDisk(v), 0, -1)
    ensures err == Ok && d == View(v).blocks[n][k]
  {
    hide Volume.Valid, Owned, Mapped, FreeCount, InUse, Apart, Volume.Disk, Settles, Backs;
    OwnedAt(v, n);
    OwnedPtrsIn(v.geo, v.vol, v.led);
    MappedParts(v.geo, v.vol.data, v.vol.inodes[n], v.led.nodes[n], v.led.ptrs[n]);
    GeoFacts(v);
    d := [];
    var abs;
    err, abs := Resolve(v, n, k, v.led.nodes[n], v.led.ptrs[n]);
    if err != Ok {
      return;
    }
    ghost var disk := v.Disk();
    err, d := v.ReadData(abs);
    SettlesOn(v.vol.data, old(v.Disk()), disk, v.Disk());
    MapSettles(v.geo, v.vol, v.led, old(v.Disk()), v.Disk());
  }

  /** Write file block `k` of inode `n`; blocks outside the data region are refused. */
  method WriteBlk(v: Volume, n: nat, k: nat, d: Block) returns (err: Errno)
    requires Good(v) && n < v.geo.inodeNum && k < |View(v).blocks[n]| && |d| == v.geo.blkSize
    modifies v, v.io.Repr()
    ensures Good(v) && err == Ok && MapsAre(v, old(v.vol).bits, old(v.led))
    ensures View(v) == old(View(v)).(blocks := old(View(v)).blocks[n := old(View(v)).blocks[n][k := d]])
    ensures Backs(old(View(v)).blocks, old(OnDisk(v)), OnDisk(v), n, k)
  {
    hide Volume.Valid, Owned, Mapped, FreeCount, InUse, Apart, Volume.Disk, Settles, Backs;
    OwnedAt(v, n);
    OwnedPtrsIn(v.geo, v.vol, v.led);
    MappedParts(v.geo, v.vol.data, v.vol.inodes[n], v.led.nodes[n], v.led.ptrs[n]);
    GeoFacts(v);
    WriteOneContents(v.geo, v.vol, v.led, n, k, d);
    var abs;
    err, abs := Resolve(v, n, k, v.led.nodes[n], v.led.ptrs[n]);
    if err != Ok {
      return;
    }
    if abs < v.geo.dataRegionStart || v.geo.dataRegionStart + v.geo.dataBlkNum <= abs {
      return EINVAL;
    }
    ghost var disk := v.Disk();
    err := v.WriteData(abs, d);
    SettlesOnBut(old(v.vol).data, old(v.Disk()), disk, v.Disk(), v.led.ptrs[n][k]);
    MapSettlesBut(v.geo, old(v.vol), v.led, old(v.Disk()), v.Disk(), n, k);
  }

  lemma SettlesOnBut(data: seq<Block>, a: seq<Block>, b: seq<Block>, c: seq<Block>, i: nat)
    requires Settles(data, a, b, 0, 0) && Settles(data, b, c, i, i + 1)
    ensures Settles(data, a, c, i, i + 1)
  {
  }

  /** What a successful allocation of `c` blocks for inode `n` makes of the volume. */
  ghost predicate Extended(g: Geometry, f: Fs, f': Fs, n: nat, stale: seq<Block>)
    requires n < |f.inodes| == |f.blocks| && PtrsPerNode(g.blkSize) > 0
  {
    var k, c, cap := |f.blocks[n]|, |stale|, PtrsPerNode(g.blkSize);
    && |f'.inodes| == |f.inodes| && f'.inodes == f.inodes[n := f.inodes[n].(head := f'.inodes[n].head, nr := k + c)]
    && f'.ibits == f.ibits
    && f'.blocks == f.blocks[n := f.blocks[n] + stale]
    && f'.free + c + NodesFor(k + c, cap) == f.free + NodesFor(k, cap)
  }

  /** What a successful release of the blocks [start, start + m) of inode `n` makes of the volume. */
  ghost predicate Reduced(g: Geometry, f: Fs, f': Fs, n: nat, start: nat, m: nat)
    requires n < |f.inodes| == |f.blocks| && PtrsPerNode(g.blkSize) > 0 && start + m <= |f.blocks[n]|
  {
    var k, cap := |f.blocks[n]|, PtrsPerNode(g.blkSize);
    && |f'.inodes| == |f.inodes| && f'.inodes == f.inodes[n := f.inodes[n].(head := f'.inodes[n].head, nr := k - m)]
    && f'.ibits == f.ibits
    && f'.blocks == f.blocks[n := f.blocks[n][..start] + f.blocks[n][start + m..]]
    && f'.free + NodesFor(k - m, cap) == f.free + m + NodesFor(k, cap)
  }

  ghost predicate HasRoom(g: Geometry, f: Fs, n: nat, c: nat)
    requires n < |f.blocks| && PtrsPerNode(g.blkSize) > 0
  {
    |f.blocks[n]| + c <= MAX_FILE_DATA_BLOCKS && c + NodesFor(|f.blocks[n]| + c, PtrsPerNode(g.blkSize)) <= f.free
  }

  lemma GrownView(g: Geometry, s: Vol, l: Ledger, s': Vol, l': Ledger, n: nat, c: nat, added: seq<nat>)
    requires VolSized(g, s) && PtrsIn(l, |s.data|) && PtrsIn(l', |s'.data|) && |s'.data| == |s.data|
      && s'.ibits == s.ibits
    requires n < |s.inodes| == |l.ptrs| && PtrsPerNode(g.blkSize) > 0 && Grown(g, s, l, s', l', n, c, added)
    ensures Extended(g, FsOf(g, s, l), FsOf(g, s', l'), n, Stale(s, c))
  {
    hide FreeCount, Stale, Lowest, ContentsKept;
    GrownContents(g, s, l, s', l', n, c, added);
  }

  lemma ShrunkView(g: Geometry, s: Vol, l: Ledger, s': Vol, l': Ledger, n: nat, start: nat, m: nat)
    requires VolSized(g, s) && PtrsIn(l, |s.data|) && PtrsIn(l', |s'.data|) && |s'.data| == |s.data|
      && s'.ibits == s.ibits
    requires n < |s.inodes| == |l.ptrs| && PtrsPerNode(g.blkSize) > 0 && start + m <= |l.ptrs[n]|
    requires Shrunk(g, s, l, s', l', n, start, m)
    ensures Reduced(g, FsOf(g, s, l), FsOf(g, s', l'), n, start, m)
  {
    hide FreeCount, ContentsKept;
    ShrunkContents(g, s, l, s', l', n, start, m);
  }

  /** A release that fails may have lost the contents of the blocks it was to release, nothing else. */
  ghost predicate Spoiled(f: Fs, f': Fs, n: nat, start: nat, m: nat)
    requires n < |f.blocks| && start + m <= |f.blocks[n]|
  {
    && |f'.blocks| == |f.blocks| && |f'.blocks[n]| == |f.blocks[n]|
    && f'.blocks[n][..start] == f.blocks[n][..start] && f'.blocks[n][start + m..] == f.blocks[n][start + m..]
    && f' == f.(blocks := f.blocks[n := f'.blocks[n]])
  }

  lemma SpoiledView(g: Geometry, s: Vol, l: Ledger, s': Vol, n: nat, start: nat, m: nat)
    requires Owned(g, s, l) && VolSized(g, s) && PtrsIn(l, |s.data|) && PtrsIn(l, |s'.data|)
      && s' == s.(data := s'.data)
    requires n < |s.inodes| == |l.ptrs| && start + m <= |l.ptrs[n]|
    requires ChangedOnly(s.data, s'.data, l.ptrs[n][start..start + m], [], [])
    ensures Spoiled(FsOf(g, s, l), FsOf(g, s', l), n, start, m)
  {
    hide Mapped, Backed, BitsMatch, FreeCount, VolSized, Tagged;
    forall i, j | 0 <= i < |l.ptrs| && 0 <= j < |l.ptrs[i]| && !(i == n && start <= j < start + m)
      ensures s'.data[l.ptrs[i][j]] == s.data[l.ptrs[i][j]]
    {
      forall k | start <= k < start + m ensures l.ptrs[i][j] != l.ptrs[n][k] {
        PtrsDiffer(l, g.dataBlkNum, i, j, n, k);
      }
    }
    forall i | 0 <= i < |l.ptrs| && i != n ensures FileBlocks(s', l, i) == FileBlocks(s, l, i) {
    }
    assert Contents(s', l) == Contents(s, l)[n := Contents(s', l)[n]];
  }

  /** The blocks [start, start + m) of file `n` show what the device holds, if there is a cache to be dropped from. */
  ghost predicate ShowsDisk(f: Fs, f': Fs, disk: seq<seq<Block>>, n: nat, start: nat, m: nat, cached: bool) {
    && n < |f.blocks| == |f'.blocks| == |disk| && start + m <= |f.blocks[n]| == |f'.blocks[n]| == |disk[n]|
    && forall j :: start <= j < start + m ==> f'.blocks[n][j] == if cached then disk[n][j] else f.blocks[n][j]
  }

  lemma DroppedView(g: Geometry, s: Vol, l: Ledger, s': Vol, disk: seq<Block>, n: nat, start: nat, m: nat, cached: bool)
    requires PtrsIn(l, |s.data|) && PtrsIn(l, |s'.data|) && PtrsIn(l, |disk|) && s' == s.(data := s'.data)
    requires n < |s.inodes| == |l.ptrs| && start + m <= |l.ptrs[n]|
    requires Dropped(s.data, s'.data, disk, l.ptrs[n][start..start + m], cached)
    ensures ShowsDisk(FsOf(g, s, l), FsOf(g, s', l), Contents(s'.(data := disk), l), n, start, m, cached)
  {
    hide FreeCount;
    forall j | start <= j < start + m ensures l.ptrs[n][j] in l.ptrs[n][start..start + m] {
      assert l.ptrs[n][start..start + m][j - start] == l.ptrs[n][j];
    }
  }

  /** allocate_data_block, as files see it. */
  method Extend(v: Volume, n: nat, c: nat) returns (err: Errno, ghost stale: seq<Block>)
    requires Good(v) && n < v.geo.inodeNum && 0 < c && c + MAX_FILE_DATA_BLOCKS < LIMIT32
    modifies v, v.io.Repr()
    ensures Good(v)
    ensures err == if HasRoom(v.geo, old(View(v)), n, c) then Ok else ENOSPC
    ensures err == Ok ==> |stale| == c && Extended(v.geo, old(View(v)), View(v), n, stale)
    ensures err == Ok ==>
      c <= FreeCount(old(v.vol).bits) && |old(v.vol).bits| == |old(v.vol).data| && stale == Stale(old(v.vol), c)
    ensures err == Ok ==> OnlyLists(old(v.led), v.led, n)
    ensures err != Ok ==> View(v) == old(View(v)) && MapsAre(v, old(v.vol).bits, old(v.led))
  {
    hide Volume.Valid, Owned, Mapped, FreeCount, InUse, Apart, Stale, Extended;
    OwnedAt(v, n);
    OwnedPtrsIn(v.geo, v.vol, v.led);
    GeoFacts(v);
    ghost var s, l := v.vol, v.led;
    ghost var added;
    err, added := Allocate(v, n, c);
    stale := [];
    if err == Ok {
      OwnedPtrsIn(v.geo, v.vol, v.led);
      GeoFacts(v);
      stale := Stale(s, c);
      GrownView(v.geo, s, l, v.vol, v.led, n, c, added);
    }
  }

  /** free_data_block, as files see it. */
  method Release(v: Volume, n: nat, start: nat, c: nat) returns (err: Errno)
    requires Good(v) && n < v.geo.inodeNum && start < |View(v).blocks[n]| && 0 < c && start + c < LIMIT32
    modifies v, v.io.Repr()
    ensures Good(v)
    ensures var f := old(View(v)); var k := |f.blocks[n]|; var m := Least(c, k - start);
            && err == (if NodesFor(k - m, PtrsPerNode(v.geo.blkSize)) <= f.free + m then Ok else ENOSPC)
            && (err == Ok ==> Reduced(v.geo, f, View(v), n, start, m) && OnlyLists(old(v.led), v.led, n))
            && (err != Ok ==> Spoiled(f, View(v), n, start, m) && MapsAre(v, old(v.vol).bits, old(v.led))
                              && ShowsDisk(f, View(v), OnDisk(v), n, start, m, v.io.enabled)
                              && Backs(f.blocks, old(OnDisk(v)), OnDisk(v), 0, -1))
  {
    hide Volume.Valid, Owned, Mapped, FreeCount, InUse, Apart, ChangedOnly, Reduced, Spoiled, Dropped, Settles,
      Volume.Disk, Backs, ShowsDisk;
    OwnedAt(v, n);
    OwnedPtrsIn(v.geo, v.vol, v.led);
    GeoFacts(v);
    ghost var s, l := v.vol, v.led;
    err := Allocator.Free(v, n, start, c);
    OwnedPtrsIn(v.geo, v.vol, v.led);
    GeoFacts(v);
    ghost var m := Least(c, |l.ptrs[n]| - start);
    if err == Ok {
      ShrunkView(v.geo, s, l, v.vol, v.led, n, start, m);
    } else {
      SpoiledView(v.geo, s, l, v.vol, n, start, m);
      DroppedView(v.geo, s, l, v.vol, v.Disk(), n, start, m, v.io.enabled);
      MapSettles(v.geo, s, l, old(v.Disk()), v.Disk());
    }
  }

  /** Giving back the blocks an allocation has just added never lacks room, and restores mapping and free count. */
  lemma UndoExact(g: Geometry, f: Fs, f1: Fs, f2: Fs, n: nat, stale: seq<Block>)
    requires FsSized(g, f) && n < |f.inodes| == |f.blocks| && PtrsPerNode(g.blkSize) > 0 && HasRoom(g, f, n, |stale|)
      && Extended(g, f, f1, n, stale)
    ensures NodesFor(|f.blocks[n]|, PtrsPerNode(g.blkSize)) <= f1.free + |stale|
    ensures n < |f1.inodes| == |f1.blocks| && |f.blocks[n]| + |stale| == |f1.blocks[n]|
    ensures Reduced(g, f1, f2, n, |f.blocks[n]|, |stale|) ==>
              n < |f2.inodes| && f2 == f.(inodes := f.inodes[n := f.inodes[n].(head := f2.inodes[n].head)])
  {
    hide NodesFor;
    var k := |f.blocks[n]|;
    assert f1.blocks[n][..k] + f1.blocks[n][k + |stale|..] == f.blocks[n];
    assert f.blocks[n := f1.blocks[n]][n := f.blocks[n]] == f.blocks;
  }
}
