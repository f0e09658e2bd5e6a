/** Directories on the volume: finding, adding and removing entries, slot by slot. */
module DirOps {
  import opened Errors
  import opened Bytes
  import opened Layout
  import opened ListNodes
  import opened Mapping
  import opened Volumes
  import opened Ownership
  import opened Accounting
  import opened FileBytes
  import opened FileData
  import opened FileOps
  import opened Dirents

  /** A directory whose size covers all of its blocks. */
  ghost predicate DirOk(g: Geometry, f: Fs, n: nat) {
    && n < g.inodeNum && n < |f.inodes| == |f.blocks| && IsDir(f.inodes[n])
    && f.inodes[n].size == |f.blocks[n]| * g.blkSize
  }

  lemma DirSizeOk(g: Geometry, f: Fs, n: nat)
    requires g.blkSize > 0 && DirOk(g, f, n)
    ensures SizeOk(g, f, n) && CeilDiv(f.inodes[n].size, g.blkSize) == |f.blocks[n]|
  {
    hide CeilDiv;
    var k := |f.blocks[n]|;
    if k > 0 {
      MulAdd(k, -1, g.blkSize);
    }
    CeilDivUnique(f.inodes[n].size, g.blkSize, k);
  }

  ghost function EntsIn(f: Fs, n: nat): seq<Ent>
    requires n < |f.blocks|
  {
    EntsOf(f.blocks[n])
  }

  lemma OneBlock(blocks: seq<Block>, bs: nat, k: nat, buf: Block, whole: nat, fraction: nat)
    requires bs > 0 && Whole(blocks, bs) && k < |blocks|
      && Fetched(blocks, bs, |blocks| * bs, k, 1, buf, whole, fraction)
    ensures buf == blocks[k] && whole * bs + fraction == bs
  {
    hide Flat;
    FlatUpdate(blocks, bs, k, blocks[k]);
    MulAdd(k, 1, bs);
  }

  /** One directory block through read_file_data_block. */
  method ReadDirBlock(v: Volume, n: nat, k: nat) returns (err: Errno, buf: Block)
    requires Good(v) && DirOk(v.geo, View(v), n) && k < |View(v).blocks[n]|
    modifies v.io.Repr()
    ensures Good(v) && View(v) == old(View(v)) && err == Ok
    ensures buf == View(v).blocks[n][k] && |buf| == v.geo.blkSize
  {
    hide Good, View, FsSized, Flat, CeilDiv, Whole, Fetched, OnDisk, Backs;
    ghost var f := View(v);
    DirSizeOk(v.geo, f, n);
    FsWhole(v.geo, f, n);
    var whole, fraction;
    err, buf, whole, fraction := ReadFileBlocks(v, n, k, 1);
    OneBlock(f.blocks[n], v.geo.blkSize, k, buf, whole, fraction);
    BlockSize(f.blocks[n], v.geo.blkSize, k);
  }

  lemma BlockSize(blocks: seq<Block>, bs: nat, k: nat)
    requires Whole(blocks, bs) && k < |blocks|
    ensures |blocks[k]| == bs
  {
  }

  lemma StoredOne(blocks: seq<Block>, blocks': seq<Block>, bs: nat, k: nat, buf: Block)
    requires Whole(blocks, bs) && Whole(blocks', bs) && k < |blocks| && |buf| == bs
      && Stored(blocks, blocks', bs, k, 1, buf)
    ensures blocks' == blocks[k := buf]
  {
    hide Flat;
    FlatUpdate(blocks, bs, k, buf);
    assert buf[..1 * bs] == buf;
    FlatInjective(blocks', blocks[k := buf], bs);
  }

  /** One directory block through write_file_data_block. */
  method WriteDirBlock(v: Volume, n: nat, k: nat, buf: Block) returns (err: Errno)
    requires Good(v) && n < v.geo.inodeNum && k < |View(v).blocks[n]| && |buf| == v.geo.blkSize
    modifies v, v.io.Repr()
    ensures Good(v) && err == Ok && MapsAre(v, old(v.vol).bits, old(v.led))
    ensures View(v) == old(View(v)).(blocks := old(View(v)).blocks[n := old(View(v)).blocks[n][k := buf]])
  {
    hide Good, View, FsSized, Whole, Stored, OnDisk, Backs;
    FsWhole(v.geo, View(v), n);
    var written;
    err, written := WriteFileBlocks(v, n, buf, k, 1);
    FsWhole(v.geo, View(v), n);
    StoredOne(old(View(v)).blocks[n], View(v).blocks[n], v.geo.blkSize, k, buf);
    if written != 1 {
      err := EIO;
    }
  }

  // ---------------------------------------------------------------- scanning

  /** What a scan compares: the name, and for some callers that the slot is in use. */
  predicate Hit(e: Ent, name: Block, used: bool) {
    e.name == name && (used ==> e.ino != 0)
  }

  ghost predicate NoHit(es: seq<Ent>, name: Block, used: bool) {
    forall i :: 0 <= i < |es| ==> !Hit(es[i], name, used)
  }

  method FindSlot(b: Block, name: Block, used: bool) returns (j: nat)
    ensures j <= PerBlock(|b|) && NoHit(Entries(b)[..j], name, used)
    ensures j < PerBlock(|b|) ==> Hit(Entries(b)[j], name, used)
  {
    hide EntryOf, SlotBytes;
    j := 0;
    while j < PerBlock(|b|)
      invariant j <= PerBlock(|b|) && NoHit(Entries(b)[..j], name, used)
    {
      if Hit(EntryOf(SlotBytes(b, j)), name, used) {
        return;
      }
      j := j + 1;
    }
  }

  /** Slot `j` of block `k` is the first that matches. */
  ghost predicate FoundAt(blocks: seq<Block>, bs: nat, k: nat, j: nat, name: Block, used: bool) {
    && 0 <= k * PerBlock(bs) + j < |EntsOf(blocks)|
    && Hit(EntsOf(blocks)[k * PerBlock(bs) + j], name, used)
      && NoHit(EntsOf(blocks)[..k * PerBlock(bs) + j], name, used)
  }

  lemma HitAfter(es: seq<Ent>, a: seq<Ent>, b: seq<Ent>, j: nat, name: Block, used: bool)
    requires a + b <= es && j < |b| && NoHit(a, name, used) && NoHit(b[..j], name, used) && Hit(b[j], name, used)
    ensures Hit(es[|a| + j], name, used) && NoHit(es[..|a| + j], name, used)
  {
    hide Hit;
    assert es[..|a| + j] == a + b[..j];
    assert es[|a| + j] == (a + b)[|a| + j];
  }

  lemma FoundHere(blocks: seq<Block>, bs: nat, k: nat, j: nat, name: Block, used: bool)
    requires Whole(blocks, bs) && k < |blocks| && |blocks[k]| == bs && j < PerBlock(bs)
    requires NoHit(EntsOf(blocks[..k]), name, used) && NoHit(Entries(blocks[k])[..j], name, used)
      && Hit(Entries(blocks[k])[j], name, used)
    ensures FoundAt(blocks, bs, k, j, name, used)
  {
    hide EntsOf, Hit, EntryOf, SlotBytes, NoHit;
    EntsLength(blocks[..k], bs);
    EntsPrefix(blocks, k);
    HitAfter(EntsOf(blocks), EntsOf(blocks[..k]), Entries(blocks[k]), j, name, used);
  }

  /** FindSlot, which leaves the volume alone. */
  method FindSlotIn(ghost v: Volume, b: Block, name: Block, used: bool) returns (j: nat)
    requires Good(v)
    ensures Good(v) && View(v) == old(View(v))
    ensures j <= PerBlock(|b|) && NoHit(Entries(b)[..j], name, used)
    ensures j < PerBlock(|b|) ==> Hit(Entries(b)[j], name, used)
  {
    hide Owned, FsOf, NoHit;
    j := FindSlot(b, name, used);
  }

  /** The first entry of directory `n` that matches, and the block it is in. */
  method Locate(v: Volume, n: nat, name: Block, used: bool)
    returns (err: Errno, found: bool, k: nat, j: nat, buf: Block)
    requires Good(v) && DirOk(v.geo, View(v), n)
    modifies v.io.Repr()
    ensures Good(v) && View(v) == old(View(v)) && err == Ok
    ensures !found ==> NoHit(EntsIn(View(v), n), name, used)
    ensures found ==>
      k < |View(v).blocks[n]| && buf == View(v).blocks[n][k] && |buf| == v.geo.blkSize && j < PerBlock(v.geo.blkSize)
    ensures found ==> FoundAt(View(v).blocks[n], v.geo.blkSize, k, j, name, used)
  {
    hide Good, View, FsSized, CeilDiv, Whole, EntsOf, EntryOf, SlotBytes, Hit, FoundAt, OnDisk, Backs;
    ghost var f := View(v);
    DirSizeOk(v.geo, f, n);
    FsWhole(v.geo, f, n);
    var rec;
    err, rec := GetInode(v, n);
    var blocks := CeilDiv(rec.size, v.geo.blkSize);
    found, k, j, buf := false, 0, 0, [];
    NoEnts(f.blocks[n], name, used);
    while k < blocks
      invariant Good(v) && View(v) == f && err == Ok && k <= blocks == |f.blocks[n]|
      invariant NoHit(EntsOf(f.blocks[n][..k]), name, used)
    {
      err, buf := ReadDirBlock(v, n, k);
      j := FindSlotIn(v, buf, name, used);
      if j < PerBlock(|buf|) {
        found := true;
        FoundHere(f.blocks[n], v.geo.blkSize, k, j, name, used);
        return;
      }
      EntsPrefix(f.blocks[n], k);
      assert Entries(buf)[..j] == Entries(buf);
      k := k + 1;
    }
    assert f.blocks[n][..k] == f.blocks[n];
  }

  lemma NoEnts(blocks: seq<Block>, name: Block, used: bool)
    ensures NoHit(EntsOf(blocks[..0]), name, used)
  {
    assert blocks[..0] == [];
  }

  /** find_dir_entry. */
  method Find(v: Volume, n: nat, name: Block) returns (err: Errno, ino: nat, ghost e: nat)
    requires Good(v) && DirOk(v.geo, View(v), n)
    modifies v.io.Repr()
    ensures Good(v) && View(v) == old(View(v))
    ensures err == Ok || err == ENOENT
    ensures err == Ok ==>
      e < |EntsIn(View(v), n)| && EntsIn(View(v), n)[e] == Ent(name, ino) && NoHit(EntsIn(View(v), n)[..e], name, false)
    ensures err == ENOENT ==> NoHit(EntsIn(View(v), n), name, false)
  {
    hide Good, View, FsSized, Whole, EntsOf, EntryOf, SlotBytes, NoHit, OnDisk, Backs;
    ghost var f := View(v);
    FsWhole(v.geo, f, n);
    var found, k, j, buf;
    err, found, k, j, buf := Locate(v, n, name, false);
    if !found {
      return ENOENT, 0, 0;
    }
    e := k * PerBlock(v.geo.blkSize) + j;
    SlotIs(f.blocks[n], v.geo.blkSize, k, j);
    ino := EntryOf(SlotBytes(buf, j)).ino;
  }

  lemma SlotIs(blocks: seq<Block>, bs: nat, k: nat, j: nat)
    requires Whole(blocks, bs) && k < |blocks| && |blocks[k]| == bs && j < PerBlock(bs)
    ensures 0 <= k * PerBlock(bs) + j < |EntsOf(blocks)|
      && EntsOf(blocks)[k * PerBlock(bs) + j] == EntryOf(SlotBytes(blocks[k], j))
  {
    hide EntsOf, EntryOf, SlotBytes;
    EntsAt(blocks, bs, k, blocks[k]);
  }

  /** Entry `e` of directory `n` became `x`; nothing else differs but the times of its record. */
  ghost predicate SlotPut(f: Fs, f': Fs, n: nat, e: nat, x: Ent, rec: Inode) {
    && n < |f.inodes| == |f.blocks| == |f'.blocks| && |f'.blocks[n]| == |f.blocks[n]| && e < |EntsIn(f, n)|
    && f' == f.(inodes := f.inodes[n := rec], blocks := f.blocks[n := f'.blocks[n]])
    && EntsIn(f', n) == EntsIn(f, n)[e := x]
  }

  predicate Storable(e: Ent) {
    CString(e.name) && |e.name| < FILENAME_LEN && e.ino < LIMIT32
  }

  /** Write `x` to slot `j` of block `k`, then the stamped record. */
  method PutEntry(v: Volume, n: nat, k: nat, j: nat, buf: Block, x: Ent, rec: Inode, now: nat)
    returns (err: Errno, ghost e: nat)
    requires Good(v) && DirOk(v.geo, View(v), n) && k < |View(v).blocks[n]| && buf == View(v).blocks[n][k]
      && |buf| == v.geo.blkSize
    requires j < PerBlock(v.geo.blkSize) && Storable(x) && now < LIMIT64 && rec == View(v).inodes[n]
    modifies v, v.io.Repr()
    ensures Good(v) && err == Ok && DirOk(v.geo, View(v), n) && MapsAre(v, old(v.vol).bits, old(v.led))
    ensures e == k * PerBlock(v.geo.blkSize) + j
    ensures SlotPut(old(View(v)), View(v), n, e, x, Stamp(rec, Times(false, true, true), now))
  {
    hide Good, View, FsSized, Whole, EntsOf, EntryOf, SlotBytes, PutSlot, Fits, OnDisk, Backs;
    ghost var f := View(v);
    FsWhole(v.geo, f, n);
    EntsPut(f.blocks[n], v.geo.blkSize, k, j, x);
    e := k * PerBlock(v.geo.blkSize) + j;
    err := WriteDirBlock(v, n, k, PutSlot(buf, j, x));
    StampFits(v.geo, rec, rec.size, now);
    err := PutInode(v, n, Stamp(rec, Times(false, true, true), now));
  }

  /** remove_dir_entry: the first entry in use with this name becomes a tombstone. */
  method Remove(v: Volume, n: nat, name: Block, now: nat) returns (err: Errno, ghost e: nat)
    requires Good(v) && now < LIMIT64 && (n < v.geo.inodeNum && IsDir(View(v).inodes[n]) ==> DirOk(v.geo, View(v), n))
    modifies v, v.io.Repr()
    ensures Good(v) && MapsAre(v, old(v.vol).bits, old(v.led))
    ensures name == [] || n >= v.geo.inodeNum ==> err == EINVAL
    ensures name != [] && n < v.geo.inodeNum && !IsDir(old(View(v)).inodes[n]) ==> err == ENOTDIR
    ensures name != [] && n < v.geo.inodeNum && IsDir(old(View(v)).inodes[n]) ==>
              err == if NoHit(EntsIn(old(View(v)), n), name, true) then ENOENT else Ok
    ensures err != Ok ==> View(v) == old(View(v))
    ensures err == Ok ==>
              && n < v.geo.inodeNum && DirOk(v.geo, View(v), n) && e < |EntsIn(old(View(v)), n)|
              && Hit(EntsIn(old(View(v)), n)[e], name, true) && NoHit(EntsIn(old(View(v)), n)[..e], name, true)
              && SlotPut(old(View(v)), View(v), n, e, NONE,
                Stamp(old(View(v)).inodes[n], Times(false, true, true), now))
  {
    hide Good, View, FsSized, Whole, EntsOf, EntryOf, SlotBytes, SlotPut, OnDisk, Backs;
    e := 0;
    if name == [] {
      return EINVAL, 0;
    }
    var rec;
    err, rec := GetInode(v, n);
    if err != Ok {
      return;
    }
    ghost var f := View(v);
    FsWhole(v.geo, f, n);
    if !IsDir(rec) {
      return ENOTDIR, 0;
    }
    var found, k, j, buf;
    err, found, k, j, buf := Locate(v, n, name, true);
    if !found {
      return ENOENT, 0;
    }
    err, e := PutEntry(v, n, k, j, buf, NONE, rec, now);
  }

  // ---------------------------------------------------------------- adding

  ghost predicate NoName(es: seq<Ent>, name: Block) {
    forall i :: 0 <= i < |es| ==> !(Live(es[i]) && es[i].name == name)
  }

  ghost predicate AllUsed(es: seq<Ent>) {
    forall i :: 0 <= i < |es| ==> Live(es[i])
  }

  /** One block of the first pass of add_dir_entry: a duplicate, or the first slot not in use. */
  method SurveyBlock(b: Block, name: Block) returns (dup: bool, j: nat)
    ensures dup <==> !NoName(Entries(b), name)
    ensures !dup ==> j <= PerBlock(|b|) && AllUsed(Entries(b)[..j])
    ensures !dup && j < PerBlock(|b|) ==> !Live(Entries(b)[j])
  {
    hide EntryOf, SlotBytes, Live;
    dup, j := false, PerBlock(|b|);
    var i := 0;
    while i < PerBlock(|b|)
      invariant i <= PerBlock(|b|) && j <= PerBlock(|b|) && NoName(Entries(b)[..i], name)
      invariant if j < PerBlock(|b|) then j < i && AllUsed(Entries(b)[..j]) && !Live(Entries(b)[j])
        else AllUsed(Entries(b)[..i])
    {
      var e := EntryOf(SlotBytes(b, i));
      if Live(e) && e.name == name {
        return true, j;
      }
      if j == PerBlock(|b|) && !Live(e) {
        j := i;
      }
      i := i + 1;
    }
    assert Entries(b)[..i] == Entries(b);
  }

  method SurveyBlockIn(ghost v: Volume, b: Block, name: Block) returns (dup: bool, j: nat)
    requires Good(v)
    ensures Good(v) && View(v) == old(View(v))
    ensures dup <==> !NoName(Entries(b), name)
    ensures !dup ==> j <= PerBlock(|b|) && AllUsed(Entries(b)[..j])
    ensures !dup && j < PerBlock(|b|) ==> !Live(Entries(b)[j])
  {
    hide Owned, FsOf, NoName, AllUsed;
    dup, j := SurveyBlock(b, name);
  }

  /** Slot `j` of block `k` is the first not in use. */
  ghost predicate FreeAt(blocks: seq<Block>, bs: nat, k: nat, j: nat) {
    && 0 <= k * PerBlock(bs) + j < |EntsOf(blocks)|
    && !Live(EntsOf(blocks)[k * PerBlock(bs) + j]) && AllUsed(EntsOf(blocks)[..k * PerBlock(bs) + j])
  }

  lemma FreeHere(blocks: seq<Block>, bs: nat, k: nat, j: nat)
    requires Whole(blocks, bs) && k < |blocks| && |blocks[k]| == bs && j < PerBlock(bs)
    requires AllUsed(EntsOf(blocks[..k])) && AllUsed(Entries(blocks[k])[..j]) && !Live(Entries(blocks[k])[j])
    ensures FreeAt(blocks, bs, k, j)
  {
    hide EntsOf, Live, EntryOf, SlotBytes;
    var es, a, b := EntsOf(blocks), EntsOf(blocks[..k]), Entries(blocks[k]);
    EntsLength(blocks[..k], bs);
    EntsPrefix(blocks, k);
    FreeAfter(es, a, b, j);
  }

  lemma FreeAfter(es: seq<Ent>, a: seq<Ent>, b: seq<Ent>, j: nat)
    requires a + b <= es && j < |b| && AllUsed(a) && AllUsed(b[..j]) && !Live(b[j])
    ensures !Live(es[|a| + j]) && AllUsed(es[..|a| + j])
  {
    hide Live;
    assert es[..|a| + j] == a + b[..j];
    assert es[|a| + j] == (a + b)[|a| + j];
  }

  /** The first pass of add_dir_entry over the whole directory. */
  method Survey(v: Volume, n: nat, name: Block, blocks: nat)
    returns (err: Errno, dup: bool, found: bool, k: nat, j: nat)
    requires Good(v) && DirOk(v.geo, View(v), n) && blocks == |View(v).blocks[n]|
    modifies v.io.Repr()
    ensures Good(v) && View(v) == old(View(v)) && err == Ok
    ensures dup <==> !NoName(EntsIn(View(v), n), name)
    ensures !dup && found ==>
      k < |View(v).blocks[n]| && j < PerBlock(v.geo.blkSize) && FreeAt(View(v).blocks[n], v.geo.blkSize, k, j)
    ensures !dup && !found ==> AllUsed(EntsIn(View(v), n))
  {
    hide Good, View, FsSized, Whole, EntsOf, EntryOf, SlotBytes, Live, FreeAt, OnDisk, Backs;
    ghost var f := View(v);
    FsWhole(v.geo, f, n);
    err, dup, found, k, j := Ok, false, false, 0, 0;
    var i := 0;
    NoEnts0(f.blocks[n], name);
    while i < blocks
      invariant Good(v) && View(v) == f && err == Ok && !dup && i <= blocks && NoName(EntsOf(f.blocks[n][..i]), name)
      invariant found ==> k < i && j < PerBlock(v.geo.blkSize) && FreeAt(f.blocks[n], v.geo.blkSize, k, j)
      invariant !found ==> AllUsed(EntsOf(f.blocks[n][..i]))
    {
      var buf, slot;
      err, buf := ReadDirBlock(v, n, i);
      dup, slot := SurveyBlockIn(v, buf, name);
      EntsPrefix(f.blocks[n], i);
      if dup {
        DupIn(EntsOf(f.blocks[n]), EntsOf(f.blocks[n][..i]), Entries(buf), name);
        return;
      }
      NoNameJoin(EntsOf(f.blocks[n][..i]), Entries(buf), name);
      if !found {
        if slot < PerBlock(|buf|) {
          found, k, j := true, i, slot;
          FreeHere(f.blocks[n], v.geo.blkSize, k, j);
        } else {
          assert Entries(buf)[..slot] == Entries(buf);
        }
      }
      i := i + 1;
    }
    assert f.blocks[n][..i] == f.blocks[n];
  }

  lemma NoEnts0(blocks: seq<Block>, name: Block)
    ensures NoName(EntsOf(blocks[..0]), name) && AllUsed(EntsOf(blocks[..0]))
  {
    assert blocks[..0] == [];
  }

  lemma DupIn(es: seq<Ent>, a: seq<Ent>, b: seq<Ent>, name: Block)
    requires a + b <= es && !NoName(b, name)
    ensures !NoName(es, name)
  {
    var i :| 0 <= i < |b| && Live(b[i]) && b[i].name == name;
    assert es[|a| + i] == (a + b)[|a| + i];
  }

  lemma NoNameJoin(a: seq<Ent>, b: seq<Ent>, name: Block)
    requires NoName(a, name) && NoName(b, name)
    ensures NoName(a + b, name)
  {
  }

  /** Some slot of directory `n` can be reused. */
  ghost predicate HasSlot(f: Fs, n: nat)
    requires n < |f.blocks|
  {
    !AllUsed(EntsIn(f, n))
  }

  /** Arguments add_dir_entry refuses before it reads anything. */
  predicate BadEntry(g: Geometry, name: Block, child: nat) {
    name == [] || child == 0 || child >= g.inodeNum || |name| >= FILENAME_LEN
  }

  /** What add_dir_entry returns. */
  ghost function AddErr(g: Geometry, f: Fs, n: nat, name: Block, child: nat): Errno
    requires FsSized(g, f) && PtrsPerNode(g.blkSize) > 0
  {
    if BadEntry(g, name, child) || n >= g.inodeNum then EINVAL
    else if !IsDir(f.inodes[n]) then ENOTDIR
    else if |f.blocks[n]| >= MAX_FILE_DATA_BLOCKS then EFBIG
    else if !NoName(EntsIn(f, n), name) then EEXIST
    else if HasSlot(f, n) || HasRoom(g, f, n, 1) then Ok
    else ENOSPC
  }

  /** The call takes the path that appends a block to the directory, and gets through it. */
  ghost predicate Grows(g: Geometry, f: Fs, n: nat, name: Block, child: nat)
    requires FsSized(g, f) && PtrsPerNode(g.blkSize) > 0
  {
    AddErr(g, f, n, name, child) == Ok && !HasSlot(f, n)
  }

  /** No assignment of blocks to files explains this volume. */
  ghost predicate Ownerless(g: Geometry, s: Vol) {
    forall l :: !Owned(g, s, l)
  }

  lemma OneMoreCosts(k: nat, cap: nat)
    requires cap > 0
    ensures Cost(k + 1, cap) != Cost(k, cap)
  {
    hide CeilDiv;
    CeilDivMono(k, k + 1, cap);
  }

  lemma StaleBreaks(v: Volume, n: nat, rec: Inode)
    requires Good(v) && n < v.geo.inodeNum && n < |v.vol.inodes| && v.vol.inodes[n].nr == rec.nr + 1
    ensures Ownerless(v.geo, v.vol.(inodes := v.vol.inodes[n := rec]))
  {
    hide Volume.Valid, Owned, Cost;
    OneMoreCosts(rec.nr, PtrsPerNode(v.geo.blkSize));
    var s := v.vol.(inodes := v.vol.inodes[n := rec]);
    forall l ensures !Owned(v.geo, s, l) {
      StaleRecordBreaks(v.geo, v.vol, v.led, n, rec, l);
    }
  }

  lemma NrOf(v: Volume, n: nat)
    requires Good(v) && n < v.geo.inodeNum
    ensures n < |v.vol.inodes| && v.vol.inodes[n] == View(v).inodes[n]
  {
    hide Volume.Valid, Owned, FreeCount;
  }

  /** The growing path of add_dir_entry: the record read before the allocation is written back over the one the
      allocation left, so that the directory points at a released list and counts one block too few. */
  method GrowDir(v: Volume, n: nat, name: Block, child: nat, rec: Inode, now: nat) returns (err: Errno)
    requires Good(v) && DirOk(v.geo, View(v), n) && rec == View(v).inodes[n] && now < LIMIT64
    requires Storable(Ent(name, child)) && |View(v).blocks[n]| < MAX_FILE_DATA_BLOCKS
    modifies v, v.io.Repr()
    ensures err == if old(HasRoom(v.geo, View(v), n, 1)) then Ok else ENOSPC
    ensures err != Ok ==> Good(v) && View(v) == old(View(v)) && MapsAre(v, old(v.vol).bits, old(v.led))
    ensures err == Ok ==> v.Valid() && Ownerless(v.geo, v.vol)
  {
    hide View, Volume.Valid, Owned, FsSized, Whole, Fits, PutSlot, HasRoom, FreeCount, Stale, Held, OnDisk, Backs;
    ghost var f := View(v);
    FsWhole(v.geo, f, n);
    var blk := CeilDiv(rec.size, v.geo.blkSize);
    DirSizeOk(v.geo, f, n);
    ghost var stale;
    err, stale := Extend(v, n, 1);
    if err != Ok {
      return;
    }
    GrownFile(v.geo, f, View(v), n, stale);
    err := WriteDirBlock(v, n, blk, PutSlot(Zeros(v.geo.blkSize), 0, Ent(name, child)));
    NrOf(v, n);
    var old_ := Stamp(rec.(size := rec.size + ENTRY_SIZE), Times(false, true, true), now);
    StaleBreaks(v, n, old_);
    DirGrowthFits(v.geo, rec, |f.blocks[n]|, now);
    err := v.WriteInode(n, old_);
  }

  lemma DirGrowthFits(g: Geometry, rec: Inode, k: nat, now: nat)
    requires GeoValid(g) && Fits(rec) && rec.size == k * g.blkSize && k < MAX_FILE_DATA_BLOCKS && now < LIMIT64
    ensures Fits(Stamp(rec.(size := rec.size + ENTRY_SIZE), Times(false, true, true), now))
  {
    MulMono(k, MAX_FILE_DATA_BLOCKS, g.blkSize);
  }

  /** add_dir_entry. Ownership survives unless the directory grows; then it is lost for good. */
  method Add(v: Volume, n: nat, name: Block, child: nat, now: nat) returns (err: Errno, grew: bool, ghost e: nat)
    requires Good(v) && now < LIMIT64 && CString(name)
    requires n < v.geo.inodeNum && IsDir(View(v).inodes[n]) ==> DirOk(v.geo, View(v), n)
    modifies v, v.io.Repr()
    ensures v.Valid() && err == old(AddErr(v.geo, View(v), n, name, child))
    ensures err == EINVAL
            <==> name == [] || |name| >= 28 || child == 0 || child >= v.geo.inodeNum || n >= v.geo.inodeNum
    ensures grew == old(Grows(v.geo, View(v), n, name, child))
    ensures if grew then Ownerless(v.geo, v.vol) else Good(v) && MapsAre(v, old(v.vol).bits, old(v.led))
    ensures err != Ok ==> Good(v) && View(v) == old(View(v))
    ensures err == Ok && !grew ==>
              && n < v.geo.inodeNum && DirOk(v.geo, View(v), n) && e < |EntsIn(old(View(v)), n)|
                && AllUsed(EntsIn(old(View(v)), n)[..e])
              && !Live(EntsIn(old(View(v)), n)[e]) && NoName(EntsIn(old(View(v)), n), name)
                && !BadEntry(v.geo, name, child)
              && SlotPut(old(View(v)), View(v), n, e, Ent(name, child),
                Stamp(old(View(v)).inodes[n], Times(false, true, true), now))
  {
    hide View, Volume.Valid, Owned, FsSized, Whole, EntsOf, EntryOf, SlotBytes, SlotPut, Live, HasRoom, FreeCount,
      CString, CeilDiv, OnDisk, Backs;
    e, grew := 0, false;
    if BadEntry(v.geo, name, child) {
      return EINVAL, false, 0;
    }
    var rec;
    err, rec := GetInode(v, n);
    if err != Ok {
      return;
    }
    ghost var f := View(v);
    FsWhole(v.geo, f, n);
    if !IsDir(rec) {
      return ENOTDIR, false, 0;
    }
    DirSizeOk(v.geo, f, n);
    var bs := v.geo.blkSize;
    AppendIndex(|f.blocks[n]|, bs);
    if rec.size % ENTRY_SIZE != 0 {
      err := EIO;
      return;
    }
    if rec.size / ENTRY_SIZE >= MAX_FILE_DATA_BLOCKS * PerBlock(bs) {
      return EFBIG, false, 0;
    }
    var blocks := CeilDiv(rec.size, bs);
    var dup, found, k, j;
    err, dup, found, k, j := Survey(v, n, name, blocks);
    if dup {
      return EEXIST, false, 0;
    }
    if !found {
      err := GrowDir(v, n, name, child, rec, now);
      grew := err == Ok;
      return;
    }
    ghost var es := EntsIn(f, n);
    assert es[k * PerBlock(bs) + j] in es;
    var buf;
    err, buf := ReadDirBlock(v, n, k);
    err, e := PutEntry(v, n, k, j, buf, Ent(name, child), rec, now);
  }

  lemma AppendIndex(k: nat, bs: nat)
    requires ValidBlkSize(bs)
    ensures (k * bs) % ENTRY_SIZE == 0 && PerBlock(bs) >= 16
    ensures (k * bs) / ENTRY_SIZE >= MAX_FILE_DATA_BLOCKS * PerBlock(bs) <==> k >= MAX_FILE_DATA_BLOCKS
  {
    var p := PerBlock(bs);
    assert bs == p * 32;
    assert k * bs == (k * p) * 32 by {
      MulAssoc(k, p, 32);
    }
    if k >= MAX_FILE_DATA_BLOCKS {
      MulMono(MAX_FILE_DATA_BLOCKS, k, p);
    } else {
      MulMono(k, MAX_FILE_DATA_BLOCKS, p);
    }
  }

  lemma MulAssoc(a: int, b: int, c: int)
    ensures a * (b * c) == (a * b) * c
  {
  }

  // ---------------------------------------------------------------- emptiness and `..`

  /** Nothing in it but `.` and `..`. */
  ghost predicate OnlyDots(es: seq<Ent>) {
    forall i :: 0 <= i < |es| ==> !(Live(es[i]) && !IsDots(es[i].name))
  }

  method OnlyDotsBlock(b: Block) returns (empty: bool)
    ensures empty <==> OnlyDots(Entries(b))
  {
    hide EntryOf, SlotBytes, IsDots, Live;
    var i := 0;
    while i < PerBlock(|b|)
      invariant i <= PerBlock(|b|) && OnlyDots(Entries(b)[..i])
    {
      var e := EntryOf(SlotBytes(b, i));
      if Live(e) && !IsDots(e.name) {
        return false;
      }
      i := i + 1;
    }
    assert Entries(b)[..i] == Entries(b);
    return true;
  }

  method OnlyDotsBlockIn(ghost v: Volume, b: Block) returns (empty: bool)
    requires Good(v)
    ensures Good(v) && View(v) == old(View(v))
    ensures empty <==> OnlyDots(Entries(b))
  {
    hide Owned, FsOf, OnlyDots;
    empty := OnlyDotsBlock(b);
  }

  lemma OnlyDotsJoin(a: seq<Ent>, b: seq<Ent>, es: seq<Ent>)
    requires a + b <= es
    ensures OnlyDots(a) && OnlyDots(b) ==> OnlyDots(a + b)
    ensures !OnlyDots(b) ==> !OnlyDots(es)
  {
    if !OnlyDots(b) {
      var i :| 0 <= i < |b| && Live(b[i]) && !IsDots(b[i].name);
      assert es[|a| + i] == (a + b)[|a| + i];
    }
  }

  /** is_directory_empty. */
  method IsEmpty(v: Volume, n: nat) returns (err: Errno, empty: bool)
    requires Good(v) && n < v.geo.inodeNum && (IsDir(View(v).inodes[n]) ==> DirOk(v.geo, View(v), n))
    modifies v.io.Repr()
    ensures Good(v) && View(v) == old(View(v))
    ensures err == if IsDir(View(v).inodes[n]) then Ok else ENOTDIR
    ensures err == Ok ==> (empty <==> OnlyDots(EntsIn(View(v), n)))
  {
    hide Good, View, FsSized, CeilDiv, Whole, EntsOf, Live, IsDots, OnlyDots, OnDisk, Backs;
    empty := true;
    var rec;
    err, rec := GetInode(v, n);
    ghost var f := View(v);
    FsWhole(v.geo, f, n);
    if !IsDir(rec) {
      return ENOTDIR, true;
    }
    DirSizeOk(v.geo, f, n);
    var blocks, k := CeilDiv(rec.size, v.geo.blkSize), 0;
    NoneEmpty(f.blocks[n]);
    while k < blocks
      invariant Good(v) && View(v) == f && err == Ok && k <= blocks == |f.blocks[n]| && empty
        && OnlyDots(EntsOf(f.blocks[n][..k]))
    {
      var buf;
      err, buf := ReadDirBlock(v, n, k);
      empty := OnlyDotsBlockIn(v, buf);
      EntsPrefix(f.blocks[n], k);
      OnlyDotsJoin(EntsOf(f.blocks[n][..k]), Entries(buf), EntsOf(f.blocks[n]));
      if !empty {
        return;
      }
      k := k + 1;
    }
    assert f.blocks[n][..k] == f.blocks[n];
  }

  lemma NoneEmpty(blocks: seq<Block>)
    ensures OnlyDots(EntsOf(blocks[..0]))
  {
    assert blocks[..0] == [];
  }

  /** The entries of the first block, the only ones read_dotdot_parent and rewrite_dotdot look at. */
  ghost function FirstEnts(f: Fs, n: nat): seq<Ent>
    requires n < |f.blocks|
  {
    if f.blocks[n] == [] then [] else Entries(f.blocks[n][0])
  }

  lemma FirstIsAll(f: Fs, n: nat)
    requires n < |f.blocks| && |f.blocks[n]| == 1
    ensures FirstEnts(f, n) == EntsIn(f, n)
  {
    hide EntsOf, Entries;
    EntsOne(f.blocks[n][0]);
    assert f.blocks[n] == [f.blocks[n][0]];
  }

  /** The first block of directory `n`, if it has one. */
  method ReadFirst(v: Volume, n: nat) returns (err: Errno, buf: Block)
    requires Good(v) && DirOk(v.geo, View(v), n)
    modifies v.io.Repr()
    ensures Good(v) && View(v) == old(View(v))
    ensures err == if View(v).blocks[n] == [] then EIO else Ok
    ensures err == Ok ==> buf == View(v).blocks[n][0] && |buf| == v.geo.blkSize
  {
    hide Good, View, FsSized, Flat, CeilDiv, Whole, OnDisk, Backs;
    ghost var f := View(v);
    DirSizeOk(v.geo, f, n);
    FsWhole(v.geo, f, n);
    var whole, fraction;
    err, buf, whole, fraction := ReadFileBlocks(v, n, 0, 1);
    if f.blocks[n] != [] {
      OneBlock(f.blocks[n], v.geo.blkSize, 0, buf, whole, fraction);
      BlockSize(f.blocks[n], v.geo.blkSize, 0);
    }
    if whole * v.geo.blkSize + fraction != v.geo.blkSize {
      err := EIO;
    }
  }

  /** read_dotdot_parent: the number in the first `..` of the first block. */
  method ReadDotDot(v: Volume, n: nat) returns (err: Errno, parent: nat)
    requires Good(v) && DirOk(v.geo, View(v), n)
    modifies v.io.Repr()
    ensures Good(v) && View(v) == old(View(v))
    ensures err == if NoHit(FirstEnts(View(v), n), DotDot(), true) then EIO else Ok
    ensures err == Ok ==> parent != 0 && exists j ::
              0 <= j < |FirstEnts(View(v), n)| && FirstEnts(View(v), n)[j] == Ent(DotDot(), parent)
              && NoHit(FirstEnts(View(v), n)[..j], DotDot(), true)
  {
    hide Good, View, FsSized, Whole, EntsOf, EntryOf, SlotBytes, OnDisk, Backs;
    parent := 0;
    ghost var f := View(v);
    var buf;
    err, buf := ReadFirst(v, n);
    if err != Ok {
      return;
    }
    var j := FindSlotIn(v, buf, DotDot(), true);
    if j < PerBlock(|buf|) {
      parent := EntryOf(SlotBytes(buf, j)).ino;
      assert FirstEnts(f, n)[j] == Ent(DotDot(), parent);
    } else {
      assert Entries(buf)[..j] == Entries(buf);
      err := EIO;
    }
  }

  lemma FirstSlotPut(blocks: seq<Block>, bs: nat, j: nat, ino: nat)
    requires Whole(blocks, bs) && blocks != [] && j < PerBlock(bs) && ino < LIMIT32
    ensures |blocks[0]| == bs && Entries(blocks[0]) <= EntsOf(blocks) && j < |EntsOf(blocks)|
    ensures EntsOf(blocks[0 := PutIno(blocks[0], j, ino)]) == EntsOf(blocks)[j := Ent(Entries(blocks[0])[j].name, ino)]
  {
    hide EntsOf, PutIno, EntryOf, SlotBytes, Entries;
    PutInoEntries(blocks[0], j, ino);
    EntsAt(blocks, bs, 0, PutIno(blocks[0], j, ino));
    EntsPrefix(blocks, 0);
    assert EntsOf(blocks[..0]) == [] by {
      assert blocks[..0] == [];
      EntsLength(blocks[..0], bs);
    }
  }

  /** rewrite_dotdot: that entry names another parent. */
  method RewriteDotDot(v: Volume, n: nat, parent: nat) returns (err: Errno, ghost j: nat)
    requires Good(v) && DirOk(v.geo, View(v), n) && parent < v.geo.inodeNum
    modifies v, v.io.Repr()
    ensures Good(v) && MapsAre(v, old(v.vol).bits, old(v.led))
    ensures err == if NoHit(FirstEnts(old(View(v)), n), DotDot(), true) then EIO else Ok
    ensures err != Ok ==> View(v) == old(View(v))
    ensures err == Ok ==>
              && j < |FirstEnts(old(View(v)), n)| && Hit(FirstEnts(old(View(v)), n)[j], DotDot(), true)
              && NoHit(FirstEnts(old(View(v)), n)[..j], DotDot(), true)
              && SlotPut(old(View(v)), View(v), n, j, Ent(DotDot(), parent), old(View(v)).inodes[n])
  {
    hide Good, View, FsSized, Whole, EntsOf, EntryOf, SlotBytes, PutIno, OnDisk, Backs;
    j := 0;
    ghost var f := View(v);
    FsWhole(v.geo, f, n);
    var buf;
    err, buf := ReadFirst(v, n);
    if err != Ok {
      return;
    }
    var i := FindSlotIn(v, buf, DotDot(), true);
    if i >= PerBlock(|buf|) {
      assert Entries(buf)[..i] == Entries(buf);
      return EIO, 0;
    }
    j := i;
    FirstSlotPut(f.blocks[n], v.geo.blkSize, i, parent);
    err := WriteDirBlock(v, n, 0, PutIno(buf, i, parent));
    assert f.inodes[n := f.inodes[n]] == f.inodes;
  }
}
