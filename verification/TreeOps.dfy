/** create, unlink, mkdir, rmdir and rename, once a path is resolved to a directory and a name. */
module TreeOps {
  import opened Errors
  import opened Bytes
  import opened Layout
  import opened ListNodes
  import opened Mapping
  import opened Volumes
  import opened Ownership
  import opened Accounting
  import opened FileData
  import opened FileOps
  import opened Dirents
  import opened DirOps
  import opened Namespace
  import opened TreeShape

  /** A name path resolution hands on: a C string of 1 to 27 bytes. */
  predicate LeafName(name: Block) {
    CString(name) && 0 < |name| < FILENAME_LEN
  }

  /** The volume is in order and its directory graph is the tree `t`. */
  ghost predicate Sys(v: Volume, t: Nest)
    reads v.Repr()
  {
    Good(v) && Shaped(v.geo, View(v)) && Tree(NsOf(View(v)), t)
  }

  /** The volume is lost to its invariants: no assignment of blocks to files explains it, or its graph is no tree. */
  ghost predicate Broken(v: Volume)
    reads v.Repr()
  {
    v.Valid() && (Ownerless(v.geo, v.vol) || (Good(v) && Treeless(NsOf(View(v)))))
  }

  /** A resolved parent: a directory in use. */
  ghost predicate IsParent(g: Geometry, f: Fs, p: nat) {
    p < g.inodeNum && p < |f.inodes| && IsDir(f.inodes[p])
  }

  lemma ParentIs(g: Geometry, f: Fs, t: Nest, p: nat)
    requires Shaped(g, f) && Tree(NsOf(f), t) && IsParent(g, f, p)
    ensures DirOk(g, f, p) && |f.blocks[p]| == 1 && p >= ROOT_INODE && Alive(f, p)
      && |t.parent| == |t.slot| == g.inodeNum
    ensures NsOf(f)[p] == Dir(EntsIn(f, p), f.inodes[p].links) && Tidy(EntsIn(f, p))
  {
    hide AllLead, AllPlaced, AllDotted, AllLinked, AllRooted, EntsOf, Bit, Tidy;
    ShapedDir(g, f, p);
    assert Tidy(NsOf(f)[p].ents);
  }

  /** The record mofs_create_core and mofs_mkdir_core start from. */
  function FreshRec(ftype: nat, links: nat, perm: nat, uid: nat, gid: nat, now: nat): Inode {
    Stamp(ZeroInode().(links := links, mode := ftype + perm % 512, uid := uid, gid := gid), Times(true, true, true),
      now)
  }

  /** The record of a node just made. */
  ghost predicate NewRecord(rec: Inode, mode: nat, links: nat, uid: nat, gid: nat, size: nat, now: nat) {
    rec.mode == mode && rec.links == links && rec.uid == uid && rec.gid == gid && rec.size == size && MadeAt(rec, now)
  }

  lemma FreshFits(ftype: nat, links: nat, perm: nat, uid: nat, gid: nat, now: nat)
    requires ftype <= 0x8000 && links < 0x1_0000 && uid < LIMIT32 && gid < LIMIT32 && now < LIMIT64
    ensures Fits(FreshRec(ftype, links, perm, uid, gid, now))
  {
  }

  /** No inode is left. */
  ghost predicate InodesFull(g: Geometry, f: Fs)
    requires |f.ibits| == g.inodeNum
  {
    Clear(f.ibits, ROOT_INODE + 1, g.inodeNum) == []
  }

  /** Adding one entry to directory `p` would succeed. */
  ghost predicate CanLink(g: Geometry, f: Fs, p: nat, free: nat)
    requires p < |f.blocks| && PtrsPerNode(g.blkSize) > 0
  {
    HasSlot(f, p) || HasRoom(g, f.(free := free), p, 1)
  }

  ghost function CreateErr(g: Geometry, f: Fs, p: nat, name: Block): Errno
    requires FsSized(g, f) && PtrsPerNode(g.blkSize) > 0 && p < g.inodeNum
  {
    if !NoHit(EntsIn(f, p), name, false) then EEXIST
    else if InodesFull(g, f) then ENOSPC
    else if CanLink(g, f, p, f.free) then Ok else ENOSPC
  }

  /** Inode `m` is the lowest free one past the reserved ones. */
  ghost predicate FirstFree(f: Fs, m: nat) {
    Clear(f.ibits, ROOT_INODE + 1, |f.ibits|) != [] && m == Clear(f.ibits, ROOT_INODE + 1, |f.ibits|)[0]
  }

  /** The state after a new record was written for the free inode `m`. */
  ghost predicate Began(g: Geometry, f: Fs, f': Fs, m: nat, rec: Inode) {
    && FirstFree(f, m)
    && ROOT_INODE < m < |f.ibits| == |f.inodes| == |f.blocks| == g.inodeNum && !f.ibits[m] && f.blocks[m] == []
      && f.inodes[m] == ZeroInode()
    && f' == f.(ibits := f.ibits[m := true], inodes := f.inodes[m := rec])
  }

  lemma BeganUndone(g: Geometry, f: Fs, f': Fs, m: nat, rec: Inode)
    requires Began(g, f, f', m, rec)
    ensures f'.(ibits := f'.ibits[m := false], inodes := f'.inodes[m := ZeroInode()]) == f
  {
    assert f.ibits[m := true][m := false] == f.ibits;
    assert f.inodes[m := rec][m := ZeroInode()] == f.inodes;
  }

  /** Take a free inode and write its record. */
  method Begin(v: Volume, rec: Inode) returns (err: Errno, m: nat)
    requires Good(v) && Shaped(v.geo, View(v)) && Fits(rec) && rec.head == 0 && rec.nr == 0
    modifies v, v.io.Repr()
    ensures Good(v) && MapsAre(v, old(v.vol).bits, old(v.led))
    ensures err == if InodesFull(v.geo, old(View(v))) then ENOSPC else Ok
    ensures err != Ok ==> View(v) == old(View(v))
    ensures err == Ok ==> Began(v.geo, old(View(v)), View(v), m, rec)
  {
    hide Good, View, FsSized, Clear, Fits, Bit, OnDisk, Backs;
    ghost var f := View(v);
    err, m := NewInode(v);
    if err != Ok {
      return;
    }
    assert ShapedAt(v.geo, f, m);
    err := PutInode(v, m, rec);
  }

  /** What add_dir_entry will say about directory `p` while inode `m` is being made. */
  lemma LinkErr(g: Geometry, f: Fs, f1: Fs, p: nat, name: Block, m: nat)
    requires FsSized(g, f1) && PtrsPerNode(g.blkSize) > 0 && LeafName(name) && ROOT_INODE < m < g.inodeNum
      && p < g.inodeNum
      && p < |f.blocks|
    requires IsDir(f1.inodes[p]) && f1.blocks[p] == f.blocks[p] && |f.blocks[p]| == 1 && NoName(EntsIn(f, p), name)
    ensures AddErr(g, f1, p, name, m) == if CanLink(g, f, p, f1.free) then Ok else ENOSPC
    ensures Grows(g, f1, p, name, m) <==> CanLink(g, f, p, f1.free) && !HasSlot(f, p)
  {
    hide EntsOf, Bit, NoName, AllUsed, NodesFor, CString;
  }

  /** Node `m` was made in slot `j` of directory `p`. */
  ghost predicate Created(f: Fs, f': Fs, t: Nest, t': Nest, p: nat, j: nat, name: Block, m: nat, node: Node)
    requires |f.ibits| == |f.inodes| == |f.blocks| && |f'.ibits| == |f'.inodes| == |f'.blocks|
  {
    var ns := NsOf(f);
    && p < |ns| && ROOT_INODE < m < |ns| == |t.parent| == |t.slot| && p != m && ns[m].Dead? && ns[p].Dir?
      && j < |ns[p].ents|
    && !Live(ns[p].ents[j]) && Absent(ns[p].ents, name) && name != [] && Newborn(node, m)
      && (node.Dir? ==> node.ents[1] == Ent(DotDot(), p))
    && NsOf(f') == CreateNs(ns, p, j, name, m, node) && t' == Rehang(t, m, p, j)
  }

  /** A new node keeps the tree, exactly if it is not called `.` or `..`; only the root lets such a name through. */
  lemma CreatedTree(f: Fs, f': Fs, t: Nest, t': Nest, p: nat, j: nat, name: Block, m: nat, node: Node)
    requires |f.ibits| == |f.inodes| == |f.blocks| && |f'.ibits| == |f'.inodes| == |f'.blocks|
    requires Tree(NsOf(f), t) && Created(f, f', t, t', p, j, name, m, node)
    ensures if IsDots(name) then p == ROOT_INODE && Treeless(NsOf(f')) else Tree(NsOf(f'), t')
  {
    hide GraphNode, AllLead, AllPlaced, AllLinked, AllRooted, Childless, Tidy;
    if IsDots(name) {
      assert Dotted(NsOf(f), t, -1, p);
      DotsOnlyAtRoot(NsOf(f), t, p, name);
      var ns' := NsOf(f');
      forall u ensures !Tree(ns', u) {
        DotsAtRootBreak(NsOf(f), t, j, name, m, node, u);
      }
    } else {
      CreateTree(NsOf(f), t, p, j, name, m, node);
    }
  }

  lemma DotsOnlyAtRoot(ns: Ns, t: Nest, p: nat, name: Block)
    requires Base(ns, t, -1) && p < |ns| && ns[p].Dir? && Dotted(ns, t, -1, p) && IsDots(name)
      && Absent(ns[p].ents, name)
    ensures p == ROOT_INODE
  {
    if p != ROOT_INODE {
      assert Live(ns[p].ents[0]) && Live(ns[p].ents[1]);
    }
  }

  lemma CreateDone(g: Geometry, f: Fs, f1: Fs, f2: Fs, t: Nest, p: nat, e: nat, name: Block, m: nat, rec: Inode,
                   now: nat)
    requires Shaped(g, f) && Tree(NsOf(f), t) && IsParent(g, f, p) && LeafName(name) && Began(g, f, f1, m, rec)
      && !IsDir(rec) && rec.size == 0
    requires e < |EntsIn(f1, p)| && !Live(EntsIn(f1, p)[e]) && NoName(EntsIn(f1, p), name) && g.blkSize > 0
    requires SlotPut(f1, f2, p, e, Ent(name, m), Stamp(f1.inodes[p], Times(false, true, true), now))
    ensures Shaped(g, f2) && Created(f, f2, t, Rehang(t, m, p, e), p, e, name, m, Leaf)
  {
    hide EntsOf, Bit, AllLead, AllPlaced, AllDotted, AllLinked, AllRooted, Tidy, SlotPut, CString, Live;
    ParentIs(g, f, t, p);
    assert ShapedAt(g, f1, m) by {
      CeilDivBounds(0, g.blkSize);
    }
    OneInodeNs(g, f, f1, m);
    SlotPutNs(g, f1, f2, p, e, Ent(name, m), Stamp(f1.inodes[p], Times(false, true, true), now));
    AbsentNoName(EntsIn(f, p), name);
  }

  /** All of the new state: the record of `m`, the times of `p` and its one changed block, nothing else. */
  ghost predicate NewFile(f: Fs, f': Fs, p: nat, m: nat, rec: Inode, now: nat) {
    && p < |f.inodes| && m < |f.inodes| == |f.ibits| == |f.blocks| == |f'.blocks| && p != m && FirstFree(f, m)
    && f' == Fs(f.inodes[m := rec][p := Stamp(f.inodes[p], Times(false, true, true), now)], f.ibits[m := true],
                f.blocks[p := f'.blocks[p]], f.free)
  }

  lemma NewFileDone(g: Geometry, f: Fs, f1: Fs, f2: Fs, p: nat, e: nat, x: Ent, m: nat, rec: Inode, now: nat)
    requires Began(g, f, f1, m, rec) && p < g.inodeNum && p != m
    requires SlotPut(f1, f2, p, e, x, Stamp(f1.inodes[p], Times(false, true, true), now))
    ensures NewFile(f, f2, p, m, rec, now)
  {
    hide EntsOf;
  }

  /** mofs_create_core in directory `p`. */
  method Create(v: Volume, p: nat, name: Block, perm: nat, uid: nat, gid: nat, now: nat, ghost t: Nest)
    returns (err: Errno, m: nat, grew: bool, ghost t': Nest, ghost j: nat)
    requires Sys(v, t) && IsParent(v.geo, View(v), p) && LeafName(name) && uid < LIMIT32 && gid < LIMIT32
      && now < LIMIT64
    modifies v, v.io.Repr()
    ensures v.Valid() && err == old(CreateErr(v.geo, View(v), p, name))
      && (grew <==> err == Ok && old(!HasSlot(View(v), p)))
    ensures err != Ok ==> Good(v) && View(v) == old(View(v))
    ensures !grew ==> MapsAre(v, old(v.vol).bits, old(v.led))
    ensures grew ==> Ownerless(v.geo, v.vol)
    ensures err == Ok && !grew ==>
              && Good(v) && Shaped(v.geo, View(v)) && Created(old(View(v)), View(v), t, t', p, j, name, m, Leaf)
              && NewFile(old(View(v)), View(v), p, m, FreshRec(FTYPE_REG, 1, perm, uid, gid, now), now)
    ensures err == Ok && !grew ==>
              && m < v.geo.inodeNum && NewRecord(View(v).inodes[m], 0x8000 + perm % 512, 1, uid, gid, 0, now)
              && ChangedAt(old(View(v)).inodes[p], View(v).inodes[p], now)
  {
    hide NewRecord, ChangedAt, NewFile, View, Volume.Valid, Owned, FsSized, EntsOf, Bit, TreeBut, NoName, AllUsed,
      NodesFor, CString, InodesFull, Began, SlotPut, Created, Shaped, Fits, Live, CanLink, HasSlot, NoHit, OnDisk,
      Backs;
    grew, t', j, m := false, t, 0, 0;
    ghost var f := View(v);
    ParentIs(v.geo, f, t, p);
    ghost var e;
    var ino;
    err, ino, e := Find(v, p, name);
    if err == Ok {
      NameThere(EntsIn(f, p), name, e);
      err := EEXIST;
      return;
    }
    FreshFits(FTYPE_REG, 1, perm, uid, gid, now);
    var rec := FreshRec(FTYPE_REG, 1, perm, uid, gid, now);
    err, m := Begin(v, rec);
    if err != Ok {
      return;
    }
    ghost var f1 := View(v);
    BeganKeeps(v.geo, f, f1, m, rec, p);
    MissingName(EntsIn(f, p), name);
    LinkErr(v.geo, f, f1, p, name, m);
    err, grew, j := Add(v, p, name, m, now);
    if err != Ok {
      BeganUndone(v.geo, f, f1, m, rec);
      var ignored := DropInode(v, m);
      return;
    }
    t' := Rehang(t, m, p, j);
    if !grew {
      ModeBits(perm % 512);
      CreateDone(v.geo, f, f1, View(v), t, p, j, name, m, rec, now);
      NewFileDone(v.geo, f, f1, View(v), p, j, Ent(name, m), m, rec, now);
      NewFileTimes(f, View(v), p, m, perm, uid, gid, now);
    }
  }

  lemma NewFileTimes(f: Fs, f': Fs, p: nat, m: nat, perm: nat, uid: nat, gid: nat, now: nat)
    requires NewFile(f, f', p, m, FreshRec(FTYPE_REG, 1, perm, uid, gid, now), now)
    ensures m < |f'.inodes| && NewRecord(f'.inodes[m], 0x8000 + perm % 512, 1, uid, gid, 0, now)
    ensures p < |f.inodes| == |f'.inodes| && ChangedAt(f.inodes[p], f'.inodes[p], now)
  {
    hide FirstFree;
  }

  lemma NameThere(es: seq<Ent>, name: Block, e: nat)
    requires e < |es| && es[e].name == name
    ensures !NoHit(es, name, false)
  {
    assert Hit(es[e], name, false);
  }

  lemma MissingName(es: seq<Ent>, name: Block)
    requires NoHit(es, name, false)
    ensures NoName(es, name)
  {
  }

  lemma BeganKeeps(g: Geometry, f: Fs, f1: Fs, m: nat, rec: Inode, p: nat)
    requires Shaped(g, f) && Began(g, f, f1, m, rec) && IsParent(g, f, p)
    ensures p != m && f1.inodes[p] == f.inodes[p] && f1.blocks == f.blocks && f1.free == f.free && f1.blocks[m] == []
      && ROOT_INODE < m < g.inodeNum
    ensures |f1.inodes| == |f1.blocks| == g.inodeNum
    ensures DirOk(g, f1, p)
  {
    hide Bit;
    ShapedDir(g, f, p);
  }

  // ---------------------------------------------------------------- mkdir

  /** The block write_dot_entries writes. */
  function DotsBlock(bs: nat, m: nat, p: nat): (b: Block)
    requires PerBlock(bs) >= 2
    ensures |b| == bs
  {
    PutSlot(PutSlot(Zeros(bs), 0, Ent(Dot(), m)), 1, Ent(DotDot(), p))
  }

  function DotsEnts(bs: nat, m: nat, p: nat): (es: seq<Ent>)
    requires PerBlock(bs) >= 2
    ensures |es| == PerBlock(bs)
  {
    seq(PerBlock(bs), _ => NONE)[0 := Ent(Dot(), m)][1 := Ent(DotDot(), p)]
  }

  lemma DotsBlockEnts(bs: nat, m: nat, p: nat)
    requires PerBlock(bs) >= 2 && m < LIMIT32 && p < LIMIT32
    ensures EntsOf([DotsBlock(bs, m, p)]) == DotsEnts(bs, m, p)
  {
    hide PutSlot, Entries, EntsOf;
    ZeroEntries(bs);
    PutSlotEntries(Zeros(bs), 0, Ent(Dot(), m));
    PutSlotEntries(PutSlot(Zeros(bs), 0, Ent(Dot(), m)), 1, Ent(DotDot(), p));
    EntsOne(DotsBlock(bs, m, p));
  }

  lemma DotsNewborn(bs: nat, m: nat, p: nat)
    requires PerBlock(bs) >= 2 && m > 0 && p > 0
    ensures Newborn(Dir(DotsEnts(bs, m, p), 2), m) && DotsEnts(bs, m, p)[1] == Ent(DotDot(), p)
  {
  }

  /** The new directory `m` has its block of dots. */
  ghost predicate Furnished(g: Geometry, f: Fs, f': Fs, m: nat, p: nat, rec: Inode, now: nat) {
    && PerBlock(g.blkSize) >= 2 && m < |f.inodes| == |f.ibits| == |f.blocks| && f.free >= 2
    && |f'.inodes| == |f.inodes|
    && f'.inodes[m] == Stamp(rec.(size := g.blkSize, head := f'.inodes[m].head, nr := 1), Times(false, true, true), now)
    && f' == Fs(f.inodes[m := f'.inodes[m]], f.ibits, f.blocks[m := [DotsBlock(g.blkSize, m, p)]], f.free - 2)
  }

  lemma OneNode(cap: nat)
    requires cap > 0
    ensures NodesFor(0, cap) == 0 && NodesFor(1, cap) == 1
  {
    CeilDivUnique(0, cap, 0);
    CeilDivUnique(1, cap, 1);
  }

  /** One block for the new directory, `.` and `..` in it, then the size. */
  method Furnish(v: Volume, m: nat, p: nat, rec: Inode, now: nat) returns (err: Errno)
    requires Good(v) && m < v.geo.inodeNum && p < v.geo.inodeNum && View(v).blocks[m] == [] && View(v).inodes[m] == rec
      && now < LIMIT64
    modifies v, v.io.Repr()
    ensures Good(v) && err == if old(View(v)).free >= 2 then Ok else ENOSPC
    ensures err != Ok ==> View(v) == old(View(v)) && MapsAre(v, old(v.vol).bits, old(v.led))
    ensures err == Ok ==> Furnished(v.geo, old(View(v)), View(v), m, p, rec, now) && OnlyLists(old(v.led), v.led, m)
  {
    hide Good, View, FsSized, Fits, Stale, FreeCount, NodesFor, DotsBlock, Bit, OnDisk, Backs;
    ghost var f := View(v);
    OneNode(PtrsPerNode(v.geo.blkSize));
    AppendIndex(0, v.geo.blkSize);
    FsWhole(v.geo, f, m);
    ghost var stale;
    err, stale := Extend(v, m, 1);
    if err != Ok {
      return;
    }
    ghost var f1 := View(v);
    GrownFile(v.geo, f, f1, m, stale);
    err := WriteDirBlock(v, m, 0, DotsBlock(v.geo.blkSize, m, p));
    assert f1.blocks[m][0 := DotsBlock(v.geo.blkSize, m, p)] == [DotsBlock(v.geo.blkSize, m, p)];
    var rec1;
    err, rec1 := GetInode(v, m);
    FsWhole(v.geo, View(v), m);
    StampFits(v.geo, rec1, v.geo.blkSize, now);
    err := PutInode(v, m, Stamp(rec1.(size := v.geo.blkSize), Times(false, true, true), now));
    assert f.blocks[m := f1.blocks[m]][m := [DotsBlock(v.geo.blkSize, m, p)]]
      == f.blocks[m := [DotsBlock(v.geo.blkSize, m, p)]];
  }

  /** Releasing the block and the inode of a directory under construction gives back exactly what was taken. */
  method Unfurnish(v: Volume, m: nat, p: nat, rec: Inode, now: nat, ghost f: Fs, ghost f1: Fs, ghost s: Vol,
                   ghost l: Ledger)
    requires Good(v) && Began(v.geo, f, f1, m, rec) && Furnished(v.geo, f1, View(v), m, p, rec, now)
    requires Owned(v.geo, s, l) && |s.inodes| == v.geo.inodeNum && OnlyLists(l, v.led, m) && l.ptrs[m] == []
    modifies v, v.io.Repr()
    ensures Good(v) && View(v) == f && MapsAre(v, s.bits, l)
  {
    hide Good, View, FsSized, Fits, NodesFor, DotsBlock, Bit, OnDisk, Backs, Owned;
    OneNode(PtrsPerNode(v.geo.blkSize));
    ghost var f2 := View(v);
    var ignored := Release(v, m, 0, 1);
    ReducedFile(v.geo, f2, View(v), m, 0, 1);
    ghost var f3 := View(v);
    assert f3.blocks == f.blocks by {
      assert f3.blocks[m] == [] == f.blocks[m];
    }
    ignored := DropInode(v, m);
    ListLengths(v, m);
    EmptyAgain(v.geo, s, l, v.vol, v.led, m);
    assert View(v).inodes == f.inodes;
    assert View(v).ibits == f.ibits;
  }

  ghost function MkdirErr(g: Geometry, f: Fs, p: nat, name: Block): Errno
    requires FsSized(g, f) && PtrsPerNode(g.blkSize) > 0 && p < g.inodeNum
  {
    if !NoHit(EntsIn(f, p), name, false) then EEXIST
    else if InodesFull(g, f) || f.free < 2 then ENOSPC
    else if CanLink(g, f, p, f.free - 2) then Ok else ENOSPC
  }

  /** The link count of `n` plus `delta`, in 16 bits, with the times of `mask`. */
  function Relinked(rec: Inode, delta: int, mask: Times, now: nat): Inode {
    Stamp(rec.(links := (rec.links + delta) % 0x1_0000), mask, now)
  }

  /** Read the record of `n`, change its link count, write it back: this needs no more than a mounted volume. */
  method Relink(v: Volume, n: nat, delta: int, mask: Times, now: nat) returns (err: Errno)
    requires v.Valid() && n < v.geo.inodeNum && now < LIMIT64
    modifies v, v.io.Repr()
    ensures v.Valid() && err == Ok
    ensures old(Good(v)) ==>
      Good(v)
      && View(v)
      == old(View(v)).(inodes := old(View(v)).inodes[n := Relinked(old(View(v)).inodes[n], delta, mask, now)])
    ensures old(Ownerless(v.geo, v.vol)) ==> Ownerless(v.geo, v.vol)
  {
    hide Volume.Valid, Owned, FreeCount;
    ghost var s, l := v.vol, v.led;
    VolInode(v, n);
    var rec;
    err, rec := v.ReadInode(n);
    var rec' := Relinked(rec, delta, mask, now);
    if Owned(v.geo, s, l) {
      OwnedInodeFrame(v.geo, s, l, n, rec');
    }
    err := v.WriteInode(n, rec');
    forall m | Owned(v.geo, v.vol, m) ensures Owned(v.geo, s, m) {
      OwnedInodeFrame(v.geo, v.vol, m, n, rec);
      assert v.vol.(inodes := v.vol.inodes[n := rec]) == s by {
        assert v.vol.inodes[n := rec] == s.inodes;
      }
    }
  }

  lemma VolInode(v: Volume, n: nat)
    requires v.Valid() && n < v.geo.inodeNum
    ensures n < |v.vol.inodes| && Fits(v.vol.inodes[n])
  {
  }

  /** A directory of the tree has far fewer links than 16 bits can count. */
  lemma LinksBound(g: Geometry, f: Fs, t: Nest, p: nat)
    requires FsSized(g, f) && ValidBlkSize(g.blkSize) && Shaped(g, f) && Tree(NsOf(f), t) && IsParent(g, f, p)
    ensures 2 <= f.inodes[p].links <= 2050
  {
    hide AllLead, AllPlaced, AllDotted, AllRooted, AllTidy, EntsOf, Bit, Kids;
    ParentIs(g, f, t, p);
    KidsBound(NsOf(f), t, p);
    EntsLength(f.blocks[p], g.blkSize);
    assert NsOf(f)[p].links == 2 + Kids(NsOf(f), t.parent, -1, p, |NsOf(f)|);
  }

  lemma PutTwice(ns: Ns, p: nat, i: nat, e: Ent, a: nat, b: nat)
    requires p < |ns| && ns[p].Dir? && i < |ns[p].ents|
    ensures PutNs(ns, p, i, e, a)[p := Dir(PutNs(ns, p, i, e, a)[p].ents, b)] == PutNs(ns, p, i, e, b)
  {
  }

  lemma FurnishedNs(g: Geometry, f: Fs, f1: Fs, f2: Fs, p: nat, m: nat, rec: Inode, now: nat)
    requires Shaped(g, f) && Began(g, f, f1, m, rec) && Furnished(g, f1, f2, m, p, rec, now) && IsDir(rec)
      && rec.links == 2
    requires g.inodeNum < LIMIT32 && p < g.inodeNum
    ensures Shaped(g, f2) && NsOf(f2) == NsOf(f)[m := Dir(DotsEnts(g.blkSize, m, p), 2)]
  {
    hide EntsOf, Bit, DotsBlock, DotsEnts;
    DotsBlockEnts(g.blkSize, m, p);
    OneInodeNs(g, f, f2, m);
  }

  lemma MkdirDone(g: Geometry, f: Fs, f1: Fs, f2: Fs, f3: Fs, t: Nest, p: nat, e: nat, name: Block, m: nat, rec: Inode,
                  now: nat)
    requires FsSized(g, f) && ValidBlkSize(g.blkSize) && g.inodeNum < LIMIT32
    requires Shaped(g, f) && Tree(NsOf(f), t) && IsParent(g, f, p) && LeafName(name) && Began(g, f, f1, m, rec)
      && IsDir(rec)
      && rec.links == 2
    requires Furnished(g, f1, f2, m, p, rec, now) && p != m
    requires e < |EntsIn(f2, p)| && !Live(EntsIn(f2, p)[e]) && NoName(EntsIn(f2, p), name)
    requires SlotPut(f2, f3, p, e, Ent(name, m), Stamp(f2.inodes[p], Times(false, true, true), now))
    ensures p < |f3.inodes| &&
            var f4 := f3.(inodes := f3.inodes[p := Relinked(f3.inodes[p], 1, Times(false, false, true), now)]);
            Shaped(g, f4) && Created(f, f4, t, Rehang(t, m, p, e), p, e, name, m, Dir(DotsEnts(g.blkSize, m, p), 2))
  {
    hide EntsOf, Bit, AllLead, AllPlaced, AllDotted, AllLinked, AllRooted, Tidy, CString, Live, DotsEnts, Newborn,
      DotsBlock;
    var node := Dir(DotsEnts(g.blkSize, m, p), 2);
    ParentIs(g, f, t, p);
    LinksBound(g, f, t, p);
    FurnishedNs(g, f, f1, f2, p, m, rec, now);
    SlotPutNs(g, f2, f3, p, e, Ent(name, m), Stamp(f2.inodes[p], Times(false, true, true), now));
    var f4 := f3.(inodes := f3.inodes[p := Relinked(f3.inodes[p], 1, Times(false, false, true), now)]);
    RecordNs(g, f3, f4, p, f4.inodes[p]);
    PutTwice(NsOf(f2), p, e, Ent(name, m), f.inodes[p].links, f.inodes[p].links + 1);
    AbsentNoName(EntsIn(f, p), name);
    DotsNewborn(g.blkSize, m, p);
  }

  /** All of the new state: record and block of `m`, record and one changed block of `p`, two blocks fewer free. */
  ghost predicate NewDir(g: Geometry, f: Fs, f': Fs, p: nat, m: nat, rec: Inode, now: nat) {
    && PerBlock(g.blkSize) >= 2 && p < |f.inodes| && m < |f.inodes| == |f.ibits| == |f.blocks| == |f'.blocks| && p != m
    && |f'.inodes| == |f.inodes| && f.free >= 2 && FirstFree(f, m)
    && f'.inodes[m] == Stamp(rec.(size := g.blkSize, head := f'.inodes[m].head, nr := 1), Times(false, true, true), now)
    && f'.inodes[p] == Relinked(Stamp(f.inodes[p], Times(false, true, true), now), 1, Times(false, false, true), now)
    && f' == Fs(f.inodes[m := f'.inodes[m]][p := f'.inodes[p]], f.ibits[m := true],
                f.blocks[m := [DotsBlock(g.blkSize, m, p)]][p := f'.blocks[p]], f.free - 2)
  }

  lemma NewDirDone(g: Geometry, f: Fs, f1: Fs, f2: Fs, f3: Fs, p: nat, e: nat, x: Ent, m: nat, rec: Inode, now: nat)
    requires Began(g, f, f1, m, rec) && Furnished(g, f1, f2, m, p, rec, now) && p < g.inodeNum && p != m
    requires p < |f2.inodes| && SlotPut(f2, f3, p, e, x, Stamp(f2.inodes[p], Times(false, true, true), now))
    ensures p < |f3.inodes|
    ensures NewDir(g, f, f3.(inodes := f3.inodes[p := Relinked(f3.inodes[p], 1, Times(false, false, true), now)]), p, m,
      rec, now)
  {
    hide EntsOf, DotsBlock;
    var f4 := f3.(inodes := f3.inodes[p := Relinked(f3.inodes[p], 1, Times(false, false, true), now)]);
    assert f4.inodes == f.inodes[m := f4.inodes[m]][p := f4.inodes[p]];
  }

  /** mofs_mkdir_core in directory `p`. */
  method Mkdir(v: Volume, p: nat, name: Block, perm: nat, uid: nat, gid: nat, now: nat, ghost t: Nest)
    returns (err: Errno, grew: bool, ghost m: nat, ghost t': Nest, ghost j: nat)
    requires Sys(v, t) && IsParent(v.geo, View(v), p) && LeafName(name) && uid < LIMIT32 && gid < LIMIT32
      && now < LIMIT64
    modifies v, v.io.Repr()
    ensures v.Valid() && err == old(MkdirErr(v.geo, View(v), p, name))
      && (grew <==> err == Ok && old(!HasSlot(View(v), p)))
    ensures err != Ok ==> Good(v) && View(v) == old(View(v)) && MapsAre(v, old(v.vol).bits, old(v.led))
    ensures grew ==> Ownerless(v.geo, v.vol)
    ensures err == Ok && !grew ==>
              && Good(v) && Shaped(v.geo, View(v)) && PerBlock(v.geo.blkSize) >= 2
              && Created(old(View(v)), View(v), t, t', p, j, name, m, Dir(DotsEnts(v.geo.blkSize, m, p), 2))
              && NewDir(v.geo, old(View(v)), View(v), p, m, FreshRec(FTYPE_DIR, 2, perm, uid, gid, now), now)
    ensures err == Ok && !grew ==>
              && m < v.geo.inodeNum
              && NewRecord(View(v).inodes[m], 0x4000 + perm % 512, 2, uid, gid, v.geo.blkSize, now)
              && ChangedAt(old(View(v)).inodes[p], View(v).inodes[p], now)
  {
    hide NewRecord, ChangedAt, NewDir, View, Volume.Valid, Owned, FsSized, EntsOf, Bit, TreeBut, NoName, AllUsed,
      NodesFor, CString, InodesFull, Began, SlotPut, Created, Shaped, Fits, Live, CanLink, HasSlot, NoHit, Furnished,
      Relinked, OnDisk, Backs;
    grew, t', j, m := false, t, 0, 0;
    ghost var f := View(v);
    ParentIs(v.geo, f, t, p);
    ghost var e;
    var ino;
    err, ino, e := Find(v, p, name);
    if err == Ok {
      NameThere(EntsIn(f, p), name, e);
      err := EEXIST;
      return;
    }
    FreshFits(FTYPE_DIR, 2, perm, uid, gid, now);
    var rec := FreshRec(FTYPE_DIR, 2, perm, uid, gid, now);
    var child;
    err, child := Begin(v, rec);
    if err != Ok {
      return;
    }
    m := child;
    ghost var f1, s, l := View(v), v.vol, v.led;
    BeganKeeps(v.geo, f, f1, m, rec, p);
    ListLengths(v, m);
    BeganRec(v.geo, f, f1, m, rec);
    err := Furnish(v, child, p, rec, now);
    if err != Ok {
      BeganUndone(v.geo, f, f1, m, rec);
      var ignored := DropInode(v, child);
      return;
    }
    ghost var f2 := View(v);
    FurnishedKeeps(v.geo, f1, f2, m, p, rec, now);
    MissingName(EntsIn(f, p), name);
    LinkErr(v.geo, f, f2, p, name, m);
    err, grew, j := Add(v, p, name, child, now);
    if err != Ok {
      Unfurnish(v, child, p, rec, now, f, f1, s, l);
      return;
    }
    t' := Rehang(t, m, p, j);
    if !grew {
      ModeBits(perm % 512);
      MkdirDone(v.geo, f, f1, f2, View(v), t, p, j, name, m, rec, now);
      NewDirDone(v.geo, f, f1, f2, View(v), p, j, Ent(name, m), m, rec, now);
      AppendIndex(0, v.geo.blkSize);
    }
    err := Relink(v, p, 1, Times(false, false, true), now);
    if !grew {
      NewDirTimes(v.geo, f, View(v), p, m, perm, uid, gid, now);
    }
  }

  lemma NewDirTimes(g: Geometry, f: Fs, f': Fs, p: nat, m: nat, perm: nat, uid: nat, gid: nat, now: nat)
    requires NewDir(g, f, f', p, m, FreshRec(FTYPE_DIR, 2, perm, uid, gid, now), now)
    ensures m < |f'.inodes| && NewRecord(f'.inodes[m], 0x4000 + perm % 512, 2, uid, gid, g.blkSize, now)
    ensures p < |f.inodes| == |f'.inodes| && ChangedAt(f.inodes[p], f'.inodes[p], now)
  {
    hide FirstFree;
  }

  lemma BeganRec(g: Geometry, f: Fs, f1: Fs, m: nat, rec: Inode)
    requires Began(g, f, f1, m, rec)
    ensures m < |f1.inodes| && f1.inodes[m] == rec
  {
  }

  lemma FurnishedKeeps(g: Geometry, f: Fs, f': Fs, m: nat, p: nat, rec: Inode, now: nat)
    requires Furnished(g, f, f', m, p, rec, now) && p != m && DirOk(g, f, p)
    ensures |f'.inodes| == |f'.blocks| == |f.inodes| && f'.inodes[p] == f.inodes[p] && f'.blocks[p] == f.blocks[p]
      && f'.free == f.free - 2 && DirOk(g, f', p)
  {
    hide Bit;
  }

  // ---------------------------------------------------------------- unlink and rmdir

  /** Where the entry found under a name leads. */
  lemma FoundNode(g: Geometry, f: Fs, t: Nest, p: nat, name: Block, e: nat, ino: nat)
    requires Shaped(g, f) && Tree(NsOf(f), t) && IsParent(g, f, p) && name != [] && e < |EntsIn(f, p)|
      && EntsIn(f, p)[e] == Ent(name, ino)
    ensures ino < g.inodeNum && ino >= ROOT_INODE && !NsOf(f)[ino].Dead? && Live(EntsIn(f, p)[e])
      && (NsOf(f)[ino].Dir? <==> IsDir(f.inodes[ino]))
    ensures IsDots(name) ==> NsOf(f)[ino].Dir?
    ensures !IsDots(name) ==> ino != ROOT_INODE && Placed(NsOf(f), t, ino) && t.parent[ino] == p && t.slot[ino] == e
  {
    hide EntsOf, Bit, AllLinked, AllRooted, Tidy;
    ParentIs(g, f, t, p);
    var ns, es := NsOf(f), EntsIn(f, p);
    assert Live(es[e]) by {
      TidyLive(es, e);
    }
    if IsDots(name) {
      assert Dotted(ns, t, -1, p);
      assert Placed(ns, t, p);
      DotSlot(ns, t, p, e, name);
    } else {
      assert Leads(ns, t, -1, p, e);
      assert Placed(ns, t, ino);
    }
  }

  lemma TidyLive(es: seq<Ent>, e: nat)
    requires Tidy(es) && e < |es| && es[e].name != []
    ensures Live(es[e])
  {
  }

  lemma DotSlot(ns: Ns, t: Nest, p: nat, e: nat, name: Block)
    requires Base(ns, t, -1) && p < |ns| && ns[p].Dir? && Tidy(ns[p].ents) && Dotted(ns, t, -1, p) && e < |ns[p].ents|
      && Live(ns[p].ents[e])
    requires IsDots(name) && ns[p].ents[e].name == name
    ensures p != ROOT_INODE && ns[p].ents[e].ino == if name == Dot() then p else t.parent[p]
  {
    var es := ns[p].ents;
    if p != ROOT_INODE {
      assert Live(es[0]) && Live(es[1]);
    }
  }

  /** The first slot of a name is its only slot. */
  lemma SameSlot(es: seq<Ent>, name: Block, e: nat, i: nat)
    requires Tidy(es) && name != [] && e < |es| && es[e].name == name && i < |es| && Hit(es[i], name, true)
    ensures i == e
  {
    TidyLive(es, e);
    TidyFound(es, name, i, e);
  }

  /** The blocks and the record of `m` are gone; the blocks it took are free. */
  ghost predicate Discarded(g: Geometry, f: Fs, f': Fs, m: nat) {
    && PtrsPerNode(g.blkSize) > 0 && m < |f.inodes| == |f.ibits| == |f.blocks|
    && f' == Fs(f.inodes[m := ZeroInode()], f.ibits[m := false], f.blocks[m := []],
                f.free + Cost(|f.blocks[m]|, PtrsPerNode(g.blkSize)))
  }

  /** Release all blocks of `m`, then its inode: with no block left the release needs no room for a list. */
  method Discard(v: Volume, m: nat, nr: nat) returns (err: Errno)
    requires Good(v) && ROOT_INODE < m < v.geo.inodeNum && nr == View(v).inodes[m].nr
    modifies v, v.io.Repr()
    ensures Good(v) && err == Ok && Discarded(v.geo, old(View(v)), View(v), m)
  {
    hide Good, View, FsSized, NodesFor, Fits, Bit, OnDisk, Backs;
    ghost var f := View(v);
    FsWhole(v.geo, f, m);
    OneNode(PtrsPerNode(v.geo.blkSize));
    err := Ok;
    if nr > 0 {
      err := Release(v, m, 0, nr);
      ReducedFile(v.geo, f, View(v), m, 0, nr);
    }
    if err != Ok {
      return;
    }
    err := DropInode(v, m);
    assert View(v).inodes == f.inodes[m := ZeroInode()];
    assert View(v).blocks == f.blocks[m := []];
  }

  /** All of the new state: `m` is gone, `p` has the record `rec` and one changed block. */
  ghost predicate GoneFrom(g: Geometry, f: Fs, f': Fs, p: nat, m: nat, rec: Inode) {
    && PtrsPerNode(g.blkSize) > 0 && p < |f.inodes| && m < |f.inodes| == |f.ibits| == |f.blocks| == |f'.blocks|
      && p != m
    && f' == Fs(f.inodes[p := rec][m := ZeroInode()], f.ibits[m := false], f.blocks[p := f'.blocks[p]][m := []],
                f.free + Cost(|f.blocks[m]|, PtrsPerNode(g.blkSize)))
  }

  lemma GoneTimes(g: Geometry, f: Fs, f': Fs, p: nat, m: nat, now: nat)
    requires p < |f.inodes|
    requires var rec := Stamp(f.inodes[p], Times(false, true, true), now);
             || GoneFrom(g, f, f', p, m, rec)
             || GoneFrom(g, f, f', p, m, Relinked(rec, -1, Times(false, false, true), now))
    ensures p < |f'.inodes| && ChangedAt(f.inodes[p], f'.inodes[p], now)
  {
    hide Cost;
  }

  lemma GoneDone(g: Geometry, f: Fs, f1: Fs, f2: Fs, p: nat, e: nat, m: nat, rec: Inode, rec': Inode)
    requires SlotPut(f, f1, p, e, NONE, rec) && Discarded(g, f1, f2, m) && p != m && |f.ibits| == |f.inodes|
    ensures GoneFrom(g, f, f2, p, m, rec)
    ensures p < |f2.inodes| && f2.inodes[p] == rec && GoneFrom(g, f, f2.(inodes := f2.inodes[p := rec']), p, m, rec')
  {
    hide EntsOf, Cost;
    assert f2.inodes[p := rec'] == f.inodes[p := rec'][m := ZeroInode()];
    assert f2.inodes == f.inodes[p := rec][m := ZeroInode()];
  }

  /** What the removal of `m` from `p` leaves alone. */
  ghost predicate RemoveKeeps(f: Fs, f': Fs, p: nat, m: nat) {
    && |f.inodes| == |f.ibits| == |f.blocks| == |f'.inodes| == |f'.ibits| == |f'.blocks| && p < |f.inodes|
    && SameRecord(f.inodes[p], f'.inodes[p]) && m < |f.ibits| && f'.ibits == f.ibits[m := false]
    && (forall n :: 0 <= n < |f.inodes| && n != p && n != m ==>
      f'.inodes[n] == f.inodes[n] && f'.blocks[n] == f.blocks[n])
  }

  lemma GoneKeeps(g: Geometry, f: Fs, f': Fs, p: nat, m: nat, rec: Inode)
    requires GoneFrom(g, f, f', p, m, rec) && SameRecord(f.inodes[p], rec)
    ensures RemoveKeeps(f, f', p, m)
  {
  }

  /** The file or the empty directory `m` is gone from slot `name` of directory `p`. */
  ghost predicate Removed(f: Fs, f': Fs, t: Nest, p: nat, name: Block, m: nat, dir: bool)
    requires |f.ibits| == |f.inodes| == |f.blocks| && |f'.ibits| == |f'.inodes| == |f'.blocks|
  {
    var ns := NsOf(f);
    && ROOT_INODE < m < |ns| == |t.parent| == |t.slot| && Placed(ns, t, m) && t.parent[m] == p
      && ns[p].ents[t.slot[m]].name == name
    && ns[m].Dir? == dir && !ns[m].Dead? && Childless(ns[m])
    && NsOf(f') == RemoveNs(ns, t, m) && RemoveKeeps(f, f', p, m)
  }

  /** What unlink finds under a name. */
  ghost function UnlinkErr(g: Geometry, f: Fs, p: nat, name: Block): Errno
    requires FsSized(g, f) && p < g.inodeNum
  {
    var es := EntsIn(f, p);
    if NoHit(es, name, false) then ENOENT
    else if exists i ::
        0 <= i < |es| && es[i].name == name && es[i].ino < g.inodeNum && !IsDir(f.inodes[es[i].ino]) then Ok
    else EISDIR
  }

  lemma UnlinkErrIs(g: Geometry, f: Fs, p: nat, name: Block, e: nat, ino: nat)
    requires FsSized(g, f) && p < g.inodeNum && ino < g.inodeNum && e < |EntsIn(f, p)|
      && EntsIn(f, p)[e] == Ent(name, ino)
    requires Tidy(EntsIn(f, p)) && name != []
    ensures UnlinkErr(g, f, p, name) == if IsDir(f.inodes[ino]) then EISDIR else Ok
  {
    hide EntsOf, Bit, IsDir;
    var es := EntsIn(f, p);
    NameThere(es, name, e);
    forall i | 0 <= i < |es| && es[i].name == name ensures i == e {
      TidyLive(es, e);
      TidyLive(es, i);
      TidyFound(es, name, i, e);
    }
    assert es[e].name == name && es[e].ino == ino;
  }

  lemma UnlinkDone(g: Geometry, f: Fs, f1: Fs, f2: Fs, t: Nest, p: nat, name: Block, e: nat, m: nat, now: nat)
    requires Shaped(g, f) && Tree(NsOf(f), t) && IsParent(g, f, p) && ROOT_INODE < m < g.inodeNum && !IsDir(f.inodes[m])
      && !NsOf(f)[m].Dead?
    requires Placed(NsOf(f), t, m) && t.parent[m] == p && t.slot[m] == e && e < |EntsIn(f, p)|
      && EntsIn(f, p)[e].name == name
    requires SlotPut(f, f1, p, e, NONE, Stamp(f.inodes[p], Times(false, true, true), now)) && Discarded(g, f1, f2, m)
    ensures Shaped(g, f2) && Removed(f, f2, t, p, name, m, false)
  {
    hide EntsOf, Bit, AllLinked, AllRooted, AllLead, AllPlaced, AllDotted, Tidy;
    ParentIs(g, f, t, p);
    SlotPutNs(g, f, f1, p, e, NONE, Stamp(f.inodes[p], Times(false, true, true), now));
    OneInodeNs(g, f1, f2, m);
    GoneDone(g, f, f1, f2, p, e, m, Stamp(f.inodes[p], Times(false, true, true), now), ZeroInode());
    GoneKeeps(g, f, f2, p, m, Stamp(f.inodes[p], Times(false, true, true), now));
  }

  /** mofs_unlink_core in directory `p`. */
  method Unlink(v: Volume, p: nat, name: Block, now: nat, ghost t: Nest) returns (err: Errno, ghost m: nat)
    requires Sys(v, t) && IsParent(v.geo, View(v), p) && LeafName(name) && now < LIMIT64
    modifies v, v.io.Repr()
    ensures Good(v) && err == old(UnlinkErr(v.geo, View(v), p, name))
    ensures err != Ok ==> View(v) == old(View(v))
    ensures err == Ok ==> Shaped(v.geo, View(v)) && Removed(old(View(v)), View(v), t, p, name, m, false)
    ensures err == Ok ==>
              GoneFrom(v.geo, old(View(v)), View(v), p, m, Stamp(old(View(v)).inodes[p], Times(false, true, true), now))
    ensures err == Ok ==> ChangedAt(old(View(v)).inodes[p], View(v).inodes[p], now)
  {
    hide ChangedAt, Good, View, FsSized, EntsOf, Bit, TreeBut, CString, SlotPut, Shaped, Live, NoHit, Removed,
      Discarded, GoneFrom, UnlinkErr, Tidy, IsDots, OnDisk, Backs;
    m := 0;
    ghost var f := View(v);
    ParentIs(v.geo, f, t, p);
    ghost var e;
    var ino;
    err, ino, e := Find(v, p, name);
    if err != Ok {
      UnlinkMissing(v.geo, f, p, name);
      return;
    }
    FoundNode(v.geo, f, t, p, name, e, ino);
    UnlinkErrIs(v.geo, f, p, name, e, ino);
    m := ino;
    var target;
    err, target := GetInode(v, ino);
    if IsDir(target) {
      return EISDIR, m;
    }
    ghost var i;
    HitThere(EntsIn(f, p), name, e);
    err, i := Remove(v, p, name, now);
    SameSlot(EntsIn(f, p), name, e, i);
    FsWhole(v.geo, f, ino);
    SlotPutKeeps(f, View(v), p, i, NONE, Stamp(f.inodes[p], Times(false, true, true), now), ino);
    ghost var f1 := View(v);
    err := Discard(v, ino, target.nr);
    UnlinkDone(v.geo, f, f1, View(v), t, p, name, e, m, now);
    GoneDone(v.geo, f, f1, View(v), p, e, m, Stamp(f.inodes[p], Times(false, true, true), now), ZeroInode());
    GoneTimes(v.geo, f, View(v), p, m, now);
  }

  lemma UnlinkMissing(g: Geometry, f: Fs, p: nat, name: Block)
    requires FsSized(g, f) && p < g.inodeNum && NoHit(EntsIn(f, p), name, false)
    ensures UnlinkErr(g, f, p, name) == ENOENT
  {
  }

  lemma HitThere(es: seq<Ent>, name: Block, e: nat)
    requires e < |es| && Live(es[e]) && es[e].name == name
    ensures !NoHit(es, name, true)
  {
    assert Hit(es[e], name, true);
  }

  lemma SlotPutKeeps(f: Fs, f': Fs, n: nat, e: nat, x: Ent, rec: Inode, m: nat)
    requires SlotPut(f, f', n, e, x, rec) && m != n && m < |f.inodes|
    ensures |f'.inodes| == |f.inodes| && f'.inodes[m] == f.inodes[m]
  {
  }

  ghost function RmdirOf(f: Fs, m: nat): Errno
    requires m < |f.inodes| == |f.blocks|
  {
    if !IsDir(f.inodes[m]) then ENOTDIR else if !OnlyDots(EntsIn(f, m)) then ENOTEMPTY else Ok
  }

  /** What rmdir finds under a name: the entry, then whether it is a directory and whether that is empty. */
  ghost predicate RmdirFinds(g: Geometry, f: Fs, p: nat, name: Block, err: Errno)
    requires FsSized(g, f) && p < g.inodeNum
  {
    var es := EntsIn(f, p);
    if IsDots(name) then err == EINVAL
    else if NoHit(es, name, false) then err == ENOENT
    else exists i :: 0 <= i < |es| && es[i].name == name && es[i].ino < g.inodeNum && err == RmdirOf(f, es[i].ino)
  }

  lemma RmdirFindsIt(g: Geometry, f: Fs, p: nat, name: Block, e: nat, ino: nat, err: Errno)
    requires FsSized(g, f) && p < g.inodeNum && ino < g.inodeNum && e < |EntsIn(f, p)|
      && EntsIn(f, p)[e] == Ent(name, ino)
      && !IsDots(name)
    requires err == RmdirOf(f, ino)
    ensures RmdirFinds(g, f, p, name, err)
  {
    hide EntsOf, RmdirOf;
    NameThere(EntsIn(f, p), name, e);
    assert EntsIn(f, p)[e].name == name && EntsIn(f, p)[e].ino == ino;
  }

  lemma RmdirDone(g: Geometry, f: Fs, f1: Fs, f2: Fs, t: Nest, p: nat, name: Block, e: nat, m: nat, now: nat)
    requires FsSized(g, f) && ValidBlkSize(g.blkSize)
    requires Shaped(g, f) && Tree(NsOf(f), t) && IsParent(g, f, p) && ROOT_INODE < m < g.inodeNum && IsDir(f.inodes[m])
      && p != m && Childless(NsOf(f)[m])
    requires Placed(NsOf(f), t, m) && t.parent[m] == p && t.slot[m] == e && e < |EntsIn(f, p)|
      && EntsIn(f, p)[e].name == name
    requires SlotPut(f, f1, p, e, NONE, Stamp(f.inodes[p], Times(false, true, true), now)) && Discarded(g, f1, f2, m)
    ensures p < |f2.inodes| && 2 <= f2.inodes[p].links &&
            var f3 := f2.(inodes := f2.inodes[p := Relinked(f2.inodes[p], -1, Times(false, false, true), now)]);
            Shaped(g, f3) && Removed(f, f3, t, p, name, m, true)
  {
    hide EntsOf, Bit, AllLinked, AllRooted, AllLead, AllPlaced, AllDotted, Tidy;
    ParentIs(g, f, t, p);
    ParentIs(g, f, t, m);
    LinksBound(g, f, t, p);
    var ns, links := NsOf(f), f.inodes[p].links;
    SlotPutNs(g, f, f1, p, e, NONE, Stamp(f.inodes[p], Times(false, true, true), now));
    OneInodeNs(g, f1, f2, m);
    var f3 := f2.(inodes := f2.inodes[p := Relinked(f2.inodes[p], -1, Times(false, false, true), now)]);
    RecordNs(g, f2, f3, p, f3.inodes[p]);
    assert NsOf(f3) == PutNs(ns, p, e, NONE, links - 1)[m := Dead] by {
      PutTwice(ns, p, e, NONE, links, links - 1);
    }
    GoneDone(g, f, f1, f2, p, e, m, Stamp(f.inodes[p], Times(false, true, true), now), f3.inodes[p]);
    GoneKeeps(g, f, f3, p, m, f3.inodes[p]);
  }

  /** mofs_rmdir_core in directory `p`. */
  method Rmdir(v: Volume, p: nat, name: Block, now: nat, ghost t: Nest) returns (err: Errno, ghost m: nat)
    requires Sys(v, t) && IsParent(v.geo, View(v), p) && LeafName(name) && now < LIMIT64
    modifies v, v.io.Repr()
    ensures Good(v) && RmdirFinds(v.geo, old(View(v)), p, name, err)
    ensures err != Ok ==> View(v) == old(View(v))
    ensures err == Ok ==> Shaped(v.geo, View(v)) && Removed(old(View(v)), View(v), t, p, name, m, true)
    ensures err == Ok ==>
              GoneFrom(v.geo, old(View(v)), View(v), p, m,
                       Relinked(Stamp(old(View(v)).inodes[p], Times(false, true, true), now), -1,
                         Times(false, false, true), now))
    ensures err == Ok ==> ChangedAt(old(View(v)).inodes[p], View(v).inodes[p], now)
  {
    hide ChangedAt, Good, View, FsSized, EntsOf, Bit, TreeBut, CString, SlotPut, Shaped, Live, NoHit, Removed,
      Discarded, GoneFrom, RmdirFinds, Tidy, IsDots, OnlyDots, Childless, Relinked, OnDisk, Backs;
    m := 0;
    ghost var f := View(v);
    if IsDots(name) {
      RmdirRefuses(v.geo, f, p, name);
      return EINVAL, 0;
    }
    ParentIs(v.geo, f, t, p);
    ghost var e;
    var ino;
    err, ino, e := Find(v, p, name);
    if err != Ok {
      RmdirRefuses(v.geo, f, p, name);
      return;
    }
    FoundNode(v.geo, f, t, p, name, e, ino);
    FsWhole(v.geo, f, ino);
    m := ino;
    var target;
    err, target := GetInode(v, ino);
    if !IsDir(target) {
      RmdirFindsIt(v.geo, f, p, name, e, ino, ENOTDIR);
      return ENOTDIR, m;
    }
    ShapedDir(v.geo, f, ino);
    var empty;
    err, empty := IsEmpty(v, ino);
    if !empty {
      RmdirFindsIt(v.geo, f, p, name, e, ino, ENOTEMPTY);
      return ENOTEMPTY, m;
    }
    RmdirFindsIt(v.geo, f, p, name, e, ino, Ok);
    NotOwnParent(NsOf(f), t, ino);
    EmptyChildless(v.geo, f, ino);
    ghost var i;
    HitThere(EntsIn(f, p), name, e);
    err, i := Remove(v, p, name, now);
    SameSlot(EntsIn(f, p), name, e, i);
    SlotPutKeeps(f, View(v), p, i, NONE, Stamp(f.inodes[p], Times(false, true, true), now), ino);
    ghost var f1 := View(v);
    err := Discard(v, ino, target.nr);
    RmdirDone(v.geo, f, f1, View(v), t, p, name, e, m, now);
    ghost var rec := Stamp(f.inodes[p], Times(false, true, true), now);
    GoneDone(v.geo, f, f1, View(v), p, e, m, rec, Relinked(rec, -1, Times(false, false, true), now));
    var parent;
    err, parent := GetInode(v, p);
    if parent.links == 0 {
      err := EIO;
      return;
    }
    GoodValid(v);
    err := Relink(v, p, -1, Times(false, false, true), now);
    GoneTimes(v.geo, f, View(v), p, m, now);
  }

  lemma GoodValid(v: Volume)
    requires Good(v)
    ensures v.Valid()
  {
  }

  lemma RmdirRefuses(g: Geometry, f: Fs, p: nat, name: Block)
    requires FsSized(g, f) && p < g.inodeNum
    ensures IsDots(name) ==> RmdirFinds(g, f, p, name, EINVAL)
    ensures !IsDots(name) && NoHit(EntsIn(f, p), name, false) ==> RmdirFinds(g, f, p, name, ENOENT)
  {
  }

  /** No node is its own parent: it would never reach the root. */
  lemma NotOwnParent(ns: Ns, t: Nest, m: nat)
    requires Tree(ns, t) && m < |ns| && m != ROOT_INODE && !ns[m].Dead?
    ensures t.parent[m] != m
  {
    hide AllLinked, AllLead, AllPlaced, AllDotted, AllTidy;
    assert Rooted(t.parent, -1, m);
    if t.parent[m] == m {
      OwnParent(t.parent, m);
    }
  }

  lemma {:induction false} OwnParentUp(parent: seq<nat>, m: nat, k: nat)
    requires m < |parent| && parent[m] == m && m != ROOT_INODE
    ensures !Up(parent, -1, m, k)
  {
    if k > 0 {
      OwnParentUp(parent, m, k - 1);
    }
  }

  lemma OwnParent(parent: seq<nat>, m: nat)
    requires m < |parent| && parent[m] == m && m != ROOT_INODE
    ensures !Rooted(parent, -1, m)
  {
    forall k: nat ensures !Up(parent, -1, m, k) {
      OwnParentUp(parent, m, k);
    }
  }

  lemma EmptyChildless(g: Geometry, f: Fs, m: nat)
    requires Shaped(g, f) && m < g.inodeNum && OnlyDots(EntsIn(f, m))
    ensures Childless(NsOf(f)[m])
  {
    hide EntsOf, Bit;
  }

  // ---------------------------------------------------------------- the ancestor walk

  lemma DotDotIs(g: Geometry, f: Fs, t: Nest, d: nat, j: nat, parent: nat)
    requires Shaped(g, f) && Tree(NsOf(f), t) && IsParent(g, f, d) && d != ROOT_INODE
    ensures |EntsIn(f, d)| >= 2 && EntsIn(f, d)[1] == Ent(DotDot(), t.parent[d]) && !NoHit(EntsIn(f, d), DotDot(), true)
    ensures IsParent(g, f, t.parent[d])
    ensures j < |EntsIn(f, d)| && Hit(EntsIn(f, d)[j], DotDot(), true) ==> j == 1
  {
    hide EntsOf, Bit, AllLead, AllLinked, AllRooted, Tidy;
    ParentIs(g, f, t, d);
    var ns, es := NsOf(f), EntsIn(f, d);
    assert Dotted(ns, t, -1, d);
    assert Placed(ns, t, d);
    assert Hit(es[1], DotDot(), true);
    if j < |es| && Hit(es[j], DotDot(), true) {
      SameSlot(es, DotDot(), 1, j);
    }
  }

  lemma NextUp(parent: seq<nat>, a: nat, m: nat)
    requires m < |parent| && m != ROOT_INODE && m != a
    ensures IsAncestor(parent, a, m) <==> IsAncestor(parent, a, parent[m])
  {
    if IsAncestor(parent, a, m) {
      var k: nat :| OnPath(parent, a, m, k);
      assert OnPath(parent, a, parent[m], k - 1);
    }
    if IsAncestor(parent, a, parent[m]) {
      var k: nat :| OnPath(parent, a, parent[m], k);
      assert OnPath(parent, a, m, k + 1);
    }
  }

  lemma AtRoot(parent: seq<nat>, a: nat)
    ensures IsAncestor(parent, a, ROOT_INODE) <==> a == ROOT_INODE
  {
    if a == ROOT_INODE {
      assert OnPath(parent, a, ROOT_INODE, 0);
    }
  }

  lemma StartsThere(parent: seq<nat>, a: nat)
    ensures IsAncestor(parent, a, a)
  {
    assert OnPath(parent, a, a, 0);
  }

  /** directory_is_ancestor: the walk decides descent exactly, and its guard of `inode_num` steps never ends it. */
  method IsAbove(v: Volume, a: nat, start: nat, ghost t: Nest) returns (err: Errno, found: bool)
    requires Sys(v, t) && IsParent(v.geo, View(v), start)
    modifies v.io.Repr()
    ensures Good(v) && View(v) == old(View(v)) && err == Ok
    ensures found <==> IsAncestor(t.parent, a, start)
  {
    hide Good, View, FsSized, Shaped, EntsOf, Bit, Tidy, IsAncestor, Up, NoHit, Hit, AllLead, AllLinked, AllPlaced,
      AllDotted, AllTidy, OnDisk, Backs;
    ghost var f := View(v);
    err, found := Ok, false;
    var cursor, guard := start, 0;
    StartRooted(v.geo, f, t, start);
    while guard < v.geo.inodeNum
      invariant Good(v) && View(v) == f && err == Ok && !found && guard < v.geo.inodeNum == |t.parent|
      invariant IsParent(v.geo, f, cursor) && Up(t.parent, -1, cursor, v.geo.inodeNum - 1 - guard)
      invariant IsAncestor(t.parent, a, start) <==> IsAncestor(t.parent, a, cursor)
    {
      if cursor == a {
        StartsThere(t.parent, a);
        return Ok, true;
      }
      if cursor == ROOT_INODE {
        AtRoot(t.parent, a);
        return;
      }
      ParentIs(v.geo, f, t, cursor);
      DotDotIs(v.geo, f, t, cursor, 1, 0);
      StepUp(t.parent, cursor, v.geo.inodeNum - 1 - guard);
      NextUp(t.parent, a, cursor);
      NotOwnParentAt(v.geo, f, t, cursor);
      var parent;
      err, parent := ReadDotDot(v, cursor);
      FirstIsAll(f, cursor);
      FirstDotDot(v.geo, f, t, cursor, parent);
      if parent == cursor {
        return;
      }
      cursor := parent;
      guard := guard + 1;
    }
  }

  lemma NotOwnParentAt(g: Geometry, f: Fs, t: Nest, d: nat)
    requires Shaped(g, f) && Tree(NsOf(f), t) && IsParent(g, f, d) && d != ROOT_INODE
    ensures d < |t.parent| && t.parent[d] != d
  {
    hide EntsOf, Bit, TreeBut;
    ParentIs(g, f, t, d);
    NotOwnParent(NsOf(f), t, d);
  }

  lemma FirstDotDot(g: Geometry, f: Fs, t: Nest, d: nat, parent: nat)
    requires Shaped(g, f) && Tree(NsOf(f), t) && IsParent(g, f, d) && d != ROOT_INODE && d < |t.parent| && parent != 0
    requires exists j ::
        && 0 <= j < |EntsIn(f, d)| && EntsIn(f, d)[j] == Ent(DotDot(), parent)
        && NoHit(EntsIn(f, d)[..j], DotDot(), true)
    ensures parent == t.parent[d]
  {
    hide EntsOf, Bit, TreeBut, NoHit;
    var es := EntsIn(f, d);
    var j :| 0 <= j < |es| && es[j] == Ent(DotDot(), parent) && NoHit(es[..j], DotDot(), true);
    DotDotIs(g, f, t, d, j, parent);
  }

  lemma StepUp(parent: seq<nat>, m: nat, k: nat)
    requires Up(parent, -1, m, k) && m != ROOT_INODE
    ensures k > 0 && m < |parent| && Up(parent, -1, parent[m], k - 1)
  {
  }

  lemma StartRooted(g: Geometry, f: Fs, t: Nest, d: nat)
    requires Shaped(g, f) && Tree(NsOf(f), t) && IsParent(g, f, d)
    ensures |t.parent| == g.inodeNum > ROOT_INODE && Up(t.parent, -1, d, g.inodeNum - 1)
  {
    hide EntsOf, Bit, AllLead, AllLinked, AllPlaced, AllDotted, AllTidy;
    ParentIs(g, f, t, d);
    assert Rooted(t.parent, -1, d);
    ShortChain(t.parent, d);
  }
}
