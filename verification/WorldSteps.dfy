/** What the operations on directories do to the world: create and mkdir, unlink and rmdir, rename. */
module WorldSteps {
  import opened Errors
  import opened Bytes
  import opened Layout
  import opened ListNodes
  import opened Mapping
  import opened Volumes
  import opened Accounting
  import opened FileBytes
  import opened FileData
  import opened FileOps
  import opened ByteFiles
  import opened FileRuns
  import opened Dirents
  import opened DirOps
  import opened Namespace
  import opened TreeShape
  import opened TreeOps
  import opened Worlds
  import opened Renaming
  import opened Paths

  /** A step of the world. `lost`: the volume broke its own invariants, and the world ends. */
  datatype Next = Next(world: World, err: Errno, lost: bool)

  predicate IsFolder(w: World, p: nat) {
    p < |w.items| && w.items[p].Folder?
  }

  /** Every slot of the one block of the directory is in use. */
  predicate Full(g: Geometry, w: World, p: nat)
    requires IsFolder(w, p)
  {
    |w.items[p].names| >= PerBlock(g.blkSize)
  }

  ghost function InUse(w: World): (b: seq<bool>)
    ensures |b| == |w.items| && forall n :: 0 <= n < |b| ==> b[n] == !w.items[n].Gone?
  {
    seq(|w.items|, n requires 0 <= n < |w.items| => !w.items[n].Gone?)
  }

  /** The lowest free inode number past the reserved ones, or -1. */
  ghost function FreshIno(w: World): int {
    var free := Clear(InUse(w), ROOT_INODE + 1, |w.items|);
    if free == [] then -1 else free[0]
  }

  lemma FirstGone(w: World, k: nat)
    requires ROOT_INODE < k < |w.items| && w.items[k].Gone? && forall n :: ROOT_INODE < n < k ==> !w.items[n].Gone?
    ensures FreshIno(w) == k
  {
    hide Clear;
    ClearFacts(InUse(w), ROOT_INODE + 1, |w.items|);
  }

  /** A directory with other names, and links more or fewer. */
  function Renamed(it: Item, names: map<Block, nat>, delta: int): Item
    requires it.Folder?
  {
    it.(names := names, links := if it.links + delta >= 0 then it.links + delta else 0)
  }

  // ---------------------------------------------------------------- making a node

  /** A new node `m` called `name` in directory `p`. */
  function Made(w: World, p: nat, name: Block, m: nat, dir: bool, attr: Attr): World
    requires IsFolder(w, p) && m < |w.items|
  {
    var child := if dir then Folder(attr, 2, map[Dot() := m, DotDot() := p]) else Regular(attr, 1, []);
    World(w.items[m := child][p := Renamed(w.items[p], w.items[p].names[name := m], if dir then 1 else 0)],
          w.free - if dir then 2 else 0)
  }

  ghost function MakeStep(g: Geometry, w: World, p: nat, name: Block, dir: bool, attr: Attr): Next
    requires IsFolder(w, p)
  {
    var m := FreshIno(w);
    var left := w.free - if dir then 2 else 0;
    if name in w.items[p].names then Next(w, EEXIST, false)
    else if m < 0 || left < 0 then Next(w, ENOSPC, false)
    else if Full(g, w, p) && left < 2 then Next(w, ENOSPC, false)
    else if Full(g, w, p) || IsDots(name) then Next(w, Ok, true)
    else if m >= |w.items| then Next(w, ENOSPC, false)
    else Next(Made(w, p, name, m, dir, attr), Ok, false)
  }

  lemma {:induction false} ClearSame(a: seq<bool>, b: seq<bool>, lo: nat, n: nat)
    requires n <= |a| && n <= |b| && forall i :: lo <= i < n ==> a[i] == b[i]
    ensures Clear(a, lo, n) == Clear(b, lo, n)
  {
    if n > 0 {
      ClearSame(a, b, lo, n - 1);
    }
  }

  /** The bitmap of the inodes says which numbers are in use. */
  lemma FreshIs(g: Geometry, f: Fs)
    requires Aligned(f) && |f.ibits| == g.inodeNum
    ensures InodesFull(g, f) <==> FreshIno(WorldOf(f)) < 0
    ensures forall m: nat :: FirstFree(f, m) ==> FreshIno(WorldOf(f)) == m < |f.ibits|
  {
    hide Clear, BytesOf, EntsOf, Bit, WorldOf, Names;
    var w := WorldOf(f);
    forall n | ROOT_INODE < n < |f.ibits| ensures InUse(w)[n] == f.ibits[n] {
      assert w.items[n] == ItemOf(f, n);
    }
    ClearSame(InUse(w), f.ibits, ROOT_INODE + 1, |f.ibits|);
    ClearFacts(f.ibits, ROOT_INODE + 1, |f.ibits|);
  }

  /** The slots of a directory tell whether it is full. */
  lemma FullIs(g: Geometry, f: Fs, t: Nest, p: nat)
    requires FsSized(g, f) && ValidBlkSize(g.blkSize) && PtrsPerNode(g.blkSize) > 1 && Shaped(g, f) && Tree(NsOf(f), t)
      && IsParent(g, f, p)
    ensures IsFolder(WorldOf(f), p) && (HasSlot(f, p) <==> !Full(g, WorldOf(f), p))
    ensures forall free: nat :: CanLink(g, f, p, free) <==> !Full(g, WorldOf(f), p) || free >= 2
  {
    hide EntsOf, Bit, TreeBut, ShapedAt, NameMap, Tidy, WorldOf, CeilDiv;
    FolderIs(g, f, t, p);
    ParentIs(g, f, t, p);
    NamesFull(EntsIn(f, p));
    FsWhole(g, f, p);
    EntsLength(f.blocks[p], g.blkSize);
    CeilDivUnique(2, PtrsPerNode(g.blkSize), 1);
  }

  lemma NamesIs(g: Geometry, f: Fs, t: Nest, p: nat, name: Block)
    requires Shaped(g, f) && Tree(NsOf(f), t) && IsParent(g, f, p) && name != []
    ensures IsFolder(WorldOf(f), p) && Tidy(EntsIn(f, p)) && WorldOf(f).items[p].names == NameMap(EntsIn(f, p))
    ensures name in WorldOf(f).items[p].names <==> !NoHit(EntsIn(f, p), name, false)
  {
    hide EntsOf, Bit, TreeBut, ShapedAt, NameMap, Tidy, WorldOf, NoHit;
    FolderIs(g, f, t, p);
    NameThereIff(EntsIn(f, p), name);
  }

  /** The errors of create and mkdir, told from the world. */
  lemma MakeErrIs(g: Geometry, f: Fs, t: Nest, p: nat, name: Block, attr: Attr)
    requires FsSized(g, f) && ValidBlkSize(g.blkSize) && PtrsPerNode(g.blkSize) > 1 && Shaped(g, f) && Tree(NsOf(f), t)
    requires IsParent(g, f, p) && name != []
    ensures IsFolder(WorldOf(f), p)
    ensures MakeStep(g, WorldOf(f), p, name, false, attr).err == CreateErr(g, f, p, name)
    ensures MakeStep(g, WorldOf(f), p, name, true, attr).err == MkdirErr(g, f, p, name)
    ensures MakeStep(g, WorldOf(f), p, name, false, attr).lost
            <==> CreateErr(g, f, p, name) == Ok && (!HasSlot(f, p) || IsDots(name))
    ensures MakeStep(g, WorldOf(f), p, name, true, attr).lost
            <==> MkdirErr(g, f, p, name) == Ok && (!HasSlot(f, p) || IsDots(name))
  {
    hide EntsOf, Bit, TreeBut, ShapedAt, NameMap, Tidy, WorldOf, NoHit, CanLink, HasSlot, Full, InodesFull, FreshIno,
      FsSized, IsDots;
    FreshIs(g, f);
    FullIs(g, f, t, p);
    NamesIs(g, f, t, p, name);
    FreshBelow(g, f);
  }

  lemma FreshBelow(g: Geometry, f: Fs)
    requires Aligned(f) && |f.ibits| == g.inodeNum
    ensures FreshIno(WorldOf(f)) < g.inodeNum || FreshIno(WorldOf(f)) < 0
  {
    hide Clear, WorldOf;
    ClearFacts(InUse(WorldOf(f)), ROOT_INODE + 1, |WorldOf(f).items|);
  }

  /** The new entry, as a name. */
  lemma MadeNames(es: seq<Ent>, j: nat, name: Block, m: nat)
    requires Tidy(es) && j < |es| && !Live(es[j]) && name != [] && m != 0 && Absent(es, name)
    ensures Names(es[j := Ent(name, m)]) == Names(es)[name := m]
  {
    hide NameMap, Absent;
    MapInsert(es, j, Ent(name, m));
  }

  lemma DotsNames(bs: nat, m: nat, p: nat)
    requires PerBlock(bs) >= 2 && m > 0 && p > 0
    ensures Names(DotsEnts(bs, m, p)) == map[Dot() := m, DotDot() := p]
  {
    var es := DotsEnts(bs, m, p);
    DotsNewborn(bs, m, p);
    assert es[0] in es && es[1] in es;
    assert NameMap(es) == map[Dot() := m, DotDot() := p];
  }

  lemma CreatedGraph(f: Fs, f': Fs, t: Nest, t': Nest, p: nat, j: nat, name: Block, m: nat, node: Node)
    requires Aligned(f) && Aligned(f') && Created(f, f', t, t', p, j, name, m, node)
    ensures |f'.inodes| == |f.inodes| && p < |f.inodes| && NsOf(f)[p].Dir? && j < |NsOf(f)[p].ents|
    ensures p != m && ROOT_INODE < m < |f.inodes|
    ensures NsOf(f')[m] == node
    ensures NsOf(f')[p] == Dir(NsOf(f)[p].ents[j := Ent(name, m)], NsOf(f)[p].links + if node.Dir? then 1 else 0)
    ensures forall n :: 0 <= n < |f.inodes| && n != p && n != m ==> NsOf(f')[n] == NsOf(f)[n]
    ensures !Live(NsOf(f)[p].ents[j]) && Absent(NsOf(f)[p].ents, name) && name != []
  {
    hide GraphNode, Newborn;
  }

  lemma TidyDir(ns: Ns, t: Nest, p: nat)
    requires Tree(ns, t) && p < |ns| && ns[p].Dir?
    ensures Tidy(ns[p].ents) && p >= ROOT_INODE
  {
    hide AllLead, AllPlaced, AllDotted, AllLinked, AllRooted, Tidy;
    assert Tidy(ns[p].ents);
  }

  /** mofs_create_core makes the node. */
  lemma MadeFile(f: Fs, f': Fs, t: Nest, t': Nest, p: nat, j: nat, name: Block, m: nat, rec: Inode, now: nat)
    requires Aligned(f) && Aligned(f') && Tree(NsOf(f), t) && Created(f, f', t, t', p, j, name, m, Leaf)
    requires NewFile(f, f', p, m, rec, now) && rec.links == 1 && rec.size == 0 && f.blocks[m] == []
    ensures IsFolder(WorldOf(f), p) && WorldOf(f') == Made(WorldOf(f), p, name, m, false, AttrOf(rec))
  {
    hide TreeBut, GraphNode, Created, Tidy, Absent, Live, Names, WorldOf, BytesOf;
    CreatedGraph(f, f', t, t', p, j, name, m, Leaf);
    TidyDir(NsOf(f), t, p);
    MadeNames(NsOf(f)[p].ents, j, name, m);
    var w, w' := WorldOf(f), WorldOf(f');
    assert BytesOf(f', m) == [] by {
      NoBytes(f', m);
    }
    forall n | 0 <= n < |f.inodes| && n != p && n != m ensures w'.items[n] == w.items[n] {
      SameBytes(f, f', n);
      SameItem(f, f', n);
    }
  }

  lemma NoBytes(f: Fs, n: nat)
    requires n < |f.inodes| == |f.blocks| && f.blocks[n] == []
    ensures BytesOf(f, n) == []
  {
  }

  /** mofs_mkdir_core makes the node. */
  lemma MadeDir(g: Geometry, f: Fs, f': Fs, t: Nest, t': Nest, p: nat, j: nat, name: Block, m: nat, rec: Inode,
                now: nat)
    requires Aligned(f) && Aligned(f') && Tree(NsOf(f), t) && PerBlock(g.blkSize) >= 2
    requires Created(f, f', t, t', p, j, name, m, Dir(DotsEnts(g.blkSize, m, p), 2)) && NewDir(g, f, f', p, m, rec, now)
    ensures IsFolder(WorldOf(f), p) && WorldOf(f') == Made(WorldOf(f), p, name, m, true, AttrOf(rec))
  {
    hide TreeBut, GraphNode, Created, Tidy, Absent, Live, Names, WorldOf, BytesOf, DotsEnts, DotsBlock, Relinked;
    CreatedGraph(f, f', t, t', p, j, name, m, Dir(DotsEnts(g.blkSize, m, p), 2));
    TidyDir(NsOf(f), t, p);
    MadeNames(NsOf(f)[p].ents, j, name, m);
    DotsNames(g.blkSize, m, p);
    RelinkedAttr(f.inodes[p], 1, now);
    var w, w' := WorldOf(f), WorldOf(f');
    forall n | 0 <= n < |f.inodes| && n != p && n != m ensures w'.items[n] == w.items[n] {
      SameBytes(f, f', n);
      SameItem(f, f', n);
    }
  }

  lemma RelinkedAttr(rec: Inode, delta: int, now: nat)
    ensures AttrOf(Relinked(Stamp(rec, Times(false, true, true), now), delta, Times(false, false, true), now))
      == AttrOf(rec)
    ensures AttrOf(Relinked(rec, delta, Times(false, true, true), now)) == AttrOf(rec)
  {
  }

  // ---------------------------------------------------------------- taking a node away

  /** Data blocks of a node. */
  function BlocksIn(g: Geometry, it: Item): nat
    requires g.blkSize > 0
  {
    match it
    case Gone => 0
    case Regular(_, _, bytes) => CeilDiv(|bytes|, g.blkSize)
    case Folder(_, _, _) => 1
  }

  /** Node `m`, called `name`, is gone from directory `p`. */
  function TakenAway(g: Geometry, w: World, p: nat, name: Block, m: nat): World
    requires IsFolder(w, p) && m < |w.items| && g.blkSize > 0 && PtrsPerNode(g.blkSize) > 0
  {
    var delta := if w.items[m].Folder? then -1 else 0;
    World(w.items[p := Renamed(w.items[p], w.items[p].names - {name}, delta)][m := Gone],
          w.free + Cost(BlocksIn(g, w.items[m]), PtrsPerNode(g.blkSize)))
  }

  ghost predicate Hollow(it: Item) {
    it.Folder? && forall name :: name in it.names ==> IsDots(name)
  }

  /** What stands in the way of taking node `m` away as a directory (`dir`) or a file. */
  ghost function TakeErr(w: World, m: nat, dir: bool): Errno
    requires m < |w.items|
  {
    if dir then (if !w.items[m].Folder? then ENOTDIR else if !Hollow(w.items[m]) then ENOTEMPTY else Ok)
    else if w.items[m].Folder? then EISDIR
    else Ok
  }

  ghost function RemoveStep(g: Geometry, w: World, p: nat, name: Block, dir: bool): Next
    requires IsFolder(w, p) && g.blkSize > 0 && PtrsPerNode(g.blkSize) > 0
  {
    if dir && IsDots(name) then Next(w, EINVAL, false)
    else if name !in w.items[p].names then Next(w, ENOENT, false)
    else
      var m := w.items[p].names[name];
      if m >= |w.items| then Next(w, EINVAL, false)
      else if TakeErr(w, m, dir) != Ok then Next(w, TakeErr(w, m, dir), false)
      else Next(TakenAway(g, w, p, name, m), Ok, false)
  }

  /** The node behind a name. */
  lemma NamedNode(g: Geometry, f: Fs, t: Nest, p: nat, name: Block)
    requires Shaped(g, f) && Tree(NsOf(f), t) && IsParent(g, f, p) && name != [] && IsFolder(WorldOf(f), p)
      && name in WorldOf(f).items[p].names
    ensures var m := WorldOf(f).items[p].names[name];
            && ROOT_INODE <= m < g.inodeNum && !NsOf(f)[m].Dead?
            && (exists e :: 0 <= e < |EntsIn(f, p)| && EntsIn(f, p)[e] == Ent(name, m))
            && (WorldOf(f).items[m].Folder? <==> IsDir(f.inodes[m]))
            && (!IsDots(name) ==> m != ROOT_INODE && StandsAt(f, t, m, p, name))
  {
    hide EntsOf, Bit, TreeBut, ShapedAt, NameMap, Tidy, WorldOf, NoHit, GraphNode, IsDots;
    NamesIs(g, f, t, p, name);
    NameThereIff(EntsIn(f, p), name);
    var es := EntsIn(f, p);
    var e := HitSlot(es, name);
    FoundNode(g, f, t, p, name, e, es[e].ino);
    assert es[e] == Ent(name, es[e].ino);
    FolderIs(g, f, t, es[e].ino);
    if !IsDots(name) {
      StandsThere(g, f, t, p, name, e, es[e].ino);
    }
  }

  lemma HitSlot(es: seq<Ent>, name: Block) returns (e: nat)
    requires !NoHit(es, name, false)
    ensures e < |es| && es[e].name == name
  {
    e :| 0 <= e < |es| && Hit(es[e], name, false);
  }

  /** Where a name stands there is no other node. */
  lemma NameIs(g: Geometry, f: Fs, t: Nest, p: nat, name: Block, m: nat)
    requires Shaped(g, f) && Tree(NsOf(f), t) && IsParent(g, f, p) && name != [] && StandsAt(f, t, m, p, name)
    ensures IsFolder(WorldOf(f), p) && name in WorldOf(f).items[p].names && WorldOf(f).items[p].names[name] == m
  {
    hide EntsOf, Bit, TreeBut, ShapedAt, NameMap, Tidy, WorldOf, NoHit;
    NamesIs(g, f, t, p, name);
    NameThereIff(EntsIn(f, p), name);
    ParentIs(g, f, t, p);
    NameThere(EntsIn(f, p), name, t.slot[m]);
  }

  lemma HollowIs(g: Geometry, f: Fs, t: Nest, m: nat)
    requires Shaped(g, f) && Tree(NsOf(f), t) && m < g.inodeNum && IsDir(f.inodes[m])
    ensures Hollow(WorldOf(f).items[m]) <==> OnlyDots(EntsIn(f, m))
  {
    hide EntsOf, Bit, TreeBut, ShapedAt, NameMap, Tidy, WorldOf, OnlyDots, IsDots;
    FolderIs(g, f, t, m);
    OnlyDotsNames(EntsIn(f, m));
  }

  /** The errors of unlink and rmdir, told from the world. */
  lemma RemoveErrIs(g: Geometry, f: Fs, t: Nest, p: nat, name: Block)
    requires FsSized(g, f) && g.blkSize > 0 && PtrsPerNode(g.blkSize) > 0 && Shaped(g, f) && Tree(NsOf(f), t)
    requires IsParent(g, f, p) && name != []
    ensures IsFolder(WorldOf(f), p)
    ensures RemoveStep(g, WorldOf(f), p, name, false).err == UnlinkErr(g, f, p, name)
    ensures forall err :: RmdirFinds(g, f, p, name, err) ==> RemoveStep(g, WorldOf(f), p, name, true).err == err
  {
    hide EntsOf, Bit, TreeBut, ShapedAt, NameMap, Tidy, WorldOf, NoHit, FsSized, IsDots, Hollow, OnlyDots, StandsAt,
      GraphNode, TakenAway;
    var w := WorldOf(f);
    NamesIs(g, f, t, p, name);
    if name in w.items[p].names {
      NamedNode(g, f, t, p, name);
      var m := w.items[p].names[name];
      var e :| 0 <= e < |EntsIn(f, p)| && EntsIn(f, p)[e] == Ent(name, m);
      UnlinkErrIs(g, f, p, name, e, m);
      if IsDir(f.inodes[m]) {
        HollowIs(g, f, t, m);
      }
      forall i | 0 <= i < |EntsIn(f, p)| && EntsIn(f, p)[i].name == name ensures EntsIn(f, p)[i].ino == m {
        NameThereIff(EntsIn(f, p), name);
      }
    }
  }

  lemma RemovedGraph(f: Fs, f': Fs, t: Nest, p: nat, name: Block, m: nat, dir: bool)
    requires Aligned(f) && Aligned(f') && Tree(NsOf(f), t) && Removed(f, f', t, p, name, m, dir)
    ensures |f'.inodes| == |f.inodes| && p < |f.inodes| && m < |f.inodes| == |t.slot| && p != m
    ensures NsOf(f)[p].Dir? && NsOf(f')[m].Dead?
    ensures var i, links := t.slot[m], NsOf(f)[p].links;
            && i < |NsOf(f)[p].ents| && Live(NsOf(f)[p].ents[i]) && NsOf(f)[p].ents[i].name == name
            && NsOf(f')[p] == Dir(NsOf(f)[p].ents[i := NONE], if dir && links > 0 then links - 1 else links)
    ensures forall n :: 0 <= n < |f.inodes| && n != p && n != m ==> NsOf(f')[n] == NsOf(f)[n]
    ensures NsOf(f)[m].Dir? == dir && !NsOf(f)[m].Dead?
  {
    hide GraphNode, TreeBut, Childless, RemoveKeeps;
    NotOwnParent(NsOf(f), t, m);
  }

  lemma LostName(es: seq<Ent>, i: nat)
    requires Tidy(es) && i < |es| && Live(es[i])
    ensures Names(es[i := NONE]) == Names(es) - {es[i].name}
  {
    hide NameMap;
    MapDelete(es, i);
  }

  /** The blocks of a node, told from the world. */
  lemma BlocksIs(g: Geometry, f: Fs, n: nat)
    requires FsSized(g, f) && ValidBlkSize(g.blkSize) && Shaped(g, f) && n < g.inodeNum
    ensures BlocksIn(g, WorldOf(f).items[n]) == |f.blocks[n]|
  {
    hide EntsOf, Bit, CeilDiv, WorldOf, Names, BytesOf, FsSized;
    assert ShapedAt(g, f, n);
    assert WorldOf(f).items[n] == ItemOf(f, n);
    if NsOf(f)[n].Leaf? {
      BytesLength(g, f, n);
    }
  }

  /** mofs_unlink_core and mofs_rmdir_core take the node away. */
  lemma TookAway(g: Geometry, f: Fs, f': Fs, t: Nest, p: nat, name: Block, m: nat, dir: bool, rec: Inode)
    requires FsSized(g, f) && ValidBlkSize(g.blkSize) && PtrsPerNode(g.blkSize) > 0 && Shaped(g, f) && Aligned(f')
    requires Tree(NsOf(f), t) && Removed(f, f', t, p, name, m, dir) && GoneFrom(g, f, f', p, m, rec)
      && AttrOf(rec) == AttrOf(f.inodes[p])
    ensures IsFolder(WorldOf(f), p) && m < |f.inodes| && WorldOf(f') == TakenAway(g, WorldOf(f), p, name, m)
  {
    hide TreeBut, GraphNode, Removed, Tidy, Live, Names, WorldOf, BytesOf, Cost, BlocksIn, FsSized, ShapedAt;
    RemovedGraph(f, f', t, p, name, m, dir);
    TidyDir(NsOf(f), t, p);
    LostName(NsOf(f)[p].ents, t.slot[m]);
    BlocksIs(g, f, m);
    var w, w' := WorldOf(f), WorldOf(f');
    forall n | 0 <= n < |f.inodes| && n != p && n != m ensures w'.items[n] == w.items[n] {
      SameBytes(f, f', n);
      SameItem(f, f', n);
    }
  }

  // ---------------------------------------------------------------- moving a node

  /** Node `m` moves from `was` in `p` to `name` in `q`. */
  function Shifting(w: World, p: nat, was: Block, q: nat, name: Block, m: nat): World
    requires IsFolder(w, p) && IsFolder(w, q) && m < |w.items| && m != p && m != q
  {
    var dir := w.items[m].Folder?;
    var a := w.items[p := Renamed(w.items[p], w.items[p].names - {was}, if dir then -1 else 0)];
    var b := a[q := Renamed(a[q], a[q].names[name := m], if dir then 1 else 0)];
    World(if dir then b[m := Renamed(b[m], b[m].names[DotDot() := q], 0)] else b, w.free)
  }

  /** The parent every directory names. */
  ghost function ParentsIn(w: World): (q: seq<nat>)
    ensures |q| == |w.items|
    ensures forall n :: 0 <= n < |q| && w.items[n].Folder? && DotDot() in w.items[n].names ==>
      q[n] == w.items[n].names[DotDot()]
  {
    seq(|w.items|, n requires 0 <= n < |w.items| =>
      if w.items[n].Folder? && DotDot() in w.items[n].names then w.items[n].names[DotDot()] else 0)
  }

  /** Node `m` lies above directory `q`, or is it. */
  ghost predicate Above(w: World, m: nat, q: nat) {
    IsAncestor(ParentsIn(w), m, q)
  }

  ghost function RenameStep(g: Geometry, w: World, p: nat, was: Block, q: nat, name: Block): Next
    requires IsFolder(w, p) && IsFolder(w, q) && g.blkSize > 0 && PtrsPerNode(g.blkSize) > 0
  {
    if was !in w.items[p].names then Next(w, ENOENT, false)
    else if IsDots(was) || IsDots(name) || w.items[p].names[was] >= |w.items| then Next(w, EINVAL, false)
    else
      var m, taken := w.items[p].names[was], name in w.items[q].names;
      var d := if taken then w.items[q].names[name] else m;
      if d >= |w.items| then Next(w, EINVAL, false)
      else if taken && d == m then Next(w, Ok, false)
      else if taken && TakeErr(w, d, w.items[m].Folder?) != Ok then Next(w, TakeErr(w, d, w.items[m].Folder?), false)
      else
        var w1 := if taken then TakenAway(g, w, q, name, d) else w;
        if Above(w, m, q) then Next(w1, EINVAL, false)
        else if !taken && q != p && Full(g, w, q) then Next(w, if w.free >= 2 then Ok else ENOSPC, w.free >= 2)
        else if IsFolder(w1, p) && IsFolder(w1, q) && m != p
          && m != q then Next(Shifting(w1, p, was, q, name, m), Ok, false)
        else Next(w, EINVAL, false)
  }

  lemma ParentIn(g: Geometry, f: Fs, t: Nest, d: nat)
    requires Shaped(g, f) && Tree(NsOf(f), t) && IsParent(g, f, d) && d != ROOT_INODE
    ensures d < |t.parent| && ParentsIn(WorldOf(f))[d] == t.parent[d] && IsParent(g, f, t.parent[d])
    ensures IsFolder(WorldOf(f), d) && DotDot() in WorldOf(f).items[d].names
      && WorldOf(f).items[d].names[DotDot()] == t.parent[d]
  {
    hide EntsOf, Bit, TreeBut, ShapedAt, NameMap, Tidy, WorldOf, NoHit, GraphNode;
    ParentIs(g, f, t, d);
    DotDotIs(g, f, t, d, 1, 0);
    NamesIs(g, f, t, d, DotDot());
    NameThereIff(EntsIn(f, d), DotDot());
    NameThere(EntsIn(f, d), DotDot(), 1);
  }

  lemma {:induction false} PathIs(g: Geometry, f: Fs, t: Nest, m: nat, q: nat, k: nat)
    requires Shaped(g, f) && Tree(NsOf(f), t) && IsParent(g, f, q)
    ensures OnPath(t.parent, m, q, k) <==> OnPath(ParentsIn(WorldOf(f)), m, q, k)
    decreases k
  {
    hide Bit, TreeBut, ShapedAt, WorldOf, ParentsIn, GraphNode;
    if q != ROOT_INODE && k > 0 {
      ParentIn(g, f, t, q);
      PathIs(g, f, t, m, t.parent[q], k - 1);
    }
  }

  /** The parents directories name decide descent. */
  lemma AboveIs(g: Geometry, f: Fs, t: Nest, m: nat, q: nat)
    requires Shaped(g, f) && Tree(NsOf(f), t) && IsParent(g, f, q)
    ensures Above(WorldOf(f), m, q) <==> IsAncestor(t.parent, m, q)
  {
    hide Bit, TreeBut, ShapedAt, WorldOf, ParentsIn, GraphNode, OnPath;
    forall k: nat ensures OnPath(t.parent, m, q, k) <==> OnPath(ParentsIn(WorldOf(f)), m, q, k) {
      PathIs(g, f, t, m, q, k);
    }
  }

  lemma NotHollow(w: World, p: nat, name: Block)
    requires IsFolder(w, p) && name in w.items[p].names && !IsDots(name)
    ensures !Hollow(w.items[p])
  {
  }

  /** The errors of rename, told from the world. */
  lemma RenameErrIs(g: Geometry, f: Fs, t: Nest, p: nat, was: Block, q: nat, name: Block, m: nat, d: nat, err: Errno)
    requires FsSized(g, f) && ValidBlkSize(g.blkSize) && PtrsPerNode(g.blkSize) > 1 && Shaped(g, f) && Tree(NsOf(f), t)
    requires IsParent(g, f, p) && IsParent(g, f, q) && was != [] && name != []
      && RenameVerdict(g, f, t, p, was, q, name, m, d, err)
    ensures IsFolder(WorldOf(f), p) && IsFolder(WorldOf(f), q) && RenameStep(g, WorldOf(f), p, was, q, name).err == err
    ensures !NoHit(EntsIn(f, p), was, false) && !IsDots(was) && !IsDots(name) ==>
              var w, taken := WorldOf(f), !NoHit(EntsIn(f, q), name, false);
              && was in w.items[p].names && w.items[p].names[was] == m < |w.items|
              && (taken <==> name in w.items[q].names) && (taken ==> w.items[q].names[name] == d < |w.items|)
              && m != p && (!Above(w, m, q) ==> m != q)
              && (taken ==> TakeErr(w, d, w.items[m].Folder?) == ReplaceErr(f, IsDir(f.inodes[m]), d))
              && (w.items[m].Folder? <==> IsDir(f.inodes[m])) && (taken ==> d != q)
              && (taken && TakeErr(w, d, w.items[m].Folder?) == Ok ==> d != p)
              && (Above(w, m, q) <==> IsAncestor(t.parent, m, q))
              && (Full(g, w, q) <==> !HasSlot(f, q))
  {
    hide EntsOf, Bit, TreeBut, ShapedAt, NameMap, Tidy, WorldOf, NoHit, FsSized, IsDots, Hollow, OnlyDots, GraphNode,
      TakenAway, Shifting, Full, HasSlot, CanLink, Above, IsAncestor, Placed;
    var w := WorldOf(f);
    NamesIs(g, f, t, p, was);
    NamesIs(g, f, t, q, name);
    if !NoHit(EntsIn(f, p), was, false) && !IsDots(was) && !IsDots(name) {
      var taken := !NoHit(EntsIn(f, q), name, false);
      NameIs(g, f, t, p, was, m);
      NotOwnParent(NsOf(f), t, m);
      AboveIs(g, f, t, m, q);
      StartsThere(t.parent, m);
      FullIs(g, f, t, q);
      FolderIs(g, f, t, m);
      NotHollow(w, p, was);
      if taken {
        NameIs(g, f, t, q, name, d);
        NotOwnParent(NsOf(f), t, d);
        FolderIs(g, f, t, d);
        if IsDir(f.inodes[d]) {
          HollowIs(g, f, t, d);
        }
        TakenKeeps(g, w, q, name, d, p);
      }
    }
  }

  lemma TakenKeeps(g: Geometry, w: World, q: nat, name: Block, d: nat, p: nat)
    requires IsFolder(w, p) && IsFolder(w, q) && d < |w.items| && g.blkSize > 0 && PtrsPerNode(g.blkSize) > 0
    ensures |TakenAway(g, w, q, name, d).items| == |w.items|
    ensures d != q ==> IsFolder(TakenAway(g, w, q, name, d), q)
    ensures d != p ==> IsFolder(TakenAway(g, w, q, name, d), p)
  {
  }

  lemma MovedGraph(f: Fs, f': Fs, t: Nest, t': Nest, m: nat, q: nat, j: nat, name: Block)
    requires Aligned(f) && Aligned(f') && Tree(NsOf(f), t) && Moved(f, f', t, t', m, q, j, name)
    ensures |f'.inodes| == |f.inodes| == |t.parent| == |t.slot| && m < |f.inodes| && q < |f.inodes| && m != q
    ensures var ns, p, i := NsOf(f), t.parent[m], t.slot[m];
            && p < |ns| && p != m && ns[p].Dir? && ns[q].Dir? && i < |ns[p].ents| && Live(ns[p].ents[i])
              && j < |ns[q].ents|
            && !ns[m].Dead?
              && (ns[m].Dir? ==> |ns[m].ents| >= 2 && ns[m].ents[1].name == DotDot() && Live(ns[m].ents[1]))
            && var a := PutNs(ns, p, i, NONE, Less(ns, m, p));
            && !Live(a[q].ents[j]) && Absent(a[q].ents, name) && name != []
            && NsOf(f') == Redot(PutNs(a, q, j, Ent(name, m), More(a, m, q)), m, q)
  {
    hide GraphNode, AllLead, AllPlaced, AllLinked, AllRooted, AllTidy, Absent, Tidy, MoveKeeps;
    NotOwnParent(NsOf(f), t, m);
    if NsOf(f)[m].Dir? {
      assert Dotted(NsOf(f), t, -1, m);
    }
  }

  lemma RedotNames(es: seq<Ent>, q: nat)
    requires Tidy(es) && |es| >= 2 && es[1].name == DotDot() && Live(es[1]) && q != 0
    ensures Names(es[1 := Ent(DotDot(), q)]) == Names(es)[DotDot() := q]
  {
    hide NameMap;
    var gone, back := es[1 := NONE], es[1 := Ent(DotDot(), q)];
    MapDelete(es, 1);
    assert Absent(gone, DotDot());
    assert gone[1 := Ent(DotDot(), q)] == back;
    MapInsert(gone, 1, Ent(DotDot(), q));
  }

  /** One directory of a move: the old name goes, the new one comes. */
  lemma MovedNames(es: seq<Ent>, i: nat, j: nat, name: Block, m: nat)
    requires Tidy(es) && i < |es| && Live(es[i]) && j < |es| && m != 0 && name != []
    requires !Live(es[i := NONE][j]) && Absent(es[i := NONE], name)
    ensures Names(es[i := NONE][j := Ent(name, m)]) == (Names(es) - {es[i].name})[name := m]
  {
    hide NameMap, Absent;
    MapDelete(es, i);
    MapInsert(es[i := NONE], j, Ent(name, m));
  }

  /** The two directories and a directory that moves are as `s` says, a file that moves is still one. */
  ghost predicate ItemsAre(f: Fs, f': Fs, s: World, p: nat, q: nat, m: nat) {
    && Aligned(f) && Aligned(f') && |f.inodes| == |f'.inodes| == |s.items| && p < |s.items| && q < |s.items|
      && m < |s.items|
    && ItemOf(f', p) == s.items[p] && ItemOf(f', q) == s.items[q]
    && (NsOf(f)[m].Dir? ==> ItemOf(f', m) == s.items[m])
    && (NsOf(f)[m].Leaf? ==> NsOf(f')[m].Leaf?) && !NsOf(f)[m].Dead?
    && forall n :: 0 <= n < |f.inodes| && n != p && n != q && n != m ==> NsOf(f')[n] == NsOf(f)[n]
  }

  /** What a move makes of the two directories and of the node itself. */
  lemma MovedItems(f: Fs, f': Fs, t: Nest, t': Nest, m: nat, p: nat, was: Block, q: nat, j: nat, name: Block)
    requires Aligned(f) && Aligned(f') && Tree(NsOf(f), t) && StandsAt(f, t, m, p, was)
      && Moved(f, f', t, t', m, q, j, name)
    ensures |f'.inodes| == |f.inodes| && IsFolder(WorldOf(f), p) && IsFolder(WorldOf(f), q) && m < |f.inodes|
    ensures m != p && m != q
    ensures ItemsAre(f, f', Shifting(WorldOf(f), p, was, q, name, m), p, q, m)
  {
    hide TreeBut, GraphNode, Tidy, Live, Names, WorldOf, BytesOf, Absent, Placed, CanHang, MoveNs, SameRecord;
    MovedGraph(f, f', t, t', m, q, j, name);
    TidyDir(NsOf(f), t, p);
    TidyDir(NsOf(f), t, q);
    var ns, i := NsOf(f), t.slot[m];
    assert AttrOf(f'.inodes[p]) == AttrOf(f.inodes[p]) && AttrOf(f'.inodes[q]) == AttrOf(f.inodes[q])
      && AttrOf(f'.inodes[m]) == AttrOf(f.inodes[m]) by {
      SameAttr(f.inodes[p], f'.inodes[p]);
      SameAttr(f.inodes[q], f'.inodes[q]);
      SameAttr(f.inodes[m], f'.inodes[m]);
    }
    if p == q {
      MovedNames(ns[p].ents, i, j, name, m);
    } else {
      LostName(ns[p].ents, i);
      MadeNames(ns[q].ents, j, name, m);
    }
    if ns[m].Dir? {
      TidyDir(ns, t, m);
      RedotNames(ns[m].ents, q);
    }
  }

  lemma SameAttr(a: Inode, b: Inode)
    requires SameRecord(a, b)
    ensures AttrOf(b) == AttrOf(a) && b.size == a.size
  {
  }

  /** The end of mofs_rename_core moves the node. */
  lemma MovedWorld(g: Geometry, f: Fs, f': Fs, t: Nest, t': Nest, m: nat, p: nat, was: Block, q: nat, j: nat,
                   name: Block)
    requires Shaped(g, f) && Aligned(f') && Tree(NsOf(f), t) && StandsAt(f, t, m, p, was)
      && Moved(f, f', t, t', m, q, j, name)
    ensures IsFolder(WorldOf(f), p) && IsFolder(WorldOf(f), q) && m < |f.inodes| && m != p && m != q
    ensures WorldOf(f') == Shifting(WorldOf(f), p, was, q, name, m)
  {
    hide TreeBut, GraphNode, Tidy, Live, Names, WorldOf, BytesOf, Absent, CanHang, MoveNs, SameRecord, ItemOf, ShapedAt,
      Placed;
    MovedItems(f, f', t, t', m, p, was, q, j, name);
    var w, w', s := WorldOf(f), WorldOf(f'), Shifting(WorldOf(f), p, was, q, name, m);
    forall n | 0 <= n < |f.inodes| ensures w'.items[n] == s.items[n] {
      SameAttr(f.inodes[n], f'.inodes[n]);
      if n != p && n != q && n != m {
        SameBytes(f, f', n);
        SameItem(f, f', n);
      } else if n == m && NsOf(f)[m].Leaf? {
        LeafIsFile(f, m);
        SameBytes(f, f', m);
        SameItem(f, f', m);
        LeafItem(f, m);
      }
    }
  }

  lemma LeafIsFile(f: Fs, m: nat)
    requires Aligned(f) && m < |f.inodes| && NsOf(f)[m].Leaf?
    ensures !IsDir(f.inodes[m])
  {
    hide Bit;
  }

  lemma LeafItem(f: Fs, m: nat)
    requires Aligned(f) && m < |f.inodes| && NsOf(f)[m].Leaf?
    ensures WorldOf(f).items[m].Regular?
  {
    hide GraphNode, BytesOf;
  }

  /** A move back to the old name is none. */
  lemma MovedBack(g: Geometry, f: Fs, t: Nest, m: nat, p: nat, was: Block)
    requires FsSized(g, f) && ValidBlkSize(g.blkSize) && Shaped(g, f) && Tree(NsOf(f), t) && IsParent(g, f, p)
      && was != []
      && StandsAt(f, t, m, p, was)
    ensures IsFolder(WorldOf(f), p) && m < |f.inodes| && m != p
    ensures Shifting(WorldOf(f), p, was, p, was, m) == WorldOf(f)
  {
    hide EntsOf, Bit, TreeBut, ShapedAt, NameMap, Tidy, WorldOf, NoHit, GraphNode, FsSized, Placed;
    var w := WorldOf(f);
    NotOwnParent(NsOf(f), t, m);
    NameIs(g, f, t, p, was, m);
    LinksBound(g, f, t, p);
    FolderIs(g, f, t, p);
    FolderIs(g, f, t, m);
    assert (w.items[p].names - {was})[was := m] == w.items[p].names;
    if w.items[m].Folder? {
      ParentIn(g, f, t, m);
      assert w.items[m].names[DotDot() := p] == w.items[m].names;
    }
    assert Shifting(w, p, was, p, was, m).items == w.items;
  }

  /** mofs_rename_core is the step of the world, whichever way it ends. */
  lemma RenameRefines(g: Geometry, f: Fs, f1: Fs, f': Fs, t: Nest, t': Nest, p: nat, was: Block, q: nat, name: Block,
                      m: nat, d: nat, j: nat, err: Errno)
    requires FsSized(g, f) && ValidBlkSize(g.blkSize) && PtrsPerNode(g.blkSize) > 1 && Shaped(g, f) && Tree(NsOf(f), t)
    requires IsParent(g, f, p) && IsParent(g, f, q) && was != [] && name != [] && Aligned(f')
    requires RenameVerdict(g, f, t, p, was, q, name, m, d, err) && !(err == Ok && RenameGrows(f, p, was, q, name))
    requires RenameOutcome(g, f, f1, f', t, t', p, was, q, name, m, d, j, err)
    ensures IsFolder(WorldOf(f), p) && IsFolder(WorldOf(f), q)
    ensures RenameStep(g, WorldOf(f), p, was, q, name) == Next(WorldOf(f'), err, false)
  {
    hide EntsOf, Bit, TreeBut, ShapedAt, NameMap, Tidy, WorldOf, NoHit, FsSized, IsDots, Hollow, OnlyDots, GraphNode,
      TakenAway, Shifting, Full, HasSlot, Above, IsAncestor, Placed, Removed, Moved, ReplaceErr, TakeErr, Cost,
      StandsAt, CanLink, Released;
    RenameErrIs(g, f, t, p, was, q, name, m, d, err);
    NamesIs(g, f, t, p, was);
    if !NoHit(EntsIn(f, p), was, false) && !IsDots(was) && !IsDots(name) {
      var taken, dir := !NoHit(EntsIn(f, q), name, false), IsDir(f.inodes[m]);
      if !(taken && (d == m || ReplaceErr(f, dir, d) != Ok)) {
        if taken {
          ReplacedWorld(g, f, f1, t, m, p, was, q, name, d, dir);
          TakenKeeps(g, WorldOf(f), q, name, d, p);
        }
        if !IsAncestor(t.parent, m, q) {
          if err == Ok {
            MovedWorld(g, f1, f', t, t', m, p, was, q, j, name);
          } else {
            MovedWorld(g, f, f', t, t', m, p, was, p, j, was);
            MovedBack(g, f, t, m, p, was);
            FullIs(g, f, t, q);
          }
        }
      }
    }
  }

  lemma ReplacedWorld(g: Geometry, f: Fs, f1: Fs, t: Nest, m: nat, p: nat, was: Block, q: nat, name: Block, d: nat,
                      dir: bool)
    requires FsSized(g, f) && ValidBlkSize(g.blkSize) && PtrsPerNode(g.blkSize) > 1 && Shaped(g, f) && Tree(NsOf(f), t)
    requires IsParent(g, f, p) && IsParent(g, f, q) && StandsAt(f, t, m, p, was) && d != m
    requires Shaped(g, f1) && Removed(f, f1, t, q, name, d, dir) && Released(g, f, f1, q, d)
    ensures IsFolder(WorldOf(f), q) && d < |f.inodes| && WorldOf(f1) == TakenAway(g, WorldOf(f), q, name, d)
    ensures Tree(NsOf(f1), t) && StandsAt(f1, t, m, p, was)
  {
    hide EntsOf, Bit, TreeBut, ShapedAt, NameMap, Tidy, WorldOf, FsSized, GraphNode, TakenAway, Placed, Cost, StandsAt;
    StillStands(g, f, f1, t, m, p, was, q, name, d, dir);
    SameAttr(f.inodes[q], f1.inodes[q]);
    TookAway(g, f, f1, t, q, name, d, dir, f1.inodes[q]);
  }

  // ---------------------------------------------------------------- cleared tails

  /** No file but an empty one has other bytes than before, or another size. */
  ghost predicate LeavesKept(f: Fs, f': Fs) {
    && Aligned(f) && Aligned(f') && |f'.inodes| == |f.inodes|
    && forall n :: 0 <= n < |f.inodes| && NsOf(f')[n].Leaf? ==>
         f'.blocks[n] == [] || (f'.blocks[n] == f.blocks[n] && f'.inodes[n].size == f.inodes[n].size)
  }

  /** Then no file gets a tail that is not clear. */
  lemma ClearKept(g: Geometry, f: Fs, f': Fs)
    requires FsSized(g, f') && g.blkSize > 0 && Shaped(g, f') && LeavesKept(f, f') && AllClear(f)
    ensures AllClear(f')
  {
    hide EntsOf, Bit, CeilDiv, Flat;
    forall n | 0 <= n < |f'.inodes| ensures TailClear(f', n) {
      assert ShapedAt(g, f', n);
      FsWhole(g, f', n);
      if NsOf(f')[n].Leaf? && f'.blocks[n] != [] {
        assert TailClear(f, n);
      }
    }
  }

  lemma MadeKeepsLeaves(f: Fs, f': Fs, t: Nest, t': Nest, p: nat, j: nat, name: Block, m: nat, node: Node)
    requires Aligned(f) && Aligned(f') && Created(f, f', t, t', p, j, name, m, node)
    requires forall n :: 0 <= n < |f.inodes| && n != p && n != m && n < |f'.inodes| ==>
               f'.blocks[n] == f.blocks[n] && f'.inodes[n] == f.inodes[n]
    requires node.Leaf? ==> m < |f'.blocks| && f'.blocks[m] == []
    ensures LeavesKept(f, f')
  {
    hide GraphNode, Created;
    CreatedGraph(f, f', t, t', p, j, name, m, node);
  }

  lemma TookKeepsLeaves(f: Fs, f': Fs, t: Nest, p: nat, name: Block, m: nat, dir: bool)
    requires Aligned(f) && Aligned(f') && Tree(NsOf(f), t) && Removed(f, f', t, p, name, m, dir)
    ensures LeavesKept(f, f')
  {
    hide GraphNode, TreeBut, Tidy;
    RemovedGraph(f, f', t, p, name, m, dir);
  }

  lemma MovedKeepsLeaves(f: Fs, f': Fs, t: Nest, t': Nest, m: nat, q: nat, j: nat, name: Block)
    requires Aligned(f) && Aligned(f') && Tree(NsOf(f), t) && Moved(f, f', t, t', m, q, j, name)
    ensures LeavesKept(f, f')
  {
    hide GraphNode, TreeBut, Tidy, Absent, Placed, CanHang, MoveNs, IsDir;
    MovedGraph(f, f', t, t', m, q, j, name);
    if NsOf(f)[m].Leaf? {
      LeafIsFile(f, m);
    }
  }

  lemma KeptTwice(f: Fs, f1: Fs, f': Fs)
    requires LeavesKept(f, f1) && LeavesKept(f1, f') && forall n :: 0 <= n < |f1.inodes| && NsOf(f')[n].Leaf? ==>
      NsOf(f1)[n].Leaf?
    ensures LeavesKept(f, f')
  {
    hide GraphNode;
  }

  lemma RenameKeepsLeaves(g: Geometry, f: Fs, f1: Fs, f': Fs, t: Nest, t': Nest, p: nat, was: Block, q: nat,
                          name: Block, m: nat, d: nat, j: nat, err: Errno)
    requires FsSized(g, f) && PtrsPerNode(g.blkSize) > 0 && Shaped(g, f) && Tree(NsOf(f), t) && Aligned(f')
    requires IsParent(g, f, p) && IsParent(g, f, q) && RenameVerdict(g, f, t, p, was, q, name, m, d, err)
    requires RenameOutcome(g, f, f1, f', t, t', p, was, q, name, m, d, j, err)
    ensures LeavesKept(f, f')
  {
    hide EntsOf, Bit, TreeBut, ShapedAt, NoHit, FsSized, IsDots, GraphNode, Placed, Moved, Removed, IsAncestor,
      ReplaceErr, CanLink, Released;
    SelfKept(f);
    if !NoHit(EntsIn(f, p), was, false) && !IsDots(was) && !IsDots(name) {
      var taken, dir := !NoHit(EntsIn(f, q), name, false), IsDir(f.inodes[m]);
      if !(taken && (d == m || ReplaceErr(f, dir, d) != Ok)) {
        if taken {
          TookKeepsLeaves(f, f1, t, q, name, d, dir);
          RemovedTree(f, f1, t, q, name, d, dir);
        }
        if !IsAncestor(t.parent, m, q) {
          if err == Ok {
            MovedKeepsLeaves(f1, f', t, t', m, q, j, name);
            MovedLeaves(f1, f', t, t', m, q, j, name);
            KeptTwice(f, f1, f');
          } else {
            MovedKeepsLeaves(f, f', t, t', m, p, j, was);
          }
        }
      }
    }
  }

  lemma SelfKept(f: Fs)
    ensures Aligned(f) ==> LeavesKept(f, f)
  {
  }

  lemma MovedLeaves(f: Fs, f': Fs, t: Nest, t': Nest, m: nat, q: nat, j: nat, name: Block)
    requires Aligned(f) && Aligned(f') && Tree(NsOf(f), t) && Moved(f, f', t, t', m, q, j, name)
    ensures |f'.inodes| == |f.inodes| && forall n :: 0 <= n < |f.inodes| && NsOf(f')[n].Leaf? ==> NsOf(f)[n].Leaf?
  {
    hide GraphNode, TreeBut, Tidy, Absent, Placed, CanHang, MoveNs;
    MovedGraph(f, f', t, t', m, q, j, name);
  }
}
