/** rename: replacing the destination, the ancestor check, and moving the entry. */
module Renaming {
  import opened Errors
  import opened Bytes
  import opened Layout
  import opened ListNodes
  import opened Volumes
  import opened Ownership
  import opened Accounting
  import opened FileData
  import opened FileOps
  import opened Dirents
  import opened DirOps
  import opened Namespace
  import opened TreeShape
  import opened TreeOps
  import opened Worlds

  /** The entry of `m` is called `name` and stands in directory `p`. */
  ghost predicate StandsAt(f: Fs, t: Nest, m: nat, p: nat, name: Block)
    requires |f.ibits| == |f.inodes| == |f.blocks|
  {
    var ns := NsOf(f);
    && ROOT_INODE < m < |ns| == |t.parent| == |t.slot| && !ns[m].Dead? && Placed(ns, t, m)
    && t.parent[m] == p && ns[p].ents[t.slot[m]].name == name
  }

  /** Links taken from and given to directories when `m` moves from `p` to `q`. */
  function Shift(dir: bool, p: nat, q: nat): int {
    if dir && p != q then 1 else 0
  }

  /** The graph after the four writes of a rename: the tombstone, the new entry, `..` and the two link counts. */
  ghost function Shifted(ns: Ns, m: nat, p: nat, i: nat, q: nat, j: nat, name: Block): Ns
    requires m < |ns| && p < |ns| && q < |ns| && ns[p].Dir? && ns[q].Dir? && i < |ns[p].ents| && j < |ns[q].ents|
    requires ns[m].Dir? ==> |ns[m].ents| >= 2
    requires ns[p].links >= 1
  {
    var s := Shift(ns[m].Dir?, p, q);
    var ns1 := PutNs(ns, p, i, NONE, ns[p].links - s);
    var ns2 := PutNs(ns1, q, j, Ent(name, m), ns1[q].links + s);
    if s == 1 then Redot(ns2, m, q) else ns2
  }

  lemma ShiftPuts(ns: Ns, m: nat, p: nat, i: nat, q: nat, j: nat, name: Block)
    requires m < |ns| && p < |ns| && q < |ns| && ns[p].Dir? && ns[q].Dir? && i < |ns[p].ents| && j < |ns[q].ents|
    requires ns[p].links >= 1 && m != p && m != q
    ensures var s := Shift(ns[m].Dir?, p, q);
            var ns1, d1 := PutNs(ns, p, i, NONE, ns[p].links - s), PutNs(ns, p, i, NONE, Less(ns, m, p));
            PutNs(ns1, q, j, Ent(name, m), ns1[q].links + s) == PutNs(d1, q, j, Ent(name, m), More(d1, m, q))
  {
  }

  lemma HangParts(ns: Ns, t: Nest, m: nat, q: nat, j: nat, name: Block)
    requires m < |ns| == |t.parent| == |t.slot| && Placed(ns, t, m) && CanHang(DetachNs(ns, t, m), m, q, j, name)
    ensures q < |ns| && ns[q].Dir? && j < |ns[q].ents| && t.parent[m] < |ns| && ns[t.parent[m]].Dir?
      && t.slot[m] < |ns[t.parent[m]].ents|
  {
    hide Absent, Real;
  }

  /** Those writes are the move of the tree. */
  lemma ShiftedIsMove(ns: Ns, t: Nest, m: nat, q: nat, j: nat, name: Block)
    requires Tree(ns, t) && m < |ns| && m != ROOT_INODE && !ns[m].Dead? && Placed(ns, t, m)
    requires CanHang(DetachNs(ns, t, m), m, q, j, name) && ns[t.parent[m]].links >= 2 && t.parent[m] != m && q != m
    ensures ns[m].Dir? ==> |ns[m].ents| >= 2
    ensures q < |ns| && ns[q].Dir? && j < |ns[q].ents|
      && Shifted(ns, m, t.parent[m], t.slot[m], q, j, name) == MoveNs(ns, t, m, q, j, name)
  {
    hide AllLead, AllLinked, AllRooted, AllTidy, AllPlaced, Tidy, Absent, IsDots, Real, PutNs;
    HangParts(ns, t, m, q, j, name);
    var p, i := t.parent[m], t.slot[m];
    if ns[m].Dir? {
      assert Dotted(ns, t, -1, m);
    }
    ShiftPuts(ns, m, p, i, q, j, name);
    if Shift(ns[m].Dir?, p, q) == 0 {
      var d1 := DetachNs(ns, t, m);
      var a2 := PutNs(d1, q, j, Ent(name, m), More(d1, m, q));
      PutElsewhere(ns, m, p, i, q, j, name);
      RedotSame(a2, m, q);
    }
  }

  lemma PutElsewhere(ns: Ns, m: nat, p: nat, i: nat, q: nat, j: nat, name: Block)
    requires m < |ns| && p < |ns| && q < |ns| && ns[p].Dir? && ns[q].Dir? && i < |ns[p].ents| && j < |ns[q].ents|
      && m != p
      && m != q
    ensures var d1 := PutNs(ns, p, i, NONE, Less(ns, m, p));
            j < |d1[q].ents| && PutNs(d1, q, j, Ent(name, m), More(d1, m, q))[m] == ns[m]
  {
  }

  // ---------------------------------------------------------------- the writes of a move

  /** The tombstone and the new entry. */
  lemma TwoPuts(g: Geometry, f: Fs, f1: Fs, f2: Fs, m: nat, p: nat, i: nat, q: nat, j: nat, name: Block, now: nat)
    requires Shaped(g, f) && IsParent(g, f, p) && IsParent(g, f, q)
    requires SlotPut(f, f1, p, i, NONE, Stamp(f.inodes[p], Times(false, true, true), now))
    requires q < |f1.inodes| && SlotPut(f1, f2, q, j, Ent(name, m), Stamp(f1.inodes[q], Times(false, true, true), now))
    ensures Shaped(g, f1) && NsOf(f)[p].Dir? && NsOf(f1) == PutNs(NsOf(f), p, i, NONE, NsOf(f)[p].links)
      && NsOf(f1)[q] == Dir(EntsIn(f1, q), f1.inodes[q].links)
    ensures Shaped(g, f2) && NsOf(f2) == PutNs(NsOf(f1), q, j, Ent(name, m), NsOf(f1)[q].links)
    ensures |f2.inodes| == |f.inodes| && forall n :: 0 <= n < |f.inodes| ==>
      f2.inodes[n].mode == f.inodes[n].mode && f2.inodes[n].links == f.inodes[n].links
  {
    hide EntsOf, Bit;
    SlotPutNs(g, f, f1, p, i, NONE, Stamp(f.inodes[p], Times(false, true, true), now));
    SlotPutNs(g, f1, f2, q, j, Ent(name, m), Stamp(f1.inodes[q], Times(false, true, true), now));
  }

  ghost function RelinkedFs(f: Fs, n: nat, delta: int, now: nat): Fs
    requires n < |f.inodes|
  {
    f.(inodes := f.inodes[n := Relinked(f.inodes[n], delta, Times(false, true, true), now)])
  }

  /** `..` and the two link counts. */
  lemma Rehung(g: Geometry, f2: Fs, f3: Fs, m: nat, p: nat, q: nat, now: nat)
    requires Shaped(g, f2) && IsParent(g, f2, m) && IsParent(g, f2, p) && IsParent(g, f2, q) && p != q && p != m
      && q != m
    requires 1 <= f2.inodes[p].links < 0x1_0000 && f2.inodes[q].links < 0xffff
    requires SlotPut(f2, f3, m, 1, Ent(DotDot(), q), f2.inodes[m])
    ensures |f3.inodes| == |f2.inodes|
    ensures var f5, ns2 := RelinkedFs(RelinkedFs(f3, p, -1, now), q, 1, now), NsOf(f2);
            && ns2[m].Dir? && |ns2[m].ents| >= 2 && ns2[p].Dir? && ns2[p].links >= 1 && ns2[q].Dir?
            && Shaped(g, f5)
            && NsOf(f5)
              == Redot(ns2[p := Dir(ns2[p].ents, ns2[p].links - 1)][q := Dir(ns2[q].ents, ns2[q].links + 1)], m, q)
  {
    hide EntsOf, Bit;
    SlotPutNs(g, f2, f3, m, 1, Ent(DotDot(), q), f2.inodes[m]);
    var f4 := RelinkedFs(f3, p, -1, now);
    ShapedDir(g, f3, p);
    RecordNs(g, f3, f4, p, f4.inodes[p]);
    var f5 := RelinkedFs(f4, q, 1, now);
    ShapedDir(g, f4, q);
    RecordNs(g, f4, f5, q, f5.inodes[q]);
  }

  lemma ShiftedOver(ns: Ns, m: nat, p: nat, i: nat, q: nat, j: nat, name: Block)
    requires m < |ns| && p < |ns| && q < |ns| && ns[p].Dir? && ns[q].Dir? && i < |ns[p].ents| && j < |ns[q].ents|
      && ns[p].links >= 1
    requires ns[m].Dir? ==> |ns[m].ents| >= 2
    requires m != p && m != q
    ensures var ns1 := PutNs(ns, p, i, NONE, ns[p].links);
            var ns2 := PutNs(ns1, q, j, Ent(name, m), ns1[q].links);
            && ns2[p].Dir? && ns2[q].Dir? && ns2[m] == ns[m]
            && ns2[p].links == ns[p].links && ns2[q].links == ns[q].links
            && (Shift(ns[m].Dir?, p, q) == 0 ==> Shifted(ns, m, p, i, q, j, name) == ns2)
            && (Shift(ns[m].Dir?, p, q) == 1 ==>
                  var fewer, more := Dir(ns2[p].ents, ns2[p].links - 1), Dir(ns2[q].ents, ns2[q].links + 1);
                  Shifted(ns, m, p, i, q, j, name) == Redot(ns2[p := fewer][q := more], m, q))
  {
    hide Redot;
    if Shift(ns[m].Dir?, p, q) == 1 {
      var ns1 := PutNs(ns, p, i, NONE, ns[p].links);
      var ns2 := PutNs(ns1, q, j, Ent(name, m), ns1[q].links);
      var n1 := PutNs(ns, p, i, NONE, ns[p].links - 1);
      var n2 := PutNs(n1, q, j, Ent(name, m), n1[q].links + 1);
      assert n2 == ns2[p := Dir(ns2[p].ents, ns2[p].links - 1)][q := Dir(ns2[q].ents, ns2[q].links + 1)];
    }
  }

  // ---------------------------------------------------------------- moving the entry

  /** What a move of `m` from `p` to `q` leaves alone: the bitmaps' counts, every other node, the contents of a file
      that moves. */
  ghost predicate MoveKeeps(f: Fs, f': Fs, p: nat, m: nat, q: nat) {
    && |f.inodes| == |f.blocks| == |f'.inodes| == |f'.blocks| && m < |f.inodes| && f'.ibits == f.ibits
      && f'.free == f.free
    && (forall n :: 0 <= n < |f.inodes| ==> SameRecord(f.inodes[n], f'.inodes[n]))
    && (forall n :: 0 <= n < |f.inodes| && n != p && n != q && n != m ==>
      f'.inodes[n] == f.inodes[n] && f'.blocks[n] == f.blocks[n])
    && f'.inodes[m].links == f.inodes[m].links && (!IsDir(f.inodes[m]) ==> f'.blocks[m] == f.blocks[m])
  }

  lemma TwoPutsKeep(f: Fs, f1: Fs, f2: Fs, m: nat, p: nat, i: nat, q: nat, j: nat, x: Ent, now: nat)
    requires p < |f.inodes| && SlotPut(f, f1, p, i, NONE, Stamp(f.inodes[p], Times(false, true, true), now))
      && m < |f.inodes|
    requires q < |f1.inodes| && SlotPut(f1, f2, q, j, x, Stamp(f1.inodes[q], Times(false, true, true), now)) && m != p
      && m != q
    ensures MoveKeeps(f, f2, p, m, q) && f2.inodes[m] == f.inodes[m]
  {
    hide EntsOf, Bit;
  }

  lemma AcrossKeeps(f: Fs, f2: Fs, f3: Fs, m: nat, p: nat, q: nat, x: Ent, now: nat)
    requires MoveKeeps(f, f2, p, m, q) && IsDir(f.inodes[m]) && SlotPut(f2, f3, m, 1, x, f2.inodes[m]) && p < |f.inodes|
      && q < |f.inodes|
    requires m != p && m != q
    ensures |f3.inodes| == |f.inodes| && MoveKeeps(f, RelinkedFs(RelinkedFs(f3, p, -1, now), q, 1, now), p, m, q)
  {
    hide EntsOf, Bit;
  }

  /** Node `m` now stands in slot `j` of directory `q` under `name`. */
  ghost predicate Moved(f: Fs, f': Fs, t: Nest, t': Nest, m: nat, q: nat, j: nat, name: Block)
    requires |f.ibits| == |f.inodes| == |f.blocks| && |f'.ibits| == |f'.inodes| == |f'.blocks|
  {
    var ns := NsOf(f);
    && ROOT_INODE < m < |ns| == |t.parent| == |t.slot| && !ns[m].Dead? && Placed(ns, t, m)
    && CanHang(DetachNs(ns, t, m), m, q, j, name) && NsOf(f') == MoveNs(ns, t, m, q, j, name)
      && t' == Rehang(t, m, q, j)
    && MoveKeeps(f, f', t.parent[m], m, q)
  }

  lemma MovedTree(f: Fs, f': Fs, t: Nest, t': Nest, m: nat, q: nat, j: nat, name: Block)
    requires |f.ibits| == |f.inodes| == |f.blocks| && |f'.ibits| == |f'.inodes| == |f'.blocks|
    requires Tree(NsOf(f), t) && Moved(f, f', t, t', m, q, j, name) && !IsAncestor(t.parent, m, q)
    ensures Tree(NsOf(f'), t')
  {
    hide GraphNode, TreeBut, CanHang, Placed, IsAncestor;
    MoveTree(NsOf(f), t, m, q, j, name);
  }

  /** What the lemmas about one move share. */
  ghost predicate Moving(g: Geometry, f: Fs, f1: Fs, f2: Fs, t: Nest, m: nat, p: nat, was: Block, q: nat, j: nat,
                         name: Block, now: nat)
    requires Shaped(g, f)
  {
    && FsSized(g, f) && ValidBlkSize(g.blkSize) && Tree(NsOf(f), t) && IsParent(g, f, p) && IsParent(g, f, q)
      && StandsAt(f, t, m, p, was)
    && !IsAncestor(t.parent, m, q) && LeafName(name) && !IsDots(name)
    && t.slot[m] < |EntsIn(f, p)|
      && SlotPut(f, f1, p, t.slot[m], NONE, Stamp(f.inodes[p], Times(false, true, true), now))
    && q < |f1.inodes| && q < |f1.blocks| && j < |EntsIn(f1, q)| && !Live(EntsIn(f1, q)[j])
      && NoName(EntsIn(f1, q), name)
    && SlotPut(f1, f2, q, j, Ent(name, m), Stamp(f1.inodes[q], Times(false, true, true), now))
  }

  lemma MovingFacts(g: Geometry, f: Fs, f1: Fs, f2: Fs, t: Nest, m: nat, p: nat, was: Block, q: nat, j: nat,
                    name: Block, now: nat)
    requires Shaped(g, f) && Moving(g, f, f1, f2, t, m, p, was, q, j, name, now)
    ensures m != p && m != q && 2 <= f.inodes[p].links <= 2050 && 2 <= f.inodes[q].links <= 2050
    ensures Placed(NsOf(f), t, m) && CanHang(DetachNs(NsOf(f), t, m), m, q, j, name)
    ensures Shaped(g, f2) && NsOf(f)[p].Dir? && NsOf(f)[q].Dir? && NsOf(f)[p].links == f.inodes[p].links
    ensures NsOf(f1) == PutNs(NsOf(f), p, t.slot[m], NONE, NsOf(f)[p].links)
      && NsOf(f2) == PutNs(NsOf(f1), q, j, Ent(name, m), NsOf(f1)[q].links)
    ensures |f2.inodes| == |f.inodes| && forall n :: 0 <= n < |f.inodes| ==>
      f2.inodes[n].mode == f.inodes[n].mode && f2.inodes[n].links == f.inodes[n].links
  {
    hide EntsOf, Bit, AllLead, AllLinked, AllRooted, AllTidy, AllPlaced, Tidy, CString, IsAncestor, FsSized;
    ParentIs(g, f, t, p);
    ParentIs(g, f, t, q);
    LinksBound(g, f, t, p);
    LinksBound(g, f, t, q);
    NotOwnParent(NsOf(f), t, m);
    StartsThere(t.parent, m);
    TwoPuts(g, f, f1, f2, m, p, t.slot[m], q, j, name, now);
    AbsentNoName(EntsIn(f1, q), name);
    if NsOf(f)[m].Dir? {
      assert Dotted(NsOf(f), t, -1, m);
    }
  }

  lemma MoveInPlace(g: Geometry, f: Fs, f1: Fs, f2: Fs, t: Nest, m: nat, p: nat, was: Block, q: nat, j: nat,
                    name: Block, now: nat)
    requires Shaped(g, f) && Moving(g, f, f1, f2, t, m, p, was, q, j, name, now) && Shift(NsOf(f)[m].Dir?, p, q) == 0
    ensures Shaped(g, f2) && Moved(f, f2, t, Rehang(t, m, q, j), m, q, j, name)
  {
    hide EntsOf, Bit, TreeBut, CString, IsAncestor, FsSized, GraphNode, SlotPut, ShapedAt, CanHang, PutNs, Live, NoName,
      MoveKeeps;
    MovingFacts(g, f, f1, f2, t, m, p, was, q, j, name, now);
    TwoPutsKeep(f, f1, f2, m, p, t.slot[m], q, j, Ent(name, m), now);
    ShiftedIsMove(NsOf(f), t, m, q, j, name);
    ShiftedOver(NsOf(f), m, p, t.slot[m], q, j, name);
  }

  lemma MoveAcross(g: Geometry, f: Fs, f1: Fs, f2: Fs, f3: Fs, t: Nest, m: nat, p: nat, was: Block, q: nat, j: nat,
                   name: Block, now: nat)
    requires Shaped(g, f) && Moving(g, f, f1, f2, t, m, p, was, q, j, name, now) && Shift(NsOf(f)[m].Dir?, p, q) == 1
    requires IsParent(g, f2, m) && SlotPut(f2, f3, m, 1, Ent(DotDot(), q), f2.inodes[m])
    ensures |f3.inodes| == |f.inodes| && m < |f3.inodes| && p < |f3.inodes| && q < |f3.inodes|
    ensures var f5 := RelinkedFs(RelinkedFs(f3, p, -1, now), q, 1, now);
      Shaped(g, f5) && Moved(f, f5, t, Rehang(t, m, q, j), m, q, j, name)
  {
    hide EntsOf, Bit, TreeBut, CString, IsAncestor, FsSized, GraphNode, ShapedAt, CanHang, PutNs, Live, NoName, Redot,
      Relinked;
    MovingFacts(g, f, f1, f2, t, m, p, was, q, j, name, now);
    ShiftedIsMove(NsOf(f), t, m, q, j, name);
    ShiftedOver(NsOf(f), m, p, t.slot[m], q, j, name);
    SameModes(f, f2, p, q);
    SameModes(f, f2, m, m);
    TwoPutsKeep(f, f1, f2, m, p, t.slot[m], q, j, Ent(name, m), now);
    AcrossKeeps(f, f2, f3, m, p, q, Ent(DotDot(), q), now);
    Rehung(g, f2, f3, m, p, q, now);
  }

  lemma SameModes(f: Fs, f': Fs, p: nat, q: nat)
    requires p < |f.inodes| == |f'.inodes| && q < |f.inodes| && forall n :: 0 <= n < |f.inodes| ==>
      f'.inodes[n].mode == f.inodes[n].mode
    ensures IsDir(f'.inodes[p]) == IsDir(f.inodes[p]) && IsDir(f'.inodes[q]) == IsDir(f.inodes[q])
  {
  }

  lemma MovedStamp(g: Geometry, f: Fs, f5: Fs, t: Nest, t': Nest, m: nat, q: nat, j: nat, name: Block, now: nat)
    requires Shaped(g, f) && Shaped(g, f5) && Moved(f, f5, t, t', m, q, j, name)
    ensures m < |f5.inodes| &&
            var f6 := f5.(inodes := f5.inodes[m := Stamp(f5.inodes[m], Times(false, false, true), now)]);
            Shaped(g, f6) && Moved(f, f6, t, t', m, q, j, name)
  {
    hide EntsOf, Bit, Live, Absent, Real, IsDots, Tidy;
    var f6 := f5.(inodes := f5.inodes[m := Stamp(f5.inodes[m], Times(false, false, true), now)]);
    assert !NsOf(f5)[m].Dead?;
    RecordNs(g, f5, f6, m, f6.inodes[m]);
    assert NsOf(f5)[m := NsOf(f5)[m]] == NsOf(f5);
  }

  /** A node does not lie above its own parent. */
  lemma NotAboveParent(ns: Ns, t: Nest, m: nat)
    requires Tree(ns, t) && m < |ns| && m != ROOT_INODE && !ns[m].Dead?
    ensures t.parent[m] < |ns| && !ns[t.parent[m]].Dead? && !IsAncestor(t.parent, m, t.parent[m])
  {
    hide AllLead, AllLinked, AllTidy, AllDotted, IsAncestor, Rooted;
    assert Placed(ns, t, m);
    AncestorGuardExact(ns, t, m, t.parent[m]);
    assert t.parent[m := t.parent[m]] == t.parent;
    assert Rooted(t.parent, -1, m);
  }

  /** What add_dir_entry says about the target once the old entry is a tombstone. */
  lemma MoveLinkErr(g: Geometry, f: Fs, f1: Fs, p: nat, e: nat, was: Block, q: nat, name: Block, m: nat, rec: Inode)
    requires FsSized(g, f) && FsSized(g, f1) && PtrsPerNode(g.blkSize) > 0 && LeafName(name)
      && ROOT_INODE < m < g.inodeNum
    requires DirOk(g, f, q) && |f.blocks[q]| == 1 && SlotPut(f, f1, p, e, NONE, rec) && rec.mode == f.inodes[p].mode
    requires EntsIn(f, p)[e].name == was
      && (NoName(EntsIn(f, q), name) || (p == q && name == was && Tidy(EntsIn(f, p)) && Live(EntsIn(f, p)[e])))
    ensures q < |f1.blocks| && NoName(EntsIn(f1, q), name) && f1.free == f.free && |f1.blocks[q]| == 1
    ensures AddErr(g, f1, q, name, m) == if q == p || CanLink(g, f, q, f.free) then Ok else ENOSPC
    ensures Grows(g, f1, q, name, m) <==> q != p && CanLink(g, f, q, f.free) && !HasSlot(f, q)
  {
    hide EntsOf, Bit, NodesFor, CString;
    if q == p {
      assert !Live(EntsIn(f1, q)[e]);
    }
  }

  /** When a node moves from `p` to `q`, both directories change, and of the node the record. */
  ghost predicate MoveTimes(f: Fs, f': Fs, p: nat, q: nat, m: nat, now: nat) {
    && p < |f.inodes| == |f'.inodes| && q < |f.inodes| && m < |f.inodes| && m != p && m != q
    && ChangedAt(f.inodes[p], f'.inodes[p], now) && ChangedAt(f.inodes[q], f'.inodes[q], now)
    && RecordedAt(f.inodes[m], f'.inodes[m], now)
  }

  lemma PutTimes(f: Fs, f1: Fs, f2: Fs, p: nat, i: nat, q: nat, j: nat, x: Ent, m: nat, now: nat)
    requires p < |f.inodes| && SlotPut(f, f1, p, i, NONE, Stamp(f.inodes[p], Times(false, true, true), now))
    requires q < |f1.inodes| && SlotPut(f1, f2, q, j, x, Stamp(f1.inodes[q], Times(false, true, true), now))
    requires m < |f.inodes| && m != p && m != q
    ensures p < |f2.inodes| == |f.inodes| && q < |f2.inodes| && f2.inodes[m] == f.inodes[m]
    ensures ChangedAt(f.inodes[p], f2.inodes[p], now) && ChangedAt(f.inodes[q], f2.inodes[q], now)
  {
    hide EntsOf;
  }

  lemma RelinkTimes(f: Fs, f2: Fs, f3: Fs, p: nat, q: nat, m: nat, k: nat, x: Ent, now: nat)
    requires p < |f.inodes| == |f2.inodes| && q < |f.inodes| && m < |f.inodes| && p != q && m != p && m != q
    requires ChangedAt(f.inodes[p], f2.inodes[p], now) && ChangedAt(f.inodes[q], f2.inodes[q], now)
    requires SlotPut(f2, f3, m, k, x, f2.inodes[m]) && f2.inodes[m] == f.inodes[m]
    ensures var f5 := RelinkedFs(RelinkedFs(f3, p, -1, now), q, 1, now);
            && |f3.inodes| == |f5.inodes| == |f.inodes| && f5.inodes[m] == f.inodes[m]
            && ChangedAt(f.inodes[p], f5.inodes[p], now) && ChangedAt(f.inodes[q], f5.inodes[q], now)
  {
    hide EntsOf;
  }

  lemma StampTimes(f: Fs, f5: Fs, p: nat, q: nat, m: nat, now: nat)
    requires p < |f.inodes| == |f5.inodes| && q < |f.inodes| && m < |f.inodes| && m != p && m != q
    requires ChangedAt(f.inodes[p], f5.inodes[p], now) && ChangedAt(f.inodes[q], f5.inodes[q], now)
    requires f5.inodes[m] == f.inodes[m]
    ensures var f6 := f5.(inodes := f5.inodes[m := Stamp(f5.inodes[m], Times(false, false, true), now)]);
            MoveTimes(f, f6, p, q, m, now)
  {
  }

  /** The end of mofs_rename_core: take the old entry away, make the new one, and if that fails make the old one
      again. */
  method MoveEntry(v: Volume, m: nat, dir: bool, p: nat, was: Block, q: nat, name: Block, now: nat, ghost t: Nest)
    returns (err: Errno, grew: bool, ghost t': Nest, ghost j: nat)
    requires Sys(v, t) && now < LIMIT64 && IsParent(v.geo, View(v), p) && IsParent(v.geo, View(v), q)
      && StandsAt(View(v), t, m, p, was)
    requires LeafName(was) && LeafName(name) && !IsDots(was) && !IsDots(name) && dir == NsOf(View(v))[m].Dir?
    requires !IsAncestor(t.parent, m, q) && NoName(EntsIn(View(v), q), name)
    modifies v, v.io.Repr()
    ensures v.Valid() && err == if old(q == p || CanLink(v.geo, View(v), q, View(v).free)) then Ok else ENOSPC
    ensures grew <==> err == Ok && old(q != p && !HasSlot(View(v), q))
    ensures grew ==> Ownerless(v.geo, v.vol)
    ensures !grew ==> Good(v) && Shaped(v.geo, View(v))
    ensures !grew && err == Ok ==> Moved(old(View(v)), View(v), t, t', m, q, j, name)
    ensures !grew && err != Ok ==> Moved(old(View(v)), View(v), t, t', m, p, j, was)
    ensures !grew && err == Ok ==> MoveTimes(old(View(v)), View(v), p, q, m, now)
    ensures err != Ok ==> ChangedAt(old(View(v)).inodes[p], View(v).inodes[p], now)
  {
    hide ChangedAt, RecordedAt, MoveTimes, View, Volume.Valid, Owned, FsSized, EntsOf, Bit, TreeBut, NoName, AllUsed,
      NodesFor, CString, SlotPut, ShapedAt, Fits, Live, CanLink, HasSlot, NoHit, Moved, Tidy, IsAncestor, GraphNode,
      Relinked, CanHang, Placed, Moving, Hit, IsDots, OnDisk, Backs;
    t', j := t, 0;
    ghost var f := View(v);
    ParentIs(v.geo, f, t, p);
    ParentIs(v.geo, f, t, q);
    ghost var e := t.slot[m];
    StandsFacts(v.geo, f, t, m, p, was);
    HitThere(EntsIn(f, p), was, e);
    ghost var i;
    err, i := Remove(v, p, was, now);
    SameSlot(EntsIn(f, p), was, e, i);
    ghost var f1 := View(v);
    RemovedKeeps(v.geo, f, f1, p, e, now, q);
    MoveLinkErr(v.geo, f, f1, p, e, was, q, name, m, Stamp(f.inodes[p], Times(false, true, true), now));
    err, grew, j := Add(v, q, name, m, now);
    if err != Ok {
      MoveLinkErr(v.geo, f, f1, p, e, was, p, was, m, Stamp(f.inodes[p], Times(false, true, true), now));
      RemovedKeeps(v.geo, f, f1, p, e, now, p);
      var ignored, again;
      ignored, again, j := Add(v, p, was, m, now);
      t' := Rehang(t, m, p, j);
      NotAboveParent(NsOf(f), t, m);
      MovingIs(v.geo, f, f1, View(v), t, m, p, was, p, j, was, now);
      MoveInPlace(v.geo, f, f1, View(v), t, m, p, was, p, j, was, now);
      NotItself(v.geo, f, f1, View(v), t, m, p, was, p, j, was, now);
      PutTimes(f, f1, View(v), p, e, p, j, Ent(was, m), m, now);
      return;
    }
    if grew {
      return;
    }
    t' := Rehang(t, m, q, j);
    ghost var f2 := View(v);
    MovingIs(v.geo, f, f1, f2, t, m, p, was, q, j, name, now);
    MovingFacts(v.geo, f, f1, f2, t, m, p, was, q, j, name, now);
    PutTimes(f, f1, f2, p, e, q, j, Ent(name, m), m, now);
    if dir && p != q {
      MovedDir(v.geo, f, f1, f2, t, m, p, was, q, j, name, now);
      ghost var k;
      FirstIsAll(f2, m);
      err, k := RewriteDotDot(v, m, q);
      DotDotSlot(v.geo, f, f2, t, m, k);
      ghost var f3 := View(v);
      MoveAcross(v.geo, f, f1, f2, f3, t, m, p, was, q, j, name, now);
      RelinkTimes(f, f2, f3, p, q, m, 1, Ent(DotDot(), q), now);
      err := Relink(v, p, -1, Times(false, true, true), now);
      err := Relink(v, q, 1, Times(false, true, true), now);
    } else {
      MoveInPlace(v.geo, f, f1, f2, t, m, p, was, q, j, name, now);
    }
    MovedStamp(v.geo, f, View(v), t, t', m, q, j, name, now);
    StampTimes(f, View(v), p, q, m, now);
    var ignored := StampInode(v, m, Times(false, false, true), now);
  }

  lemma NotItself(g: Geometry, f: Fs, f1: Fs, f2: Fs, t: Nest, m: nat, p: nat, was: Block, q: nat, j: nat, name: Block,
                  now: nat)
    requires Shaped(g, f) && Moving(g, f, f1, f2, t, m, p, was, q, j, name, now)
    ensures m != p && m != q
  {
    hide Moving;
    MovingFacts(g, f, f1, f2, t, m, p, was, q, j, name, now);
  }

  lemma StandsFacts(g: Geometry, f: Fs, t: Nest, m: nat, p: nat, was: Block)
    requires Shaped(g, f) && Tree(NsOf(f), t) && IsParent(g, f, p) && StandsAt(f, t, m, p, was)
    ensures ROOT_INODE < m < g.inodeNum && m < |t.slot| && m < |t.parent| && t.parent[m] == p && m < |NsOf(f)|
      && !NsOf(f)[m].Dead?
    ensures t.slot[m] < |EntsIn(f, p)| && Live(EntsIn(f, p)[t.slot[m]]) && EntsIn(f, p)[t.slot[m]].name == was
  {
    hide EntsOf, Bit, TreeBut;
    ParentIs(g, f, t, p);
  }

  lemma RemovedKeeps(g: Geometry, f: Fs, f1: Fs, p: nat, e: nat, now: nat, q: nat)
    requires p < |f.inodes| && SlotPut(f, f1, p, e, NONE, Stamp(f.inodes[p], Times(false, true, true), now))
      && DirOk(g, f, q)
    ensures q < |f1.inodes| && q < |f1.blocks| && DirOk(g, f1, q) && |f1.blocks[q]| == |f.blocks[q]|
    ensures f1.inodes[q] == if p == q then Stamp(f.inodes[p], Times(false, true, true), now) else f.inodes[q]
  {
    hide Bit;
  }

  lemma MovingIs(g: Geometry, f: Fs, f1: Fs, f2: Fs, t: Nest, m: nat, p: nat, was: Block, q: nat, j: nat, name: Block,
                 now: nat)
    requires Shaped(g, f) && FsSized(g, f) && ValidBlkSize(g.blkSize) && Tree(NsOf(f), t) && IsParent(g, f, p)
      && IsParent(g, f, q) && StandsAt(f, t, m, p, was)
    requires !IsAncestor(t.parent, m, q) && LeafName(name) && !IsDots(name)
    requires t.slot[m] < |EntsIn(f, p)|
      && SlotPut(f, f1, p, t.slot[m], NONE, Stamp(f.inodes[p], Times(false, true, true), now))
    requires q < |f1.inodes| && q < |f1.blocks| && j < |EntsIn(f1, q)| && !Live(EntsIn(f1, q)[j])
      && NoName(EntsIn(f1, q), name)
    requires SlotPut(f1, f2, q, j, Ent(name, m), Stamp(f1.inodes[q], Times(false, true, true), now))
    ensures Moving(g, f, f1, f2, t, m, p, was, q, j, name, now)
  {
  }

  lemma MovedDir(g: Geometry, f: Fs, f1: Fs, f2: Fs, t: Nest, m: nat, p: nat, was: Block, q: nat, j: nat, name: Block,
                 now: nat)
    requires Shaped(g, f) && Moving(g, f, f1, f2, t, m, p, was, q, j, name, now) && Shaped(g, f2) && NsOf(f)[m].Dir?
    ensures IsParent(g, f2, m) && DirOk(g, f2, m) && |f2.blocks[m]| == 1 && q < g.inodeNum
      && EntsIn(f2, m) == EntsIn(f, m)
      && IsParent(g, f, m)
  {
    hide EntsOf, Bit, TreeBut, CString, IsAncestor, FsSized;
    MovingFacts(g, f, f1, f2, t, m, p, was, q, j, name, now);
    SameModes(f, f2, m, m);
    ShapedDir(g, f2, m);
  }

  lemma DotDotSlot(g: Geometry, f: Fs, f2: Fs, t: Nest, m: nat, k: nat)
    requires Shaped(g, f) && Tree(NsOf(f), t) && IsParent(g, f, m) && m != ROOT_INODE && m < |f2.blocks|
      && EntsIn(f2, m) == EntsIn(f, m)
    ensures !NoHit(EntsIn(f2, m), DotDot(), true)
    ensures k < |EntsIn(f2, m)| && Hit(EntsIn(f2, m)[k], DotDot(), true) ==> k == 1
  {
    hide EntsOf, Bit, TreeBut, NoHit;
    DotDotIs(g, f, t, m, k, 0);
  }

  // ---------------------------------------------------------------- rename

  lemma RemovedTree(f: Fs, f': Fs, t: Nest, p: nat, name: Block, m: nat, dir: bool)
    requires |f.ibits| == |f.inodes| == |f.blocks| && |f'.ibits| == |f'.inodes| == |f'.blocks|
    requires Tree(NsOf(f), t) && Removed(f, f', t, p, name, m, dir)
    ensures Tree(NsOf(f'), t)
  {
    hide GraphNode, TreeBut, Childless;
    RemoveTree(NsOf(f), t, m);
  }

  /** Replacing the destination `d` leaves the source `m` where it stands and frees the name. */
  lemma StillStands(g: Geometry, f: Fs, f1: Fs, t: Nest, m: nat, p: nat, was: Block, q: nat, name: Block, d: nat,
                    dir: bool)
    requires Shaped(g, f) && Shaped(g, f1) && Tree(NsOf(f), t) && IsParent(g, f, p) && IsParent(g, f, q)
      && StandsAt(f, t, m, p, was)
    requires Removed(f, f1, t, q, name, d, dir) && m != d
    ensures IsParent(g, f1, p) && IsParent(g, f1, q) && StandsAt(f1, t, m, p, was) && NoName(EntsIn(f1, q), name)
    ensures NsOf(f1)[m].Dir? == NsOf(f)[m].Dir? && Tree(NsOf(f1), t) && HasSlot(f1, q) && p != d
  {
    hide EntsOf, Bit, AllLead, AllLinked, AllRooted, AllDotted;
    RemovedTree(f, f1, t, q, name, d, dir);
    ParentIs(g, f, t, p);
    ParentIs(g, f, t, q);
    NotOwnParent(NsOf(f), t, d);
    var ns, ns1 := NsOf(f), NsOf(f1);
    assert ns1[q].Dir? && ns1[q].ents == ns[q].ents[t.slot[d] := NONE];
    assert p != d;
    assert ns1[p].Dir?;
    assert Placed(ns1, t, m);
    assert !Live(ns1[q].ents[t.slot[d]]);
    Vanished(ns[q].ents, t.slot[d], name);
    AbsentNoName(EntsIn(f1, q), name);
    DirHere(g, f1, p);
    DirHere(g, f1, q);
  }

  lemma DirHere(g: Geometry, f: Fs, n: nat)
    requires Shaped(g, f) && n < g.inodeNum && NsOf(f)[n].Dir?
    ensures IsParent(g, f, n) && NsOf(f)[n].ents == EntsIn(f, n)
  {
    hide EntsOf, Bit, ShapedAt;
  }

  lemma Vanished(es: seq<Ent>, i: nat, name: Block)
    requires Tidy(es) && i < |es| && Live(es[i]) && es[i].name == name
    ensures Absent(es[i := NONE], name)
  {
  }

  /** Blocks and record of `m` are given back, and nothing but `m` and directory `p` differs. */
  ghost predicate Released(g: Geometry, f: Fs, f': Fs, p: nat, m: nat) {
    p < |f'.inodes| && GoneFrom(g, f, f', p, m, f'.inodes[p])
  }

  lemma GoneReleased(g: Geometry, f: Fs, f': Fs, p: nat, m: nat, rec: Inode)
    ensures GoneFrom(g, f, f', p, m, rec) ==> Released(g, f, f', p, m)
  {
    hide Cost;
  }

  /** How a rename of node `m` ends, given the node `d` that has the new name already, if there is one. The destination
      is taken away before the ancestor check, so that a refusal may have cost it; `f1` is the state in between. */
  ghost predicate MoveOutcome(g: Geometry, f: Fs, f1: Fs, f': Fs, t: Nest, t': Nest, p: nat, was: Block, q: nat,
                              name: Block, m: nat, taken: bool, d: nat, j: nat, err: Errno)
  {
    && Aligned(f) && Aligned(f1) && Aligned(f') && m < |f.inodes| && (taken ==> d < |f.inodes|)
    && var dir := IsDir(f.inodes[m]);
    if taken && (d == m || ReplaceErr(f, dir, d) != Ok) then f' == f && t' == t
    else
      && (if taken then Shaped(g, f1) && Removed(f, f1, t, q, name, d, dir) && Released(g, f, f1, q, d) else f1 == f)
      && if IsAncestor(t.parent, m, q) then f' == f1 && t' == t
         else if err == Ok then Moved(f1, f', t, t', m, q, j, name)
         else f1 == f && Moved(f, f', t, t', m, p, j, was)
  }

  /** How a rename ends. */
  ghost predicate RenameOutcome(g: Geometry, f: Fs, f1: Fs, f': Fs, t: Nest, t': Nest, p: nat, was: Block, q: nat,
                                name: Block, m: nat, d: nat, j: nat, err: Errno)
    requires p < |f.blocks| && q < |f.blocks|
  {
    if NoHit(EntsIn(f, p), was, false) || IsDots(was) || IsDots(name) then f' == f && t' == t
    else MoveOutcome(g, f, f1, f', t, t', p, was, q, name, m, !NoHit(EntsIn(f, q), name, false), d, j, err)
  }

  /** A leaf lies above nothing. */
  lemma LeafNotAbove(ns: Ns, t: Nest, m: nat, q: nat)
    requires Tree(ns, t) && m < |ns| && m != ROOT_INODE && ns[m].Leaf? && q < |ns| && ns[q].Dir?
    ensures !IsAncestor(t.parent, m, q)
  {
    hide AllLead, AllLinked, AllRooted, AllDotted, AllTidy;
    forall k: nat ensures !OnPath(t.parent, m, q, k) {
      LeafNotOn(ns, t, m, q, k);
    }
  }

  lemma {:induction false} LeafNotOn(ns: Ns, t: Nest, m: nat, q: nat, k: nat)
    requires Base(ns, t, -1) && AllPlaced(ns, t, -1) && m < |ns| && ns[m].Leaf? && q < |ns| && ns[q].Dir?
    ensures !OnPath(t.parent, m, q, k)
    decreases k
  {
    if q != ROOT_INODE && k > 0 {
      assert Placed(ns, t, q);
      LeafNotOn(ns, t, m, t.parent[q], k - 1);
    }
  }

  /** What stands in the way of replacing `d` by a directory (`dir`) or a file. */
  ghost function ReplaceErr(f: Fs, dir: bool, d: nat): Errno
    requires d < |f.inodes| == |f.blocks|
  {
    if IsDir(f.inodes[d]) != dir then (if dir then ENOTDIR else EISDIR)
    else if dir && !OnlyDots(EntsIn(f, d)) then ENOTEMPTY
    else Ok
  }

  /** The destination, if there is one, is removed by rmdir or unlink when its kind matches the source's. */
  method Replace(v: Volume, m: nat, dir: bool, d: nat, q: nat, name: Block, now: nat, ghost t: Nest)
    returns (err: Errno)
    requires Sys(v, t) && IsParent(v.geo, View(v), q) && LeafName(name) && !IsDots(name) && now < LIMIT64
      && d < v.geo.inodeNum
    requires StandsAt(View(v), t, d, q, name)
    modifies v, v.io.Repr()
    ensures Good(v) && err == ReplaceErr(old(View(v)), dir, d) && (err != Ok ==> View(v) == old(View(v)))
    ensures err == Ok ==> Shaped(v.geo, View(v)) && Removed(old(View(v)), View(v), t, q, name, d, dir)
    ensures err == Ok ==> Released(v.geo, old(View(v)), View(v), q, d)
    ensures err == Ok ==> ChangedAt(old(View(v)).inodes[q], View(v).inodes[q], now)
  {
    hide ChangedAt, Good, View, FsSized, EntsOf, Bit, TreeBut, CString, Shaped, Live, NoHit, Tidy, IsDots, GraphNode,
      Placed, RemoveNs, Childless, OnlyDots, UnlinkErr, RmdirFinds, OnDisk, Backs;
    ghost var f := View(v);
    FsWhole(v.geo, f, d);
    var rec;
    err, rec := GetInode(v, d);
    ghost var gone;
    ReplaceErrs(v.geo, f, t, d, q, name);
    if dir && IsDir(rec) {
      err, gone := Rmdir(v, q, name, now, t);
    } else if !dir && !IsDir(rec) {
      err, gone := Unlink(v, q, name, now, t);
    } else if dir {
      return ENOTDIR;
    } else {
      return EISDIR;
    }
    if err == Ok {
      OneName(v.geo, f, t, d, gone, q, name);
      GoneReleased(v.geo, f, View(v), q, gone, Stamp(f.inodes[q], Times(false, true, true), now));
      GoneReleased(v.geo, f, View(v), q, gone,
                   Relinked(Stamp(f.inodes[q], Times(false, true, true), now), -1, Times(false, false, true), now));
    }
  }

  lemma OneName(g: Geometry, f: Fs, t: Nest, d: nat, m: nat, q: nat, name: Block)
    requires Shaped(g, f) && Tree(NsOf(f), t) && IsParent(g, f, q) && StandsAt(f, t, d, q, name)
    requires m < |NsOf(f)| == |t.parent| == |t.slot| && Placed(NsOf(f), t, m) && t.parent[m] == q
      && NsOf(f)[q].ents[t.slot[m]].name == name
    ensures m == d
  {
    hide EntsOf, Bit, TreeBut, GraphNode;
    ParentIs(g, f, t, q);
    TidyFound(EntsIn(f, q), name, t.slot[d], t.slot[m]);
  }

  lemma StandsThere(g: Geometry, f: Fs, t: Nest, p: nat, name: Block, e: nat, ino: nat)
    requires Shaped(g, f) && Tree(NsOf(f), t) && IsParent(g, f, p) && name != [] && !IsDots(name) && e < |EntsIn(f, p)|
      && EntsIn(f, p)[e] == Ent(name, ino)
    ensures ino < g.inodeNum && StandsAt(f, t, ino, p, name) && (NsOf(f)[ino].Dir? <==> IsDir(f.inodes[ino]))
      && ROOT_INODE < ino
  {
    hide EntsOf, Bit, TreeBut;
    FoundNode(g, f, t, p, name, e, ino);
    ParentIs(g, f, t, p);
  }

  /** mofs_rename_core once no other node has the new name. */
  method FinishRename(v: Volume, m: nat, dir: bool, p: nat, was: Block, q: nat, name: Block, now: nat, ghost t: Nest)
    returns (err: Errno, grew: bool, ghost t': Nest, ghost j: nat)
    requires Sys(v, t) && now < LIMIT64 && IsParent(v.geo, View(v), p) && IsParent(v.geo, View(v), q)
      && StandsAt(View(v), t, m, p, was)
    requires LeafName(was) && LeafName(name) && !IsDots(was) && !IsDots(name) && dir == NsOf(View(v))[m].Dir?
    requires NoName(EntsIn(View(v), q), name)
    modifies v, v.io.Repr()
    ensures v.Valid() && (grew <==> err == Ok && old(p != q && !HasSlot(View(v), q)))
      && (grew ==> Ownerless(v.geo, v.vol))
    ensures !grew ==> Sys(v, t')
    ensures if IsAncestor(t.parent, m, q) then err == EINVAL && View(v) == old(View(v)) && t' == t && !grew
            else err == if old(q == p || CanLink(v.geo, View(v), q, View(v).free)) then Ok else ENOSPC
    ensures IsAncestor(t.parent, m, q) ==> dir
    ensures !grew && err == ENOSPC ==> Moved(old(View(v)), View(v), t, t', m, p, j, was)
    ensures !grew && err == Ok ==> Moved(old(View(v)), View(v), t, t', m, q, j, name)
    ensures !grew && err == Ok ==> MoveTimes(old(View(v)), View(v), p, q, m, now)
    ensures err == ENOSPC ==> ChangedAt(old(View(v)).inodes[p], View(v).inodes[p], now)
  {
    hide ChangedAt, MoveTimes, View, Good, FsSized, EntsOf, Bit, TreeBut, CString, ShapedAt, Live, Tidy, IsDots,
      GraphNode, Moved, IsAncestor, NoName, HasSlot, CanLink, AllUsed, OnDisk, Backs;
    grew, t', j := false, t, 0;
    ghost var f := View(v);
    if dir {
      var above;
      err, above := IsAbove(v, m, q, t);
      GoodValid(v);
      if above {
        err := EINVAL;
        return;
      }
    } else {
      LeafHere(v.geo, f, m);
      DirNode(v.geo, f, q);
      LeafNotAbove(NsOf(f), t, m, q);
    }
    NotAboveParent(NsOf(f), t, m);
    err, grew, t', j := MoveEntry(v, m, dir, p, was, q, name, now, t);
    if !grew {
      if err == Ok {
        MovedTree(f, View(v), t, t', m, q, j, name);
      } else {
        MovedTree(f, View(v), t, t', m, p, j, was);
      }
    }
  }

  /** What a rename of node `m` returns, given the node `d` that has the new name already, if there is one. */
  ghost function MoveVerdict(g: Geometry, f: Fs, t: Nest, m: nat, p: nat, q: nat, taken: bool, d: nat): Errno
    requires FsSized(g, f) && PtrsPerNode(g.blkSize) > 0 && m < g.inodeNum && q < g.inodeNum
      && (taken ==> d < g.inodeNum)
  {
    if taken && d == m then Ok
    else if taken && ReplaceErr(f, IsDir(f.inodes[m]), d) != Ok then ReplaceErr(f, IsDir(f.inodes[m]), d)
    else if IsAncestor(t.parent, m, q) then EINVAL
    else if taken || q == p || CanLink(g, f, q, f.free) then Ok
    else ENOSPC
  }

  /** mofs_rename_core from the point where both names are looked up. */
  method RenameNode(v: Volume, m: nat, p: nat, was: Block, q: nat, name: Block, taken: bool, d: nat, now: nat,
                    ghost t: Nest)
    returns (err: Errno, grew: bool, ghost t': Nest, ghost f1: Fs, ghost j: nat)
    requires Sys(v, t) && now < LIMIT64 && IsParent(v.geo, View(v), p) && IsParent(v.geo, View(v), q)
      && StandsAt(View(v), t, m, p, was)
    requires LeafName(was) && LeafName(name) && !IsDots(was) && !IsDots(name) && m < v.geo.inodeNum
      && (taken ==> d < v.geo.inodeNum)
    requires if taken then StandsAt(View(v), t, d, q, name) else NoName(EntsIn(View(v), q), name)
    modifies v, v.io.Repr()
    ensures v.Valid() && err == old(MoveVerdict(v.geo, View(v), t, m, p, q, taken, d))
    ensures grew <==> err == Ok && old(!taken && p != q && !HasSlot(View(v), q))
    ensures grew ==> Ownerless(v.geo, v.vol)
    ensures !grew ==>
      Sys(v, t') && MoveOutcome(v.geo, old(View(v)), f1, View(v), t, t', p, was, q, name, m, taken, d, j, err)
    ensures !grew ==> RenameTimes(old(View(v)), View(v), p, q, m, err, now)
  {
    hide RenameTimes, ChangedAt, MoveTimes, View, Good, FsSized, EntsOf, Bit, TreeBut, CString, ShapedAt, Live, NoHit,
      Tidy, IsDots, GraphNode, Removed, Moved, IsAncestor, MoveOutcome, NoName, HasSlot, CanLink, AllUsed, ReplaceErr,
      Placed, StandsAt, OnDisk, Backs, Released;
    grew, t', j := false, t, 0;
    ghost var f := View(v);
    f1 := f;
    var rec;
    err, rec := GetInode(v, m);
    GoodValid(v);
    DirIff(v.geo, f, t, m, p, was);
    NoTimes(f, p, q, m, now);
    if taken {
      if d == m {
        UnchangedOutcome(v.geo, f, t, p, was, q, name, m, d, Ok);
        return;
      }
      err := Replace(v, m, IsDir(rec), d, q, name, now, t);
      GoodValid(v);
      if err != Ok {
        NotRefusal(f, IsDir(rec), d);
        UnchangedOutcome(v.geo, f, t, p, was, q, name, m, d, err);
        return;
      }
      f1 := View(v);
      StillStands(v.geo, f, f1, t, m, p, was, q, name, d, IsDir(rec));
      SlotLinks(v.geo, f1, q);
    }
    err, grew, t', j := FinishRename(v, m, IsDir(rec), p, was, q, name, now, t);
    if !grew {
      RenameEnds(v.geo, f, f1, View(v), t, t', p, was, q, name, m, taken, d, j, err);
      TimesAdd(v.geo, f, f1, View(v), p, q, m, d, err, now);
    }
  }

  /** A rename that moves the node changes both directories; one that is refused after the destination went, that one;
      one without room, the one it came from. */
  ghost predicate RenameTimes(f: Fs, f': Fs, p: nat, q: nat, m: nat, err: Errno, now: nat) {
    && (err == Ok && f' != f ==> MoveTimes(f, f', p, q, m, now))
    && (err == EINVAL && f' != f ==> q < |f.inodes| == |f'.inodes| && ChangedAt(f.inodes[q], f'.inodes[q], now))
    && (err == ENOSPC ==> p < |f.inodes| == |f'.inodes| && ChangedAt(f.inodes[p], f'.inodes[p], now))
  }

  lemma NoTimes(f: Fs, p: nat, q: nat, m: nat, now: nat)
    ensures forall err :: err != ENOSPC ==> RenameTimes(f, f, p, q, m, err, now)
  {
  }

  /** The change of `q` when the destination went, and the move after it. */
  lemma TimesAdd(g: Geometry, f: Fs, f1: Fs, f': Fs, p: nat, q: nat, m: nat, d: nat, err: Errno, now: nat)
    requires f1 == f || (Released(g, f, f1, q, d) && ChangedAt(f.inodes[q], f1.inodes[q], now) && m != d && p != d)
    requires p < |f1.inodes| && q < |f1.inodes| && m < |f1.inodes|
    requires err == Ok || err == EINVAL || err == ENOSPC
    requires err == Ok ==> MoveTimes(f1, f', p, q, m, now)
    requires err == EINVAL ==> f' == f1
    requires err == ENOSPC ==> |f'.inodes| == |f1.inodes| && ChangedAt(f1.inodes[p], f'.inodes[p], now)
    ensures RenameTimes(f, f', p, q, m, err, now)
  {
    hide Cost;
  }

  lemma DirIff(g: Geometry, f: Fs, t: Nest, m: nat, p: nat, was: Block)
    requires Shaped(g, f) && Tree(NsOf(f), t) && StandsAt(f, t, m, p, was) && m < g.inodeNum
    ensures m < |NsOf(f)| && (NsOf(f)[m].Dir? <==> IsDir(f.inodes[m])) && |f.inodes| == g.inodeNum
  {
    hide EntsOf, Bit, TreeBut, ShapedAt;
  }

  /** mofs_rename_core from `was` in directory `p` to `name` in directory `q`: however it ends, the tree stands. */
  method Rename(v: Volume, p: nat, was: Block, q: nat, name: Block, now: nat, ghost t: Nest)
    returns (err: Errno, grew: bool, ghost t': Nest, ghost f1: Fs, ghost m: nat, ghost d: nat, ghost j: nat)
    requires Sys(v, t) && now < LIMIT64 && IsParent(v.geo, View(v), p) && IsParent(v.geo, View(v), q) && LeafName(was)
      && LeafName(name)
    modifies v, v.io.Repr()
    ensures v.Valid() && (grew ==> Ownerless(v.geo, v.vol))
    ensures grew <==> err == Ok && old(RenameGrows(View(v), p, was, q, name))
    ensures !grew ==>
      Sys(v, t') && RenameOutcome(v.geo, old(View(v)), f1, View(v), t, t', p, was, q, name, m, d, j, err)
    ensures RenameVerdict(v.geo, old(View(v)), t, p, was, q, name, m, d, err)
    ensures err == EINVAL ==> (View(v) != old(View(v)) <==> old(Swallows(View(v), t, p, was, q, name, m, d)))
    ensures !grew ==> RenameTimes(old(View(v)), View(v), p, q, m, err, now)
  {
    hide RenameTimes, View, Good, FsSized, EntsOf, Bit, TreeBut, CString, ShapedAt, Live, NoHit, Tidy, IsDots,
      GraphNode, StandsAt, IsAncestor, RenameOutcome, MoveOutcome, RenameVerdict, MoveVerdict, NoName, HasSlot, AllUsed,
      OnDisk, Backs, ReplaceErr;
    grew, t', m, d, j := false, t, 0, 0, 0;
    ghost var f := View(v);
    f1 := f;
    GoodValid(v);
    ParentIs(v.geo, f, t, p);
    ParentIs(v.geo, f, t, q);
    var src, dst;
    ghost var e;
    err, src, e := Find(v, p, was);
    GoodValid(v);
    if err != Ok {
      EarlyVerdict(v.geo, f, t, p, was, q, name, m, d);
      EarlyOutcome(v.geo, f, t, p, was, q, name, m, d, err);
      NoTimes(f, p, q, m, now);
      return;
    }
    NameThere(EntsIn(f, p), was, e);
    if IsDots(was) {
      err := EINVAL;
      EarlyVerdict(v.geo, f, t, p, was, q, name, m, d);
      EarlyOutcome(v.geo, f, t, p, was, q, name, m, d, err);
      NoTimes(f, p, q, m, now);
      return;
    }
    StandsThere(v.geo, f, t, p, was, e, src);
    m := src;
    var found;
    found, dst, e := Find(v, q, name);
    GoodValid(v);
    if IsDots(name) {
      err := EINVAL;
      EarlyVerdict(v.geo, f, t, p, was, q, name, m, d);
      EarlyOutcome(v.geo, f, t, p, was, q, name, m, d, err);
      NoTimes(f, p, q, m, now);
      return;
    }
    if found == Ok {
      NameThere(EntsIn(f, q), name, e);
      StandsThere(v.geo, f, t, q, name, e, dst);
    } else {
      MissingName(EntsIn(f, q), name);
    }
    d := dst;
    LateVerdict(v.geo, f, t, p, was, q, name, m, d, found == Ok);
    err, grew, t', f1, j := RenameNode(v, src, p, was, q, name, found == Ok, dst, now, t);
    if !grew {
      LateOutcome(v.geo, f, f1, View(v), t, t', p, was, q, name, m, found == Ok, d, j, err);
      RefusalExact(v.geo, f, f1, View(v), t, t', p, was, q, name, m, d, j, err);
    }
  }

  /** The rename is to put node `m` below itself, in place of another node that can be replaced. */
  ghost predicate Swallows(f: Fs, t: Nest, p: nat, was: Block, q: nat, name: Block, m: nat, d: nat)
    requires p < |f.blocks| && q < |f.blocks|
  {
    && !NoHit(EntsIn(f, p), was, false) && !NoHit(EntsIn(f, q), name, false) && !IsDots(was) && !IsDots(name)
    && m < |f.inodes| == |f.blocks| && d < |f.inodes| && d != m && ReplaceErr(f, IsDir(f.inodes[m]), d) == Ok
    && IsAncestor(t.parent, m, q)
  }

  /** The new entry goes to another directory that has no slot left for it. */
  ghost predicate RenameGrows(f: Fs, p: nat, was: Block, q: nat, name: Block)
    requires p < |f.blocks| && q < |f.blocks|
  {
    && !NoHit(EntsIn(f, p), was, false) && !IsDots(was) && !IsDots(name) && NoHit(EntsIn(f, q), name, false)
    && p != q && !HasSlot(f, q)
  }

  /** What a rename returns: the first check that fails decides. */
  ghost predicate RenameVerdict(g: Geometry, f: Fs, t: Nest, p: nat, was: Block, q: nat, name: Block, m: nat, d: nat,
                                err: Errno)
    requires FsSized(g, f) && PtrsPerNode(g.blkSize) > 0 && p < g.inodeNum && q < g.inodeNum
  {
    if NoHit(EntsIn(f, p), was, false) then err == ENOENT
    else if IsDots(was) || IsDots(name) then err == EINVAL
    else
      var taken := !NoHit(EntsIn(f, q), name, false);
      && m < g.inodeNum && StandsAt(f, t, m, p, was) && (taken ==> d < g.inodeNum && StandsAt(f, t, d, q, name))
      && err == MoveVerdict(g, f, t, m, p, q, taken, d)
  }

  lemma EarlyVerdict(g: Geometry, f: Fs, t: Nest, p: nat, was: Block, q: nat, name: Block, m: nat, d: nat)
    requires FsSized(g, f) && PtrsPerNode(g.blkSize) > 0 && p < g.inodeNum && q < g.inodeNum
    ensures NoHit(EntsIn(f, p), was, false) ==> RenameVerdict(g, f, t, p, was, q, name, m, d, ENOENT)
    ensures !NoHit(EntsIn(f, p), was, false) && (IsDots(was) || IsDots(name)) ==>
              RenameVerdict(g, f, t, p, was, q, name, m, d, EINVAL)
  {
    hide NoHit, IsDots;
  }

  lemma LateVerdict(g: Geometry, f: Fs, t: Nest, p: nat, was: Block, q: nat, name: Block, m: nat, d: nat, taken: bool)
    requires FsSized(g, f) && PtrsPerNode(g.blkSize) > 0 && p < g.inodeNum && q < g.inodeNum && m < g.inodeNum
    requires !NoHit(EntsIn(f, p), was, false) && !IsDots(was) && !IsDots(name)
      && taken == !NoHit(EntsIn(f, q), name, false)
    requires StandsAt(f, t, m, p, was) && (taken ==> d < g.inodeNum && StandsAt(f, t, d, q, name))
    ensures RenameVerdict(g, f, t, p, was, q, name, m, d, MoveVerdict(g, f, t, m, p, q, taken, d))
  {
    hide NoHit, IsDots, MoveVerdict;
  }

  lemma LeafHere(g: Geometry, f: Fs, m: nat)
    requires Shaped(g, f) && m < g.inodeNum && !NsOf(f)[m].Dead? && !NsOf(f)[m].Dir?
    ensures NsOf(f)[m].Leaf?
  {
    hide GraphNode, ShapedAt;
  }

  lemma DirNode(g: Geometry, f: Fs, q: nat)
    requires Shaped(g, f) && IsParent(g, f, q)
    ensures NsOf(f)[q].Dir?
  {
    hide EntsOf, Bit;
    ShapedDir(g, f, q);
  }

  lemma UnchangedOutcome(g: Geometry, f: Fs, t: Nest, p: nat, was: Block, q: nat, name: Block, m: nat, d: nat,
                         err: Errno)
    requires Aligned(f) && m < |f.inodes| && d < |f.inodes| && (d == m || ReplaceErr(f, IsDir(f.inodes[m]), d) != Ok)
    ensures MoveOutcome(g, f, f, f, t, t, p, was, q, name, m, true, d, 0, err)
  {
    hide ReplaceErr;
  }

  lemma EarlyOutcome(g: Geometry, f: Fs, t: Nest, p: nat, was: Block, q: nat, name: Block, m: nat, d: nat, err: Errno)
    requires p < |f.blocks| && q < |f.blocks| && (NoHit(EntsIn(f, p), was, false) || IsDots(was) || IsDots(name))
    ensures RenameOutcome(g, f, f, f, t, t, p, was, q, name, m, d, 0, err)
  {
    hide NoHit, IsDots;
  }

  lemma LateOutcome(g: Geometry, f: Fs, f1: Fs, f': Fs, t: Nest, t': Nest, p: nat, was: Block, q: nat, name: Block,
                    m: nat, taken: bool, d: nat, j: nat, err: Errno)
    requires p < |f.blocks| && q < |f.blocks| && !NoHit(EntsIn(f, p), was, false) && !IsDots(was) && !IsDots(name)
    requires taken == !NoHit(EntsIn(f, q), name, false)
    requires MoveOutcome(g, f, f1, f', t, t', p, was, q, name, m, taken, d, j, err)
    ensures RenameOutcome(g, f, f1, f', t, t', p, was, q, name, m, d, j, err)
  {
    hide NoHit, IsDots, MoveOutcome;
  }

  /** Unlink and rmdir meet the node that stands there. */
  lemma ReplaceErrs(g: Geometry, f: Fs, t: Nest, d: nat, q: nat, name: Block)
    requires FsSized(g, f) && Shaped(g, f) && Tree(NsOf(f), t) && IsParent(g, f, q) && StandsAt(f, t, d, q, name)
    requires !IsDots(name) && name != []
    ensures d < g.inodeNum && UnlinkErr(g, f, q, name) == if IsDir(f.inodes[d]) then EISDIR else Ok
    ensures forall err :: RmdirFinds(g, f, q, name, err) ==> err == RmdirOf(f, d)
  {
    hide EntsOf, Bit, TreeBut, ShapedAt, RmdirOf, IsDots;
    ParentIs(g, f, t, q);
    var es, e := EntsIn(f, q), t.slot[d];
    NameThere(es, name, e);
    UnlinkErrIs(g, f, q, name, e, d);
    forall i | 0 <= i < |es| && es[i].name == name ensures i == e {
      TidyLive(es, i);
      TidyFound(es, name, i, e);
    }
  }

  lemma SlotLinks(g: Geometry, f: Fs, q: nat)
    requires q < |f.blocks| && PtrsPerNode(g.blkSize) > 0 && HasSlot(f, q)
    ensures CanLink(g, f, q, f.free)
  {
  }

  lemma RenameEnds(g: Geometry, f: Fs, f1: Fs, f': Fs, t: Nest, t': Nest, p: nat, was: Block, q: nat, name: Block,
                   m: nat, taken: bool, d: nat, j: nat, err: Errno)
    requires Aligned(f) && Aligned(f1) && Aligned(f') && m < |f.inodes| && (taken ==> d < |f.inodes| && d != m)
    requires if taken then
               && Shaped(g, f1) && Removed(f, f1, t, q, name, d, IsDir(f.inodes[m])) && Released(g, f, f1, q, d)
               && ReplaceErr(f, IsDir(f.inodes[m]), d) == Ok
             else f1 == f
    requires if IsAncestor(t.parent, m, q) then f' == f1 && t' == t
             else if err == Ok then Moved(f1, f', t, t', m, q, j, name)
             else f1 == f && Moved(f, f', t, t', m, p, j, was)
    ensures MoveOutcome(g, f, f1, f', t, t', p, was, q, name, m, taken, d, j, err)
  {
    hide Removed, Moved, IsAncestor, ReplaceErr, Released;
  }

  /** A rename has cost the destination without taking effect exactly if it was to put a directory below itself in place
      of an empty directory; else a refusal changes nothing. */
  lemma RefusalExact(g: Geometry, f: Fs, f1: Fs, f': Fs, t: Nest, t': Nest, p: nat, was: Block, q: nat, name: Block,
                     m: nat, d: nat, j: nat, err: Errno)
    requires FsSized(g, f) && PtrsPerNode(g.blkSize) > 0 && p < g.inodeNum && q < g.inodeNum
    requires !NoHit(EntsIn(f, p), was, false) && !IsDots(was) && !IsDots(name)
    requires RenameVerdict(g, f, t, p, was, q, name, m, d, err)
      && RenameOutcome(g, f, f1, f', t, t', p, was, q, name, m, d, j, err)
    ensures err == EINVAL && f' != f <==> Swallows(f, t, p, was, q, name, m, d)
    ensures err == EINVAL && f' != f ==> Aligned(f') && Removed(f, f', t, q, name, d, IsDir(f.inodes[m]))
  {
    hide NoHit, IsDots, Moved, IsAncestor, ReplaceErr, StandsAt, CanLink;
    var taken := !NoHit(EntsIn(f, q), name, false);
    NotRefusal(f, IsDir(f.inodes[m]), if taken then d else m);
    if taken && d != m && ReplaceErr(f, IsDir(f.inodes[m]), d) == Ok {
      RemovedDiffers(f, f1, t, q, name, d, IsDir(f.inodes[m]));
    }
  }

  lemma NotRefusal(f: Fs, dir: bool, d: nat)
    requires d < |f.inodes| == |f.blocks|
    ensures ReplaceErr(f, dir, d) != EINVAL && ReplaceErr(f, dir, d) != ENOSPC
  {
  }

  lemma RemovedDiffers(f: Fs, f1: Fs, t: Nest, q: nat, name: Block, d: nat, dir: bool)
    requires Aligned(f) && Aligned(f1) && Removed(f, f1, t, q, name, d, dir)
    ensures f1 != f
  {
    hide GraphNode, Placed, Childless, RemoveKeeps;
    assert NsOf(f1)[d].Dead? && !NsOf(f)[d].Dead?;
  }
}
