/** What the volume says about the directory graph. */
module TreeShape {
  import opened Bytes
  import opened Layout
  import opened Volumes
  import opened FileData
  import opened FileOps
  import opened Dirents
  import opened DirOps
  import opened Namespace

  ghost predicate Alive(f: Fs, n: nat)
    requires n < |f.ibits|
  {
    n == ROOT_INODE || (n > ROOT_INODE && f.ibits[n])
  }

  ghost function GraphNode(f: Fs, n: nat): Node
    requires n < |f.ibits| == |f.inodes| == |f.blocks|
  {
    if !Alive(f, n) then Dead
    else if IsDir(f.inodes[n]) then Dir(EntsIn(f, n), f.inodes[n].links)
    else Leaf
  }

  ghost function NsOf(f: Fs): (ns: Ns)
    requires |f.ibits| == |f.inodes| == |f.blocks|
    ensures |ns| == |f.inodes| && forall n :: 0 <= n < |ns| ==> ns[n] == GraphNode(f, n)
  {
    seq(|f.inodes|, n requires 0 <= n < |f.inodes| => GraphNode(f, n))
  }

  /** A free inode is zeroed and has no blocks, a directory is one block, a file has the blocks its size calls for. */
  ghost predicate ShapedAt(g: Geometry, f: Fs, n: nat)
    requires n < |f.ibits| == |f.inodes| == |f.blocks|
  {
    if !Alive(f, n) then f.blocks[n] == [] && f.inodes[n] == ZeroInode()
    else if IsDir(f.inodes[n]) then |f.blocks[n]| == 1 && f.inodes[n].size == g.blkSize
    else SizeOk(g, f, n)
  }

  ghost predicate Shaped(g: Geometry, f: Fs) {
    && |f.ibits| == |f.inodes| == |f.blocks| == g.inodeNum
    && forall n :: 0 <= n < g.inodeNum ==> ShapedAt(g, f, n)
  }

  lemma {:induction false} BitDiv(x: nat, k: nat)
    ensures Bit(x, k) <==> (x / Pow2(k)) % 2 == 1
  {
    if k > 0 {
      BitDiv(x / 2, k - 1);
      DivDiv(x, Pow2(k - 1));
    }
  }

  lemma DivDiv(x: nat, p: nat)
    requires p > 0
    ensures (x / 2) / p == x / (2 * p)
  {
    var q, r := (x / 2) / p, (x / 2) % p;
    assert x / 2 == q * p + r;
    assert x == 2 * (x / 2) + x % 2;
    assert 2 * (q * p) == q * (2 * p);
    DivModUnique(x, 2 * p, q, 2 * r + x % 2);
  }

  const FTYPE_REG: nat := 0x8000
  const FTYPE_DIR: nat := 0x4000

  lemma Pow14()
    ensures Pow2(14) == 16384
  {
    assert Pow2(2) == 4;
    assert Pow2(4) == 16;
    assert Pow2(6) == 64;
    assert Pow2(8) == 256;
    assert Pow2(10) == 1024;
    assert Pow2(12) == 4096;
  }

  lemma ModeBits(perm: nat)
    requires perm < 512
    ensures Bit(FTYPE_DIR + perm, 14) && !Bit(FTYPE_REG + perm, 14) && !Bit(0, 14)
  {
    hide Bit, Pow2;
    Pow14();
    BitDiv(FTYPE_DIR + perm, 14);
    BitDiv(FTYPE_REG + perm, 14);
    BitDiv(0, 14);
  }

  lemma ShapedDir(g: Geometry, f: Fs, n: nat)
    requires Shaped(g, f) && n < g.inodeNum && IsDir(f.inodes[n])
    ensures DirOk(g, f, n) && |f.blocks[n]| == 1 && Alive(f, n) && f.inodes[n].size == g.blkSize
  {
    hide Bit;
    ModeBits(0);
    assert ShapedAt(g, f, n);
  }

  /** One record and its blocks differ. */
  ghost predicate OneInode(f: Fs, f': Fs, n: nat) {
    && n < |f.inodes| == |f.ibits| == |f.blocks|
    && |f'.inodes| == |f.inodes| && |f'.ibits| == |f.ibits| && |f'.blocks| == |f.blocks|
    && (forall m :: 0 <= m < |f.inodes| && m != n ==>
      f'.inodes[m] == f.inodes[m] && f'.ibits[m] == f.ibits[m] && f'.blocks[m] == f.blocks[m])
  }

  /** A record in which at most the link count and the times of change differ. */
  predicate SameRecord(a: Inode, b: Inode) {
    b == a.(links := b.links, mtime := b.mtime, ctime := b.ctime)
  }

  lemma OneInodeNs(g: Geometry, f: Fs, f': Fs, n: nat)
    requires OneInode(f, f', n) && Shaped(g, f)
    ensures NsOf(f') == NsOf(f)[n := GraphNode(f', n)]
    ensures ShapedAt(g, f', n) ==> Shaped(g, f')
  {
    hide EntsOf, Bit, IsDir;
    forall m | 0 <= m < |f.inodes| && m != n ensures GraphNode(f', m) == GraphNode(f, m) && ShapedAt(g, f', m) {
      assert ShapedAt(g, f, m);
    }
  }

  /** A slot written in a directory is that slot written in the graph. */
  lemma SlotPutNs(g: Geometry, f: Fs, f': Fs, n: nat, e: nat, x: Ent, rec: Inode)
    requires Shaped(g, f) && n < g.inodeNum && IsDir(f.inodes[n]) && SlotPut(f, f', n, e, x, rec)
    requires rec.size == f.inodes[n].size && rec.mode == f.inodes[n].mode
    ensures NsOf(f)[n] == Dir(EntsIn(f, n), f.inodes[n].links)
    ensures Shaped(g, f') && NsOf(f') == PutNs(NsOf(f), n, e, x, rec.links)
  {
    hide EntsOf, Bit;
    ShapedDir(g, f, n);
    OneInodeNs(g, f, f', n);
  }

  /** A record whose mode, size and blocks stay. */
  lemma RecordNs(g: Geometry, f: Fs, f': Fs, n: nat, rec: Inode)
    requires Shaped(g, f) && n < g.inodeNum && Alive(f, n) && f' == f.(inodes := f.inodes[n := rec])
    requires rec.size == f.inodes[n].size && rec.mode == f.inodes[n].mode
    ensures Shaped(g, f')
    ensures NsOf(f') == NsOf(f)[n := if IsDir(rec) then Dir(EntsIn(f, n), rec.links) else Leaf]
  {
    hide EntsOf, Bit, CeilDiv;
    assert ShapedAt(g, f, n);
    OneInodeNs(g, f, f', n);
  }

  // ---------------------------------------------------------------- the two views of a name

  lemma AbsentNoName(es: seq<Ent>, name: Block)
    ensures NoName(es, name) <==> Absent(es, name)
  {
  }

  /** In a tidy directory, a name that is not empty matches a slot only if that slot is in use. */
  lemma TidyHit(es: seq<Ent>, name: Block)
    requires Tidy(es) && name != []
    ensures NoHit(es, name, false) <==> Absent(es, name)
    ensures NoHit(es, name, true) <==> Absent(es, name)
  {
    if !Absent(es, name) {
      var i :| 0 <= i < |es| && Live(es[i]) && es[i].name == name;
      assert Hit(es[i], name, true);
    }
  }

  /** The slot of a name is unique. */
  lemma TidyFound(es: seq<Ent>, name: Block, i: nat, j: nat)
    requires Tidy(es) && i < |es| && j < |es| && Live(es[i]) && Live(es[j]) && es[i].name == es[j].name
    ensures i == j
  {
  }

  // ---------------------------------------------------------------- directories as maps

  /** The map from names to inode numbers a directory stands for. */
  ghost function NameMap(es: seq<Ent>): map<Block, nat>
    requires Tidy(es)
  {
    map e | e in es && Live(e) :: e.name := e.ino
  }

  lemma MapLookup(es: seq<Ent>, name: Block)
    requires Tidy(es)
    ensures name in NameMap(es) <==> !Absent(es, name)
    ensures forall i :: 0 <= i < |es| && Live(es[i]) && es[i].name == name ==>
      name in NameMap(es) && NameMap(es)[name] == es[i].ino
  {
    if !Absent(es, name) {
      var i :| 0 <= i < |es| && Live(es[i]) && es[i].name == name;
      assert es[i] in es;
    }
  }

  /** What one slot does to the lookup of a name. */
  lemma LookupPut(es: seq<Ent>, j: nat, e: Ent, name: Block)
    requires Tidy(es) && j < |es| && Tidy(es[j := e])
    requires e == NONE || (!Live(es[j]) && Live(e))
    ensures Live(e) ==> (name in NameMap(es[j := e]) <==> name == e.name || name in NameMap(es))
    ensures e == NONE && Live(es[j]) ==> (name in NameMap(es[j := e]) <==> name != es[j].name && name in NameMap(es))
    ensures name in NameMap(es[j := e]) && !(Live(e) && name == e.name) ==>
      name in NameMap(es) && NameMap(es[j := e])[name] == NameMap(es)[name]
    ensures Live(e) ==> e.name in NameMap(es[j := e]) && NameMap(es[j := e])[e.name] == e.ino
  {
    hide NameMap, Tidy;
    var r := es[j := e];
    MapLookup(es, name);
    MapLookup(r, name);
    MapLookup(r, e.name);
    assert r[j] == e;
    if i :| 0 <= i < |es| && i != j && Live(es[i]) && es[i].name == name {
      assert r[i] == es[i];
    }
    if i :| 0 <= i < |es| && i != j && Live(r[i]) && r[i].name == name {
      assert r[i] == es[i];
    }
    if Live(es[j]) && es[j].name == name {
      OnlyOne(es, j);
    }
  }

  lemma OnlyOne(es: seq<Ent>, j: nat)
    requires Tidy(es) && j < |es| && Live(es[j])
    ensures forall i :: 0 <= i < |es| && i != j && Live(es[i]) ==> es[i].name != es[j].name
  {
  }

  /** Writing an entry into a slot not in use inserts the name. */
  lemma MapInsert(es: seq<Ent>, j: nat, e: Ent)
    requires Tidy(es) && j < |es| && !Live(es[j]) && Live(e) && Absent(es, e.name)
    ensures Tidy(es[j := e]) && NameMap(es[j := e]) == NameMap(es)[e.name := e.ino]
  {
    hide NameMap;
    assert Tidy(es[j := e]);
    var was, now := NameMap(es), NameMap(es[j := e]);
    forall name ensures name in now <==> name == e.name || name in was {
      LookupPut(es, j, e, name);
    }
    forall name | name in now ensures now[name] == if name == e.name then e.ino else was[name] {
      LookupPut(es, j, e, name);
    }
  }

  /** A tombstone deletes the name. */
  lemma MapDelete(es: seq<Ent>, j: nat)
    requires Tidy(es) && j < |es| && Live(es[j])
    ensures Tidy(es[j := NONE]) && NameMap(es[j := NONE]) == NameMap(es) - {es[j].name}
  {
    hide NameMap;
    assert Tidy(es[j := NONE]);
    var was, now := NameMap(es), NameMap(es[j := NONE]);
    forall name ensures name in now <==> name != es[j].name && name in was {
      LookupPut(es, j, NONE, name);
    }
    forall name | name in now ensures now[name] == was[name] {
      LookupPut(es, j, NONE, name);
    }
  }
}
