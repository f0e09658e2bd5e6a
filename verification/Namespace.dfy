/** The directory graph: one parent entry per node, `..` naming it, links counting child directories, all hanging from
    the root. */
module Namespace {
  import opened Bytes
  import opened Layout
  import opened Dirents
  import opened Lru

  /** What the volume keeps for one inode number. */
  datatype Node = Dead | Leaf | Dir(ents: seq<Ent>, links: nat)

  type Ns = seq<Node>

  /** Ghost bookkeeping: the directory and the slot that hold a node's entry. */
  datatype Nest = Nest(parent: seq<nat>, slot: seq<nat>)

  predicate Real(e: Ent) {
    Live(e) && !IsDots(e.name)
  }

  ghost predicate Absent(es: seq<Ent>, name: Block) {
    forall i :: 0 <= i < |es| ==> !(Live(es[i]) && es[i].name == name)
  }

  /** Slots not in use are zeroed; no two slots in use carry one name. */
  ghost predicate Tidy(es: seq<Ent>) {
    && (forall i :: 0 <= i < |es| ==> es[i] == NONE || Live(es[i]))
    && (forall i, j :: 0 <= i < j < |es| && Live(es[i]) && Live(es[j]) ==> es[i].name != es[j].name)
  }

  /** The chain of parents from `m` ends in at most `k` steps, at the root or at `x`. */
  ghost predicate Up(parent: seq<nat>, x: int, m: nat, k: nat)
    decreases k
  {
    m == ROOT_INODE || m == x || (k > 0 && m < |parent| && Up(parent, x, parent[m], k - 1))
  }

  ghost predicate Rooted(parent: seq<nat>, x: int, m: nat) {
    exists k: nat :: Up(parent, x, m, k)
  }

  ghost predicate IsKid(ns: Ns, parent: seq<nat>, x: int, d: nat, m: nat)
    requires m < |ns| == |parent|
  {
    m != ROOT_INODE && m != x && ns[m].Dir? && parent[m] == d
  }

  /** Child directories of `d` among the first `n` inodes. */
  ghost function Kids(ns: Ns, parent: seq<nat>, x: int, d: nat, n: nat): nat
    requires n <= |ns| == |parent|
  {
    if n == 0 then 0 else Kids(ns, parent, x, d, n - 1) + if IsKid(ns, parent, x, d, n - 1) then 1 else 0
  }

  /** Node `m` has its entry where the bookkeeping says. */
  ghost predicate Placed(ns: Ns, t: Nest, m: nat)
    requires m < |ns| == |t.parent| == |t.slot|
  {
    var d, i := t.parent[m], t.slot[m];
    d < |ns| && ns[d].Dir? && i < |ns[d].ents| && Real(ns[d].ents[i]) && ns[d].ents[i].ino == m
  }

  /** The entry in slot `i` of `d` leads to a node that knows it. */
  ghost predicate Leads(ns: Ns, t: Nest, x: int, d: nat, i: nat)
    requires d < |ns| == |t.parent| == |t.slot| && ns[d].Dir? && i < |ns[d].ents|
  {
    var m := ns[d].ents[i].ino;
    m < |ns| && !ns[m].Dead? && m != ROOT_INODE && m != x && t.parent[m] == d && t.slot[m] == i
  }

  ghost predicate Dotted(ns: Ns, t: Nest, x: int, d: nat)
    requires d < |ns| == |t.parent| && ns[d].Dir?
  {
    var es := ns[d].ents;
    if d == ROOT_INODE then Absent(es, Dot()) && Absent(es, DotDot())
    else
      && |es| >= 2 && es[0] == Ent(Dot(), d) && es[1].name == DotDot() && es[1].ino != 0
      && (d != x ==> es[1].ino == t.parent[d])
  }

  ghost predicate Base(ns: Ns, t: Nest, x: int) {
    && ROOT_INODE < |ns| == |t.parent| == |t.slot|
    && ns[0].Dead? && ns[1].Dead? && ns[ROOT_INODE].Dir? && x != ROOT_INODE
  }

  ghost predicate AllLead(ns: Ns, t: Nest, x: int) {
    |ns| == |t.parent| == |t.slot| &&
    forall d, i :: 0 <= d < |ns| && ns[d].Dir? && 0 <= i < |ns[d].ents| && Real(ns[d].ents[i]) ==> Leads(ns, t, x, d, i)
  }

  ghost predicate AllPlaced(ns: Ns, t: Nest, x: int) {
    |ns| == |t.parent| == |t.slot| &&
    forall m :: 0 <= m < |ns| && m != ROOT_INODE && m != x && !ns[m].Dead? ==> Placed(ns, t, m)
  }

  ghost predicate AllTidy(ns: Ns) {
    forall d :: 0 <= d < |ns| && ns[d].Dir? ==> Tidy(ns[d].ents)
  }

  ghost predicate AllDotted(ns: Ns, t: Nest, x: int) {
    |ns| == |t.parent| && forall d :: 0 <= d < |ns| && ns[d].Dir? ==> Dotted(ns, t, x, d)
  }

  /** A directory has two links and one for each child directory. */
  ghost predicate AllLinked(ns: Ns, t: Nest, x: int) {
    |ns| == |t.parent| && forall d :: 0 <= d < |ns| && ns[d].Dir? ==> ns[d].links == 2 + Kids(ns, t.parent, x, d, |ns|)
  }

  ghost predicate AllRooted(ns: Ns, t: Nest, x: int) {
    forall m :: 0 <= m < |ns| && !ns[m].Dead? ==> Rooted(t.parent, x, m)
  }

  /** The tree invariant, with node `x` cut loose from its parent (`x == -1`: no node is). */
  ghost predicate TreeBut(ns: Ns, t: Nest, x: int) {
    && Base(ns, t, x) && AllLead(ns, t, x) && AllPlaced(ns, t, x) && AllTidy(ns) && AllDotted(ns, t, x)
    && AllLinked(ns, t, x) && AllRooted(ns, t, x)
  }

  /** The directory graph is a tree rooted at inode 2. */
  ghost predicate Tree(ns: Ns, t: Nest) {
    TreeBut(ns, t, -1)
  }

  // ---------------------------------------------------------------- counting

  lemma {:induction false} KidsSame(ns: Ns, parent: seq<nat>, x: int, ns': Ns, parent': seq<nat>, x': int, d: nat,
                                    n: nat)
    requires n <= |ns| == |parent| == |ns'| == |parent'|
    requires forall m :: 0 <= m < n ==> IsKid(ns, parent, x, d, m) == IsKid(ns', parent', x', d, m)
    ensures Kids(ns, parent, x, d, n) == Kids(ns', parent', x', d, n)
  {
    hide IsKid;
    if n > 0 {
      KidsSame(ns, parent, x, ns', parent', x', d, n - 1);
    }
  }

  /** One child more. */
  lemma {:induction false} KidsOneMore(ns: Ns, parent: seq<nat>, x: int, ns': Ns, parent': seq<nat>, x': int, d: nat,
                                       n: nat, m: nat)
    requires n <= |ns| == |parent| == |ns'| == |parent'|
    requires m < n && !IsKid(ns, parent, x, d, m) && IsKid(ns', parent', x', d, m)
    requires forall i :: 0 <= i < n && i != m ==> IsKid(ns, parent, x, d, i) == IsKid(ns', parent', x', d, i)
    ensures Kids(ns', parent', x', d, n) == Kids(ns, parent, x, d, n) + 1
  {
    hide IsKid;
    if m == n - 1 {
      KidsSame(ns, parent, x, ns', parent', x', d, n - 1);
    } else {
      KidsOneMore(ns, parent, x, ns', parent', x', d, n - 1, m);
    }
  }

  // ---------------------------------------------------------------- chains of parents

  lemma {:induction false} UpMore(parent: seq<nat>, x: int, m: nat, k: nat, l: nat)
    requires Up(parent, x, m, k) && k <= l
    ensures Up(parent, x, m, l)
    decreases k
  {
    if m != ROOT_INODE && m != x {
      UpMore(parent, x, parent[m], k - 1, l - 1);
    }
  }

  /** Cutting a node loose: every chain still ends, at the root or at that node. */
  lemma {:induction false} UpCut(parent: seq<nat>, m: nat, k: nat, x: nat)
    requires Up(parent, -1, m, k)
    ensures Up(parent, x, m, k)
    decreases k
  {
    if m != ROOT_INODE {
      UpCut(parent, parent[m], k - 1, x);
    }
  }

  /** The chain from `m` meets `a`. */
  ghost predicate OnPath(parent: seq<nat>, a: nat, m: nat, k: nat)
    decreases k
  {
    m == a || (m != ROOT_INODE && k > 0 && m < |parent| && OnPath(parent, a, parent[m], k - 1))
  }

  ghost predicate IsAncestor(parent: seq<nat>, a: nat, m: nat) {
    exists k: nat :: OnPath(parent, a, m, k)
  }

  /** A chain that does not meet `x` does not change when `x` moves. */
  lemma {:induction false} UpAway(parent: seq<nat>, x: nat, q: nat, m: nat, k: nat)
    requires Up(parent, x, m, k) && !IsAncestor(parent, x, m) && x < |parent|
    ensures Up(parent[x := q], -1, m, k)
    decreases k
  {
    assert m != x by {
      assert !OnPath(parent, x, m, 0);
    }
    if m != ROOT_INODE {
      NotAbove(parent, x, m);
      UpAway(parent, x, q, parent[m], k - 1);
    }
  }

  lemma NotAbove(parent: seq<nat>, x: nat, m: nat)
    requires !IsAncestor(parent, x, m) && m != ROOT_INODE && m < |parent|
    ensures !IsAncestor(parent, x, parent[m])
  {
    if IsAncestor(parent, x, parent[m]) {
      var k: nat :| OnPath(parent, x, parent[m], k);
      assert OnPath(parent, x, m, k + 1);
    }
  }

  /** Hanging `x` below `q`: a chain that ended at `x` goes on along the chain of `q`. */
  lemma {:induction false} UpJoin(parent: seq<nat>, x: nat, q: nat, m: nat, k: nat, kq: nat)
    requires Up(parent, x, m, k) && x < |parent| && Up(parent[x := q], -1, q, kq)
    ensures Up(parent[x := q], -1, m, k + 1 + kq)
    decreases k
  {
    if m == ROOT_INODE {
    } else if m == x {
      UpMore(parent[x := q], -1, q, kq, k + kq);
    } else {
      UpJoin(parent, x, q, parent[m], k - 1, kq);
    }
  }

  // ---------------------------------------------------------------- one slot

  /** Slot `i` of directory `p` became `e`, its link count `links`. */
  function PutNs(ns: Ns, p: nat, i: nat, e: Ent, links: nat): (r: Ns)
    requires p < |ns| && ns[p].Dir? && i < |ns[p].ents|
    ensures |r| == |ns| && forall d :: 0 <= d < |ns| ==> r[d].Dir? == ns[d].Dir? && r[d].Dead? == ns[d].Dead?
  {
    ns[p := Dir(ns[p].ents[i := e], links)]
  }

  lemma TidyPut(ns: Ns, p: nat, i: nat, e: Ent, links: nat)
    requires AllTidy(ns) && p < |ns| && ns[p].Dir? && i < |ns[p].ents|
    requires e == NONE || (Live(e) && !Live(ns[p].ents[i]) && Absent(ns[p].ents, e.name))
    ensures AllTidy(PutNs(ns, p, i, e, links))
  {
    assert Tidy(ns[p].ents);
    assert Tidy(ns[p].ents[i := e]);
  }

  lemma DottedPut(ns: Ns, t: Nest, x: int, p: nat, i: nat, e: Ent, links: nat)
    requires Base(ns, t, x) && AllDotted(ns, t, x) && p < |ns| && ns[p].Dir? && i < |ns[p].ents|
    requires !IsDots(e.name) && !(Live(ns[p].ents[i]) && IsDots(ns[p].ents[i].name))
    ensures AllDotted(PutNs(ns, p, i, e, links), t, x)
  {
    var ns' := PutNs(ns, p, i, e, links);
    forall d | 0 <= d < |ns'| && ns'[d].Dir? ensures Dotted(ns', t, x, d) {
      assert Dotted(ns, t, x, d);
      if d == p && d != ROOT_INODE {
        assert Live(ns[d].ents[0]) && Live(ns[d].ents[1]);
      }
    }
  }

  lemma KidsPut(ns: Ns, parent: seq<nat>, x: int, p: nat, i: nat, e: Ent, links: nat, d: nat)
    requires p < |ns| == |parent| && ns[p].Dir? && i < |ns[p].ents|
    ensures Kids(PutNs(ns, p, i, e, links), parent, x, d, |ns|) == Kids(ns, parent, x, d, |ns|)
  {
    KidsSame(ns, parent, x, PutNs(ns, p, i, e, links), parent, x, d, |ns|);
  }

  // ---------------------------------------------------------------- cutting loose

  /** Links of the parent once `m` is no longer its child. */
  function Less(ns: Ns, m: nat, p: nat): nat
    requires m < |ns| && p < |ns| && ns[p].Dir?
  {
    if ns[m].Dir? && ns[p].links > 0 then ns[p].links - 1 else ns[p].links
  }

  /** The graph after the entry of `m` became a tombstone and its parent lost the link of a child directory. */
  ghost function DetachNs(ns: Ns, t: Nest, m: nat): Ns
    requires m < |ns| == |t.parent| == |t.slot| && Placed(ns, t, m)
  {
    PutNs(ns, t.parent[m], t.slot[m], NONE, Less(ns, m, t.parent[m]))
  }

  lemma CutKids(ns: Ns, t: Nest, m: nat, d: nat)
    requires Base(ns, t, -1) && m < |ns| && m != ROOT_INODE
    ensures Kids(ns, t.parent, -1, d, |ns|)
            == Kids(ns, t.parent, m, d, |ns|) + if ns[m].Dir? && t.parent[m] == d then 1 else 0
  {
    if ns[m].Dir? && t.parent[m] == d {
      KidsOneMore(ns, t.parent, m, ns, t.parent, -1, d, |ns|, m);
    } else {
      KidsSame(ns, t.parent, m, ns, t.parent, -1, d, |ns|);
    }
  }

  lemma DetachLinked(ns: Ns, t: Nest, m: nat)
    requires Base(ns, t, -1) && AllLinked(ns, t, -1) && m < |ns| && m != ROOT_INODE && Placed(ns, t, m)
    ensures AllLinked(DetachNs(ns, t, m), t, m)
  {
    hide Placed, Kids, PutNs;
    var p, i, ns' := t.parent[m], t.slot[m], DetachNs(ns, t, m);
    PlacedParts(ns, t, m);
    forall d | 0 <= d < |ns'| && ns'[d].Dir? ensures ns'[d].links == 2 + Kids(ns', t.parent, m, d, |ns'|) {
      KidsPut(ns, t.parent, m, p, i, NONE, Less(ns, m, p), d);
      CutKids(ns, t, m, d);
      PutLinks(ns, p, i, NONE, Less(ns, m, p), d);
    }
  }

  lemma PlacedParts(ns: Ns, t: Nest, m: nat)
    requires m < |ns| == |t.parent| == |t.slot| && Placed(ns, t, m)
    ensures t.parent[m] < |ns| && ns[t.parent[m]].Dir? && t.slot[m] < |ns[t.parent[m]].ents|
      && Real(ns[t.parent[m]].ents[t.slot[m]])
  {
  }

  lemma PutLinks(ns: Ns, p: nat, i: nat, e: Ent, links: nat, d: nat)
    requires p < |ns| && ns[p].Dir? && i < |ns[p].ents| && d < |ns| && ns[d].Dir?
    ensures PutNs(ns, p, i, e, links)[d].links == if d == p then links else ns[d].links
  {
  }

  /** Taking the entry of `m` away leaves a tree with `m` loose. */
  lemma DetachTree(ns: Ns, t: Nest, m: nat)
    requires Tree(ns, t) && m < |ns| && m != ROOT_INODE && !ns[m].Dead?
    ensures Placed(ns, t, m) && TreeBut(DetachNs(ns, t, m), t, m)
  {
    hide Rooted, Kids, Tidy, Dotted, AllTidy, AllDotted, AllLinked, AllRooted;
    var p, i := t.parent[m], t.slot[m];
    assert Placed(ns, t, m);
    TidyPut(ns, p, i, NONE, Less(ns, m, p));
    DottedCut(ns, t, m);
    DottedPut(ns, t, m, p, i, NONE, Less(ns, m, p));
    DetachLinked(ns, t, m);
    DetachRooted(ns, DetachNs(ns, t, m), t, m);
    DetachLead(ns, t, m);
  }

  lemma DottedCut(ns: Ns, t: Nest, m: nat)
    requires AllDotted(ns, t, -1)
    ensures AllDotted(ns, t, m)
  {
    forall d | 0 <= d < |ns| && ns[d].Dir? ensures Dotted(ns, t, m, d) {
      assert Dotted(ns, t, -1, d);
    }
  }

  lemma DetachRooted(ns: Ns, ns': Ns, t: Nest, m: nat)
    requires AllRooted(ns, t, -1) && |ns'| == |ns| && forall d :: 0 <= d < |ns| ==> ns'[d].Dead? == ns[d].Dead?
    ensures AllRooted(ns', t, m)
  {
    forall d | 0 <= d < |ns'| && !ns'[d].Dead? ensures Rooted(t.parent, m, d) {
      var k: nat :| Up(t.parent, -1, d, k);
      UpCut(t.parent, d, k, m);
    }
  }

  lemma DetachLead(ns: Ns, t: Nest, m: nat)
    requires Base(ns, t, -1) && AllLead(ns, t, -1) && AllPlaced(ns, t, -1) && m < |ns| && m != ROOT_INODE
      && !ns[m].Dead?
      && Placed(ns, t, m)
    ensures AllLead(DetachNs(ns, t, m), t, m) && AllPlaced(DetachNs(ns, t, m), t, m)
  {
    var p, i, ns' := t.parent[m], t.slot[m], DetachNs(ns, t, m);
    forall d, j | 0 <= d < |ns'| && ns'[d].Dir? && 0 <= j < |ns'[d].ents| && Real(ns'[d].ents[j])
      ensures Leads(ns', t, m, d, j)
    {
      assert Real(ns[d].ents[j]) && Leads(ns, t, -1, d, j);
    }
    forall d | 0 <= d < |ns'| && d != ROOT_INODE && d != m && !ns'[d].Dead? ensures Placed(ns', t, d) {
      assert Placed(ns, t, d);
    }
  }

  // ---------------------------------------------------------------- hanging in

  function More(ns: Ns, x: nat, q: nat): nat
    requires x < |ns| && q < |ns| && ns[q].Dir?
  {
    if ns[x].Dir? then ns[q].links + 1 else ns[q].links
  }

  /** `..` of directory `x` names `q`; a leaf has none. */
  function Redot(ns: Ns, x: nat, q: nat): (r: Ns)
    requires x < |ns| && (ns[x].Dir? ==> |ns[x].ents| >= 2)
    ensures |r| == |ns| && forall d :: 0 <= d < |ns| ==> r[d].Dir? == ns[d].Dir? && r[d].Dead? == ns[d].Dead?
    ensures forall d :: 0 <= d < |ns| && ns[d].Dir? ==> r[d].links == ns[d].links && |r[d].ents| == |ns[d].ents|
  {
    if ns[x].Dir? then ns[x := Dir(ns[x].ents[1 := Ent(DotDot(), q)], ns[x].links)] else ns
  }

  ghost predicate CanHang(ns: Ns, x: nat, q: nat, j: nat, name: Block) {
    && x < |ns| && q < |ns| && x != q && !ns[x].Dead? && ns[q].Dir? && j < |ns[q].ents| && !Live(ns[q].ents[j])
    && name != [] && !IsDots(name) && Absent(ns[q].ents, name) && (ns[x].Dir? ==> |ns[x].ents| >= 2)
  }

  ghost function AttachNs(ns: Ns, x: nat, q: nat, j: nat, name: Block): Ns
    requires CanHang(ns, x, q, j, name)
  {
    Redot(PutNs(ns, q, j, Ent(name, x), More(ns, x, q)), x, q)
  }

  function Rehang(t: Nest, x: nat, q: nat, j: nat): Nest
    requires x < |t.parent| == |t.slot|
  {
    Nest(t.parent[x := q], t.slot[x := j])
  }

  lemma AttachTidy(ns: Ns, t: Nest, x: nat, q: nat, j: nat, name: Block)
    requires TreeBut(ns, t, x) && CanHang(ns, x, q, j, name)
    ensures AllTidy(AttachNs(ns, x, q, j, name))
  {
    hide AllLead, AllPlaced, AllLinked, AllRooted, Tidy, AllTidy;
    var ns1 := PutNs(ns, q, j, Ent(name, x), More(ns, x, q));
    TidyPut(ns, q, j, Ent(name, x), More(ns, x, q));
    if ns[x].Dir? {
      assert Dotted(ns, t, x, x);
      RedotTidy(ns1, x, q);
    }
  }

  lemma RedotTidy(ns: Ns, x: nat, q: nat)
    requires AllTidy(ns) && x < |ns| && ns[x].Dir? && |ns[x].ents| >= 2 && ns[x].ents[1].name == DotDot()
      && Live(ns[x].ents[1]) && q != 0
    ensures AllTidy(Redot(ns, x, q))
  {
    assert Tidy(ns[x].ents);
    assert Tidy(ns[x].ents[1 := Ent(DotDot(), q)]);
  }

  lemma AttachDotted(ns: Ns, t: Nest, x: nat, q: nat, j: nat, name: Block)
    requires Base(ns, t, x) && AllDotted(ns, t, x) && CanHang(ns, x, q, j, name)
    ensures AllDotted(AttachNs(ns, x, q, j, name), Rehang(t, x, q, j), -1)
  {
    var ns1, ns2, t2 := PutNs(ns, q, j, Ent(name, x), More(ns, x, q)), AttachNs(ns, x, q, j, name), Rehang(t, x, q, j);
    DottedPut(ns, t, x, q, j, Ent(name, x), More(ns, x, q));
    forall d | 0 <= d < |ns2| && ns2[d].Dir? ensures Dotted(ns2, t2, -1, d) {
      assert Dotted(ns1, t, x, d);
    }
  }

  lemma AttachLinked(ns: Ns, t: Nest, x: nat, q: nat, j: nat, name: Block)
    requires Base(ns, t, x) && AllLinked(ns, t, x) && CanHang(ns, x, q, j, name)
    ensures AllLinked(AttachNs(ns, x, q, j, name), Rehang(t, x, q, j), -1)
  {
    hide Kids;
    var ns1, ns2, t2 := PutNs(ns, q, j, Ent(name, x), More(ns, x, q)), AttachNs(ns, x, q, j, name), Rehang(t, x, q, j);
    forall d | 0 <= d < |ns2| && ns2[d].Dir? ensures ns2[d].links == 2 + Kids(ns2, t2.parent, -1, d, |ns2|) {
      if d == q && ns[x].Dir? {
        KidsOneMore(ns, t.parent, x, ns2, t2.parent, -1, d, |ns|, x);
      } else {
        KidsSame(ns, t.parent, x, ns2, t2.parent, -1, d, |ns|);
      }
      PutLinks(ns, q, j, Ent(name, x), More(ns, x, q), d);
    }
  }

  lemma AttachRooted(ns: Ns, ns': Ns, t: Nest, x: nat, q: nat, j: nat)
    requires Base(ns, t, x) && AllRooted(ns, t, x) && x < |ns| && q < |ns| && !ns[q].Dead?
      && !IsAncestor(t.parent, x, q)
    requires |ns'| == |ns| && forall d :: 0 <= d < |ns| ==> ns'[d].Dead? == ns[d].Dead?
    ensures AllRooted(ns', Rehang(t, x, q, j), -1)
  {
    var kq: nat :| Up(t.parent, x, q, kq);
    UpAway(t.parent, x, q, q, kq);
    forall m | 0 <= m < |ns'| && !ns'[m].Dead? ensures Rooted(t.parent[x := q], -1, m) {
      var k: nat :| Up(t.parent, x, m, k);
      UpJoin(t.parent, x, q, m, k, kq);
    }
  }

  lemma AttachLead(ns: Ns, t: Nest, x: nat, q: nat, j: nat, name: Block)
    requires Base(ns, t, x) && AllLead(ns, t, x) && AllDotted(ns, t, x) && CanHang(ns, x, q, j, name)
    ensures AllLead(AttachNs(ns, x, q, j, name), Rehang(t, x, q, j), -1)
  {
    var ns', t' := AttachNs(ns, x, q, j, name), Rehang(t, x, q, j);
    forall d, i | 0 <= d < |ns'| && ns'[d].Dir? && 0 <= i < |ns'[d].ents| && Real(ns'[d].ents[i])
      ensures Leads(ns', t', -1, d, i)
    {
      if !(d == q && i == j) {
        assert ns'[d].ents[i] == ns[d].ents[i] by {
          assert !(d == x && i == 1);
        }
        assert Leads(ns, t, x, d, i);
      }
    }
  }

  lemma AttachPlaced(ns: Ns, t: Nest, x: nat, q: nat, j: nat, name: Block)
    requires Base(ns, t, x) && AllPlaced(ns, t, x) && AllDotted(ns, t, x) && CanHang(ns, x, q, j, name)
    ensures AllPlaced(AttachNs(ns, x, q, j, name), Rehang(t, x, q, j), -1)
  {
    var ns', t' := AttachNs(ns, x, q, j, name), Rehang(t, x, q, j);
    forall m | 0 <= m < |ns'| && m != ROOT_INODE && !ns'[m].Dead? ensures Placed(ns', t', m) {
      if m != x {
        assert Placed(ns, t, m);
        if t.parent[m] == x {
          assert Dotted(ns, t, x, x);
        }
      }
    }
  }

  /** Hanging a loose node below a directory it is not above makes a tree again. */
  lemma AttachTree(ns: Ns, t: Nest, x: nat, q: nat, j: nat, name: Block)
    requires TreeBut(ns, t, x) && CanHang(ns, x, q, j, name) && !IsAncestor(t.parent, x, q)
    ensures Tree(AttachNs(ns, x, q, j, name), Rehang(t, x, q, j))
  {
    hide AllLead, AllPlaced, AllLinked, AllRooted, AllTidy, AllDotted, IsAncestor, Absent;
    AttachTidy(ns, t, x, q, j, name);
    AttachDotted(ns, t, x, q, j, name);
    AttachLinked(ns, t, x, q, j, name);
    AttachRooted(ns, AttachNs(ns, x, q, j, name), t, x, q, j);
    AttachLead(ns, t, x, q, j, name);
    AttachPlaced(ns, t, x, q, j, name);
  }

  // ---------------------------------------------------------------- death and birth

  /** A directory with nothing in it but its dots, or a leaf. */
  ghost predicate Childless(n: Node) {
    n.Dir? ==> forall i :: 0 <= i < |n.ents| ==> !Real(n.ents[i])
  }

  lemma {:induction false} UpPast(ns: Ns, t: Nest, x: nat, m: nat, k: nat)
    requires Base(ns, t, x) && AllPlaced(ns, t, x) && x < |ns| && Childless(ns[x]) && m < |ns| && !ns[m].Dead? && m != x
    requires Up(t.parent, x, m, k)
    ensures Up(t.parent, -1, m, k)
    decreases k
  {
    if m != ROOT_INODE {
      assert Placed(ns, t, m);
      UpPast(ns, t, x, t.parent[m], k - 1);
    }
  }

  /** A loose node without children can be freed. */
  lemma KillTree(ns: Ns, t: Nest, x: nat)
    requires TreeBut(ns, t, x) && x < |ns| && Childless(ns[x])
    ensures Tree(ns[x := Dead], t)
  {
    hide Kids, Tidy, AllLinked, Rooted, AllRooted;
    var ns' := ns[x := Dead];
    KillLinked(ns, t, x);
    KillRooted(ns, t, x);
    forall m | 0 <= m < |ns'| && m != ROOT_INODE && !ns'[m].Dead? ensures Placed(ns', t, m) {
      assert Placed(ns, t, m);
    }
    forall d, i | 0 <= d < |ns'| && ns'[d].Dir? && 0 <= i < |ns'[d].ents| && Real(ns'[d].ents[i])
      ensures Leads(ns', t, -1, d, i)
    {
      assert Leads(ns, t, x, d, i);
    }
    forall d | 0 <= d < |ns'| && ns'[d].Dir? ensures Dotted(ns', t, -1, d) {
      assert Dotted(ns, t, x, d);
    }
  }

  lemma KillLinked(ns: Ns, t: Nest, x: nat)
    requires Base(ns, t, x) && AllLinked(ns, t, x) && x < |ns|
    ensures AllLinked(ns[x := Dead], t, -1)
  {
    hide Kids;
    forall d | 0 <= d < |ns| && ns[x := Dead][d].Dir?
      ensures ns[d].links == 2 + Kids(ns[x := Dead], t.parent, -1, d, |ns|)
    {
      KidsSame(ns, t.parent, x, ns[x := Dead], t.parent, -1, d, |ns|);
    }
  }

  lemma KillRooted(ns: Ns, t: Nest, x: nat)
    requires Base(ns, t, x) && AllRooted(ns, t, x) && AllPlaced(ns, t, x) && x < |ns| && Childless(ns[x])
    ensures AllRooted(ns[x := Dead], t, -1)
  {
    forall m | 0 <= m < |ns| && !ns[x := Dead][m].Dead? ensures Rooted(t.parent, -1, m) {
      var k: nat :| Up(t.parent, x, m, k);
      UpPast(ns, t, x, m, k);
    }
  }

  /** What a new node may look like before it is hung in. */
  ghost predicate Newborn(n: Node, m: nat) {
    !n.Dead? && Childless(n) &&
    (n.Dir? ==>
      n.links == 2 && |n.ents| >= 2 && Tidy(n.ents) && n.ents[0] == Ent(Dot(), m) && n.ents[1].name == DotDot()
      && n.ents[1].ino != 0)
  }

  /** A dead number comes to life as a loose node. */
  lemma BirthTree(ns: Ns, t: Nest, m: nat, n: Node)
    requires Tree(ns, t) && m < |ns| && ns[m].Dead? && m > ROOT_INODE && Newborn(n, m)
    ensures TreeBut(ns[m := n], t, m)
  {
    hide AllLinked, AllRooted, AllLead, AllPlaced, AllDotted, Tidy, Real;
    BirthLinked(ns, t, m, n);
    BirthRooted(ns, t, m, n);
    BirthLead(ns, t, m, n);
    BirthDotted(ns, t, m, n);
  }

  lemma BirthLead(ns: Ns, t: Nest, m: nat, n: Node)
    requires Base(ns, t, -1) && AllLead(ns, t, -1) && AllPlaced(ns, t, -1) && m < |ns| && ns[m].Dead? && Newborn(n, m)
    ensures AllLead(ns[m := n], t, m) && AllPlaced(ns[m := n], t, m)
  {
    hide Tidy, Real;
    var ns' := ns[m := n];
    forall d | 0 <= d < |ns'| && d != ROOT_INODE && d != m && !ns'[d].Dead? ensures Placed(ns', t, d) {
      assert Placed(ns, t, d);
    }
    forall d, i | 0 <= d < |ns'| && ns'[d].Dir? && 0 <= i < |ns'[d].ents| && Real(ns'[d].ents[i])
      ensures Leads(ns', t, m, d, i)
    {
      assert Leads(ns, t, -1, d, i);
    }
  }

  lemma BirthDotted(ns: Ns, t: Nest, m: nat, n: Node)
    requires Base(ns, t, -1) && AllDotted(ns, t, -1) && m < |ns| && m != ROOT_INODE && Newborn(n, m)
    ensures AllDotted(ns[m := n], t, m)
  {
    hide Tidy, Real;
    var ns' := ns[m := n];
    forall d | 0 <= d < |ns'| && ns'[d].Dir? ensures Dotted(ns', t, m, d) {
      if d != m {
        assert Dotted(ns, t, -1, d);
      }
    }
  }

  lemma BirthRooted(ns: Ns, t: Nest, m: nat, n: Node)
    requires AllRooted(ns, t, -1) && m < |ns|
    ensures AllRooted(ns[m := n], t, m)
  {
    forall d | 0 <= d < |ns| && !ns[m := n][d].Dead? ensures Rooted(t.parent, m, d) {
      if d == m {
        assert Up(t.parent, m, m, 0);
      } else {
        var k: nat :| Up(t.parent, -1, d, k);
        UpCut(t.parent, d, k, m);
      }
    }
  }

  lemma {:induction false} KidsNone(ns: Ns, parent: seq<nat>, x: int, d: nat, n: nat)
    requires n <= |ns| == |parent| && forall m :: 0 <= m < n ==> !IsKid(ns, parent, x, d, m)
    ensures Kids(ns, parent, x, d, n) == 0
  {
    if n > 0 {
      KidsNone(ns, parent, x, d, n - 1);
    }
  }

  lemma BirthLinked(ns: Ns, t: Nest, m: nat, n: Node)
    requires Base(ns, t, -1) && AllLinked(ns, t, -1) && AllPlaced(ns, t, -1) && m < |ns| && ns[m].Dead?
      && m != ROOT_INODE
      && Newborn(n, m)
    ensures AllLinked(ns[m := n], t, m)
  {
    hide Kids;
    var ns' := ns[m := n];
    forall d | 0 <= d < |ns'| && ns'[d].Dir? ensures ns'[d].links == 2 + Kids(ns', t.parent, m, d, |ns'|) {
      if d == m {
        forall i | 0 <= i < |ns| ensures !IsKid(ns', t.parent, m, m, i) {
          if i != ROOT_INODE && i != m && ns[i].Dir? {
            assert Placed(ns, t, i);
          }
        }
        KidsNone(ns', t.parent, m, m, |ns|);
      } else {
        KidsSame(ns, t.parent, -1, ns', t.parent, m, d, |ns|);
      }
    }
  }

  // ---------------------------------------------------------------- how long a chain can be

  /** The root is exactly `k` steps above `m`. */
  ghost predicate Height(parent: seq<nat>, m: nat, k: nat) {
    Up(parent, -1, m, k) && (k == 0 || !Up(parent, -1, m, k - 1))
  }

  lemma {:induction false} LeastHeight(parent: seq<nat>, m: nat, k: nat) returns (h: nat)
    requires Up(parent, -1, m, k)
    ensures Height(parent, m, h) && h <= k
  {
    if k == 0 || !Up(parent, -1, m, k - 1) {
      h := k;
    } else {
      h := LeastHeight(parent, m, k - 1);
    }
  }

  lemma HeightUnique(parent: seq<nat>, m: nat, k: nat, l: nat)
    requires Height(parent, m, k) && Height(parent, m, l)
    ensures k == l
  {
    if k < l {
      UpMore(parent, -1, m, k, l - 1);
    } else if l < k {
      UpMore(parent, -1, m, l, k - 1);
    }
  }

  /** The chain from `m` to the root: no number comes twice. */
  lemma {:induction false} PathUp(parent: seq<nat>, m: nat, k: nat) returns (q: seq<nat>)
    requires Height(parent, m, k) && ROOT_INODE < |parent|
    ensures |q| == k + 1 && (forall i :: 0 <= i < |q| ==> q[i] < |parent| && Height(parent, q[i], k - i)) && NoDup(q)
    decreases k
  {
    if k == 0 {
      q := [m];
    } else {
      var rest := PathUp(parent, parent[m], k - 1);
      q := [m] + rest;
      forall i | 0 < i < |q| ensures q[i] == rest[i - 1] && q[i] != m {
        if q[i] == m {
          HeightUnique(parent, m, k, k - i);
        }
      }
    }
  }

  /** By pigeonhole, a chain that reaches the root does so in fewer steps than there are inodes. */
  lemma ShortChain(parent: seq<nat>, m: nat)
    requires Rooted(parent, -1, m) && ROOT_INODE < |parent|
    ensures Up(parent, -1, m, |parent| - 1)
  {
    var k: nat :| Up(parent, -1, m, k);
    var h := LeastHeight(parent, m, k);
    var q := PathUp(parent, m, h);
    var s := set x | x in q;
    NoDupCard(q);
    BelowCard(|parent|, s);
    UpMore(parent, -1, m, h, |parent| - 1);
  }

  // ---------------------------------------------------------------- how many children

  /** Slots of `d` that lead to child directories among the first `n` inodes. */
  ghost function KidSlots(ns: Ns, t: Nest, d: nat, n: nat): set<nat>
    requires n <= |ns| == |t.parent| == |t.slot|
  {
    if n == 0 then {} else KidSlots(ns, t, d, n - 1) + if IsKid(ns, t.parent, -1, d, n - 1) then {t.slot[n - 1]} else {}
  }

  lemma KidPlace(ns: Ns, t: Nest, d: nat, m: nat)
    requires Base(ns, t, -1) && AllPlaced(ns, t, -1) && d < |ns| && ns[d].Dir? && m < |ns|
      && IsKid(ns, t.parent, -1, d, m)
    ensures t.slot[m] < |ns[d].ents| && ns[d].ents[t.slot[m]].ino == m
  {
    hide Real;
    assert Placed(ns, t, m);
  }

  lemma {:induction false} KidSlotsIn(ns: Ns, t: Nest, d: nat, n: nat, i: nat)
    requires Base(ns, t, -1) && AllPlaced(ns, t, -1) && d < |ns| && ns[d].Dir? && n <= |ns|
      && i in KidSlots(ns, t, d, n)
    ensures i < |ns[d].ents| && ns[d].ents[i].ino < n
  {
    hide Real, Placed, AllPlaced, IsKid;
    if n > 0 {
      if i in KidSlots(ns, t, d, n - 1) {
        KidSlotsIn(ns, t, d, n - 1, i);
      } else {
        KidPlace(ns, t, d, n - 1);
      }
    }
  }

  lemma {:induction false} KidsAreSlots(ns: Ns, t: Nest, d: nat, n: nat)
    requires Base(ns, t, -1) && AllPlaced(ns, t, -1) && d < |ns| && ns[d].Dir? && n <= |ns|
    ensures |KidSlots(ns, t, d, n)| == Kids(ns, t.parent, -1, d, n)
  {
    hide Real, Placed, AllPlaced, IsKid;
    if n > 0 {
      KidsAreSlots(ns, t, d, n - 1);
      if IsKid(ns, t.parent, -1, d, n - 1) {
        KidPlace(ns, t, d, n - 1);
        if t.slot[n - 1] in KidSlots(ns, t, d, n - 1) {
          KidSlotsIn(ns, t, d, n - 1, t.slot[n - 1]);
        }
      }
    }
  }

  /** A directory has at most as many child directories as slots, so its 16-bit link count does not wrap. */
  lemma KidsBound(ns: Ns, t: Nest, d: nat)
    requires Tree(ns, t) && d < |ns| && ns[d].Dir?
    ensures ns[d].links <= 2 + |ns[d].ents|
  {
    hide AllLead, AllTidy, AllDotted, AllRooted, Kids, KidSlots;
    KidsAreSlots(ns, t, d, |ns|);
    forall i | i in KidSlots(ns, t, d, |ns|) ensures i < |ns[d].ents| {
      KidSlotsIn(ns, t, d, |ns|, i);
    }
    BelowCard(|ns[d].ents|, KidSlots(ns, t, d, |ns|));
  }

  // ---------------------------------------------------------------- the operations

  lemma RedotSame(ns: Ns, x: nat, q: nat)
    requires x < |ns| && (ns[x].Dir? ==> |ns[x].ents| >= 2 && ns[x].ents[1] == Ent(DotDot(), q))
    ensures Redot(ns, x, q) == ns
  {
    if ns[x].Dir? {
      assert ns[x].ents[1 := Ent(DotDot(), q)] == ns[x].ents;
      assert ns[x := ns[x]] == ns;
    }
  }

  lemma {:induction false} DeadNotAbove(ns: Ns, t: Nest, a: nat, m: nat, k: nat)
    requires Base(ns, t, -1) && AllPlaced(ns, t, -1) && a < |ns| && ns[a].Dead? && m < |ns| && !ns[m].Dead?
    ensures !OnPath(t.parent, a, m, k)
    decreases k
  {
    if m != ROOT_INODE && k > 0 {
      assert Placed(ns, t, m);
      DeadNotAbove(ns, t, a, t.parent[m], k - 1);
    }
  }

  /** Number `m` comes to life as `node`, with its entry in slot `j` of directory `p`. */
  ghost function CreateNs(ns: Ns, p: nat, j: nat, name: Block, m: nat, node: Node): Ns
    requires p < |ns| && m < |ns| && p != m && ns[p].Dir? && j < |ns[p].ents|
  {
    PutNs(ns[m := node], p, j, Ent(name, m), More(ns[m := node], m, p))
  }

  /** Creating a file or a directory keeps the tree. */
  lemma CreateTree(ns: Ns, t: Nest, p: nat, j: nat, name: Block, m: nat, node: Node)
    requires Tree(ns, t) && p < |ns| && ns[p].Dir? && j < |ns[p].ents| && !Live(ns[p].ents[j])
      && Absent(ns[p].ents, name)
      && name != []
    requires m < |ns| && ns[m].Dead? && m > ROOT_INODE && Newborn(node, m)
      && (node.Dir? ==> node.ents[1] == Ent(DotDot(), p))
    requires !IsDots(name)
    ensures Tree(CreateNs(ns, p, j, name, m, node), Rehang(t, m, p, j))
  {
    hide AllLead, AllTidy, AllDotted, AllRooted, AllLinked, Absent, Childless, Tidy;
    var ns1 := ns[m := node];
    BirthTree(ns, t, m, node);
    assert !IsAncestor(t.parent, m, p) by {
      forall k: nat ensures !OnPath(t.parent, m, p, k) {
        DeadNotAbove(ns, t, m, p, k);
      }
    }
    AttachTree(ns1, t, m, p, j, name);
    RedotSame(PutNs(ns1, p, j, Ent(name, m), More(ns1, m, p)), m, p);
  }

  /** The root holds no `.` and `..`; a node created there under one of these names does not fit the tree. */
  lemma DotsAtRootBreak(ns: Ns, t: Nest, j: nat, name: Block, m: nat, node: Node, t': Nest)
    requires Tree(ns, t) && j < |ns[ROOT_INODE].ents| && m < |ns| && m > ROOT_INODE && IsDots(name)
    ensures !Tree(CreateNs(ns, ROOT_INODE, j, name, m, node), t')
  {
    hide AllLead, AllTidy, AllRooted, AllLinked, AllPlaced;
    var es := CreateNs(ns, ROOT_INODE, j, name, m, node)[ROOT_INODE].ents;
    assert Live(es[j]) && es[j].name == name;
    assert !(Absent(es, Dot()) && Absent(es, DotDot()));
  }

  /** No bookkeeping makes this graph a tree. */
  ghost predicate Treeless(ns: Ns) {
    forall t :: !Tree(ns, t)
  }

  /** Node `m` is gone, and so is its entry. */
  ghost function RemoveNs(ns: Ns, t: Nest, m: nat): Ns
    requires m < |ns| == |t.parent| == |t.slot| && Placed(ns, t, m)
  {
    DetachNs(ns, t, m)[m := Dead]
  }

  /** Unlinking a file or removing an empty directory keeps the tree. */
  lemma RemoveTree(ns: Ns, t: Nest, m: nat)
    requires Tree(ns, t) && m < |ns| && m != ROOT_INODE && !ns[m].Dead? && Childless(ns[m])
    ensures Placed(ns, t, m) && Tree(RemoveNs(ns, t, m), t)
  {
    hide AllLead, AllTidy, AllDotted, AllRooted, AllLinked, Real;
    DetachTree(ns, t, m);
    KillTree(DetachNs(ns, t, m), t, m);
  }

  /** Node `m` moves to slot `j` of directory `q`. */
  ghost function MoveNs(ns: Ns, t: Nest, m: nat, q: nat, j: nat, name: Block): Ns
    requires m < |ns| == |t.parent| == |t.slot| && Placed(ns, t, m) && CanHang(DetachNs(ns, t, m), m, q, j, name)
  {
    AttachNs(DetachNs(ns, t, m), m, q, j, name)
  }

  /** Renaming keeps the tree when the target directory does not lie below the node that moves. */
  lemma MoveTree(ns: Ns, t: Nest, m: nat, q: nat, j: nat, name: Block)
    requires Tree(ns, t) && m < |ns| && m != ROOT_INODE && !ns[m].Dead? && Placed(ns, t, m)
    requires CanHang(DetachNs(ns, t, m), m, q, j, name) && !IsAncestor(t.parent, m, q)
    ensures Tree(MoveNs(ns, t, m, q, j, name), Rehang(t, m, q, j))
  {
    hide AllLead, AllTidy, AllDotted, AllRooted, AllLinked, AllPlaced, CanHang, IsAncestor, Placed;
    DetachTree(ns, t, m);
    AttachTree(DetachNs(ns, t, m), t, m, q, j, name);
  }

  /** And only then: a node hung below itself never reaches the root again. */
  lemma {:induction false} LoopNeverRooted(parent: seq<nat>, m: nat, q: nat, z: nat, l: nat, k: nat)
    requires m < |parent| && m != ROOT_INODE && IsAncestor(parent, m, q) && OnPath(parent, m, z, l)
    ensures !Up(parent[m := q], -1, z, k)
    decreases k
  {
    if k > 0 && z < |parent| {
      if z == m {
        var l' :| OnPath(parent, m, q, l');
        LoopNeverRooted(parent, m, q, q, l', k - 1);
      } else {
        LoopNeverRooted(parent, m, q, parent[z], l - 1, k - 1);
      }
    }
  }

  lemma AncestorGuardExact(ns: Ns, t: Nest, m: nat, q: nat)
    requires Tree(ns, t) && m < |ns| && m != ROOT_INODE && !ns[m].Dead? && q < |ns| && !ns[q].Dead?
    ensures Rooted(t.parent[m := q], -1, m) <==> !IsAncestor(t.parent, m, q)
  {
    hide AllLead, AllTidy, AllDotted, AllLinked, AllPlaced;
    var moved := t.parent[m := q];
    if IsAncestor(t.parent, m, q) {
      forall k: nat ensures !Up(moved, -1, m, k) {
        assert OnPath(t.parent, m, m, 0);
        LoopNeverRooted(t.parent, m, q, m, 0, k);
      }
    } else {
      assert Rooted(t.parent, -1, q);
      var k: nat :| Up(t.parent, -1, q, k);
      UpCut(t.parent, q, k, m);
      UpAway(t.parent, m, q, q, k);
      assert Up(moved, -1, m, k + 1);
    }
  }
}
