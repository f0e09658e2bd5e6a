/** Where the blocks of a volume are: each one free, or counted once with the file that owns it. */
module Accounting {
  import opened Layout
  import opened ListNodes
  import opened Mapping
  import opened Volumes
  import opened Ownership
  import opened Lru

  /** Blocks a file of `k` data blocks takes, list nodes included. */
  function Cost(k: nat, cap: nat): nat
    requires cap > 0
  {
    k + NodesFor(k, cap)
  }

  /** Blocks the records account for. */
  ghost function Held(inodes: seq<Inode>, cap: nat): nat
    requires cap > 0
  {
    if inodes == [] then 0 else Held(inodes[..|inodes| - 1], cap) + Cost(inodes[|inodes| - 1].nr, cap)
  }

  lemma {:induction false} HeldUpdate(inodes: seq<Inode>, cap: nat, n: nat, rec: Inode)
    requires cap > 0 && n < |inodes|
    ensures Held(inodes[n := rec], cap) + Cost(inodes[n].nr, cap) == Held(inodes, cap) + Cost(rec.nr, cap)
    decreases |inodes|
  {
    var last := |inodes| - 1;
    if n == last {
      assert inodes[n := rec][..last] == inodes[..last];
    } else {
      assert inodes[n := rec][..last] == inodes[..last][n := rec];
      HeldUpdate(inodes[..last], cap, n, rec);
    }
  }

  /** Blocks owned by the inodes below `m`. */
  ghost function Below(l: Ledger, m: nat): set<nat> {
    set i | 0 <= i < |l.tag| && l.tag[i] != Free && l.tag[i].ino < m
  }

  /** Inode `m` adds its nodes and its data blocks, each tagged with its place. */
  lemma BelowSplit(l: Ledger, dataNum: nat, m: nat, i: nat)
    requires Tagged(l, dataNum) && Backed(l) && m < |l.nodes|
    ensures i in Below(l, m + 1) <==> i in Below(l, m) || i in l.nodes[m] || i in l.ptrs[m]
    ensures i in l.nodes[m] ==> i !in l.ptrs[m] && i !in Below(l, m)
    ensures i in l.ptrs[m] ==> i !in Below(l, m)
  {
    if i in l.nodes[m] {
      var k :| 0 <= k < |l.nodes[m]| && l.nodes[m][k] == i;
      assert l.tag[l.nodes[m][k]] == NodeOf(m, k);
    }
    if i in l.ptrs[m] {
      var k :| 0 <= k < |l.ptrs[m]| && l.ptrs[m][k] == i;
      assert l.tag[l.ptrs[m][k]] == DataOf(m, k);
    }
  }

  lemma OwnListsNoDup(l: Ledger, dataNum: nat, m: nat)
    requires Tagged(l, dataNum) && m < |l.nodes|
    ensures |l.ptrs| == |l.nodes| && NoDup(l.nodes[m]) && NoDup(l.ptrs[m])
  {
  }

  lemma BelowStep(l: Ledger, dataNum: nat, m: nat)
    requires Tagged(l, dataNum) && Backed(l) && m < |l.nodes|
    ensures |l.ptrs| == |l.nodes| && |Below(l, m + 1)| == |Below(l, m)| + |l.nodes[m]| + |l.ptrs[m]|
  {
    hide Below, Tagged, Backed;
    OwnListsNoDup(l, dataNum, m);
    var a := set x | x in l.nodes[m];
    var b := set x | x in l.ptrs[m];
    NoDupCard(l.nodes[m]);
    NoDupCard(l.ptrs[m]);
    forall i: nat
      ensures i in Below(l, m + 1) <==> i in Below(l, m) || i in a || i in b
      ensures (i in a ==> i !in b && i !in Below(l, m)) && (i in b ==> i !in Below(l, m))
    {
      BelowSplit(l, dataNum, m, i);
    }
    assert Below(l, m + 1) == Below(l, m) + a + b;
    assert a !! b && Below(l, m) !! (a + b);
  }

  lemma {:induction false} BelowCount(g: Geometry, s: Vol, l: Ledger, m: nat)
    requires Owned(g, s, l) && m <= |s.inodes| && PtrsPerNode(g.blkSize) > 0
    ensures |Below(l, m)| == Held(s.inodes[..m], PtrsPerNode(g.blkSize))
  {
    hide Chain, Cost, Backed, BitsMatch;
    if m == 0 {
      assert Below(l, 0) == {};
    } else {
      BelowCount(g, s, l, m - 1);
      assert s.inodes[..m][..m - 1] == s.inodes[..m - 1];
      BelowStep(l, g.dataBlkNum, m - 1);
      assert Mapped(g, s.data, s.inodes[m - 1], l.nodes[m - 1], l.ptrs[m - 1]);
      ChainLength(s.data, g.dataRegionStart, PtrsPerNode(g.blkSize), l.nodes[m - 1], l.ptrs[m - 1]);
      CostIs(|l.ptrs[m - 1]|, PtrsPerNode(g.blkSize));
    }
  }

  lemma CostIs(k: nat, cap: nat)
    requires cap > 0
    ensures Cost(k, cap) == k + NodesFor(k, cap)
  {
  }

  /** Every block of the data region is free or held by exactly one file: none is lost, none counted twice. */
  lemma NothingLost(g: Geometry, s: Vol, l: Ledger)
    requires Owned(g, s, l) && PtrsPerNode(g.blkSize) > 0
    ensures FreeCount(s.bits) + Held(s.inodes, PtrsPerNode(g.blkSize)) == g.dataBlkNum
  {
    hide Mapped, Held, Clear;
    var n, clear := |s.bits|, Clear(s.bits, 0, |s.bits|);
    var free := set i | i in clear;
    var taken := Below(l, |s.inodes|);
    BelowCount(g, s, l, |s.inodes|);
    assert s.inodes[..|s.inodes|] == s.inodes;
    ClearFacts(s.bits, 0, n);
    NoDupCard(clear);
    forall i | 0 <= i < n ensures i in taken <==> s.bits[i] {
    }
    BelowCard(n, free + taken);
    assert free !! taken;
  }

  /** A record that counts blocks its volume no longer maps, or fewer than it maps, fits no ledger. */
  lemma StaleRecordBreaks(g: Geometry, s: Vol, l: Ledger, n: nat, rec: Inode, l': Ledger)
    requires Owned(g, s, l) && PtrsPerNode(g.blkSize) > 0 && n < |s.inodes|
    requires Cost(rec.nr, PtrsPerNode(g.blkSize)) != Cost(s.inodes[n].nr, PtrsPerNode(g.blkSize))
    ensures !Owned(g, s.(inodes := s.inodes[n := rec]), l')
  {
    hide Owned, Held, FreeCount, Cost;
    var s' := s.(inodes := s.inodes[n := rec]);
    HeldUpdate(s.inodes, PtrsPerNode(g.blkSize), n, rec);
    NothingLost(g, s, l);
    if Owned(g, s', l') {
      NothingLost(g, s', l');
    }
  }
}
