/** Who owns which data block: the invariant every allocation and release keeps. */
module Ownership {
  import opened Bytes
  import opened Layout
  import opened ListNodes
  import opened Mapping
  import opened Volumes
  import opened Lru

  /** Every list entry carries its tag, so no block is owned twice. */
  ghost predicate Tagged(l: Ledger, dataNum: nat) {
    && |l.nodes| == |l.ptrs| && |l.tag| == dataNum
    && (forall n, k :: 0 <= n < |l.nodes| && 0 <= k < |l.nodes[n]| ==>
          l.nodes[n][k] < dataNum && l.tag[l.nodes[n][k]] == NodeOf(n, k))
    && (forall n, k :: 0 <= n < |l.ptrs| && 0 <= k < |l.ptrs[n]| ==>
          l.ptrs[n][k] < dataNum && l.tag[l.ptrs[n][k]] == DataOf(n, k))
  }

  /** Every tag is backed by a list entry. */
  ghost predicate Backed(l: Ledger) {
    |l.nodes| == |l.ptrs| && forall i :: 0 <= i < |l.tag| ==>
      match l.tag[i]
      case Free => true
      case NodeOf(n, k) => n < |l.nodes| && k < |l.nodes[n]| && l.nodes[n][k] == i
      case DataOf(n, k) => n < |l.ptrs| && k < |l.ptrs[n]| && l.ptrs[n][k] == i
  }

  /** The set bits of the bitmap are exactly the tagged blocks. */
  ghost predicate BitsMatch(bits: seq<bool>, tag: seq<Tag>) {
    |bits| == |tag| && forall i :: 0 <= i < |bits| ==> (bits[i] <==> tag[i] != Free)
  }

  /** Inode `n` maps its data blocks through its chain of list nodes. */
  ghost predicate Mapped(g: Geometry, data: seq<Block>, rec: Inode, nodes: seq<nat>, ptrs: seq<nat>) {
    RecMaps(rec, g.dataRegionStart, nodes, ptrs) && Chain(data, g.dataRegionStart, PtrsPerNode(g.blkSize), nodes, ptrs)
  }

  /** The ownership invariant of the volume. */
  ghost predicate Owned(g: Geometry, s: Vol, l: Ledger) {
    && Tagged(l, g.dataBlkNum) && Backed(l) && BitsMatch(s.bits, l.tag)
    && |l.nodes| == |s.inodes|
    && forall n :: 0 <= n < |s.inodes| ==> Mapped(g, s.data, s.inodes[n], l.nodes[n], l.ptrs[n])
  }

  /** Tag of block `i` once inode `n` owns exactly the nodes `nodes` and the data blocks `ptrs`. */
  ghost function NewTag(old_: Tag, n: nat, nodes: seq<nat>, ptrs: seq<nat>, i: nat): Tag {
    if i in nodes then NodeOf(n, IndexOf(nodes, i))
    else if i in ptrs then DataOf(n, IndexOf(ptrs, i))
    else if old_ != Free && old_.ino == n then Free
    else old_
  }

  /** The ledger after inode `n` was given a new chain and a new list of data blocks. */
  ghost function Remap(l: Ledger, n: nat, nodes: seq<nat>, ptrs: seq<nat>): Ledger
    requires n < |l.nodes| == |l.ptrs|
  {
    Ledger(l.nodes[n := nodes], l.ptrs[n := ptrs],
           seq(|l.tag|, i requires 0 <= i < |l.tag| => NewTag(l.tag[i], n, nodes, ptrs, i)))
  }

  ghost predicate Mine(tag: seq<Tag>, n: nat, list: seq<nat>) {
    forall k :: 0 <= k < |list| ==> list[k] < |tag| && (tag[list[k]] == Free || tag[list[k]].ino == n)
  }

  ghost predicate Apart(list: seq<nat>, other: seq<nat>) {
    forall k :: 0 <= k < |list| ==> list[k] !in other
  }

  lemma IndexAt(q: seq<nat>, k: nat)
    requires Distinct(q) && k < |q|
    ensures q[k] in q && IndexOf(q, q[k]) == k
  {
  }

  lemma RemapTagged(l: Ledger, dataNum: nat, n: nat, nodes: seq<nat>, ptrs: seq<nat>)
    requires Tagged(l, dataNum) && n < |l.nodes|
    requires Distinct(nodes) && Distinct(ptrs) && Mine(l.tag, n, nodes) && Mine(l.tag, n, ptrs) && Apart(ptrs, nodes)
    ensures Tagged(Remap(l, n, nodes, ptrs), dataNum)
  {
    var r := Remap(l, n, nodes, ptrs);
    forall m, k | 0 <= m < |r.nodes| && 0 <= k < |r.nodes[m]|
      ensures r.nodes[m][k] < dataNum && r.tag[r.nodes[m][k]] == NodeOf(m, k)
    {
      if m == n {
        IndexAt(nodes, k);
      } else {
        assert l.tag[l.nodes[m][k]] == NodeOf(m, k);
        NotMine(l.tag, n, nodes, l.nodes[m][k]);
        NotMine(l.tag, n, ptrs, l.nodes[m][k]);
      }
    }
    forall m, k | 0 <= m < |r.ptrs| && 0 <= k < |r.ptrs[m]|
      ensures r.ptrs[m][k] < dataNum && r.tag[r.ptrs[m][k]] == DataOf(m, k)
    {
      if m == n {
        IndexAt(ptrs, k);
      } else {
        assert l.tag[l.ptrs[m][k]] == DataOf(m, k);
        NotMine(l.tag, n, nodes, l.ptrs[m][k]);
        NotMine(l.tag, n, ptrs, l.ptrs[m][k]);
      }
    }
  }

  lemma NotMine(tag: seq<Tag>, n: nat, list: seq<nat>, i: nat)
    requires Mine(tag, n, list) && i < |tag| && tag[i] != Free && tag[i].ino != n
    ensures i !in list
  {
  }

  lemma RemapBacked(l: Ledger, n: nat, nodes: seq<nat>, ptrs: seq<nat>)
    requires Backed(l) && n < |l.nodes|
    ensures Backed(Remap(l, n, nodes, ptrs))
  {
  }

  /** The data blocks of others are as before. */
  ghost predicate OthersKept(tag: seq<Tag>, n: nat, data: seq<Block>, data': seq<Block>) {
    |data'| == |data| && forall i :: 0 <= i < |tag| && i < |data| && tag[i] != Free && tag[i].ino != n ==>
      data'[i] == data[i]
  }

  /** Giving inode `n` a new chain and new data blocks keeps the invariant. */
  lemma RemapOwned(g: Geometry, s: Vol, l: Ledger, s': Vol, n: nat, nodes: seq<nat>, ptrs: seq<nat>)
    requires Owned(g, s, l) && n < |s.inodes| && |s'.inodes| == |s.inodes| && |s.data| == g.dataBlkNum
    requires forall m :: 0 <= m < |s.inodes| && m != n ==> s'.inodes[m] == s.inodes[m]
    requires Distinct(nodes) && Distinct(ptrs) && Mine(l.tag, n, nodes) && Mine(l.tag, n, ptrs) && Apart(ptrs, nodes)
    requires Mapped(g, s'.data, s'.inodes[n], nodes, ptrs)
    requires BitsMatch(s'.bits, Remap(l, n, nodes, ptrs).tag) && OthersKept(l.tag, n, s.data, s'.data)
    ensures Owned(g, s', Remap(l, n, nodes, ptrs))
  {
    hide Chain, RecMaps;
    RemapTagged(l, g.dataBlkNum, n, nodes, ptrs);
    RemapBacked(l, n, nodes, ptrs);
    forall m | 0 <= m < |s'.inodes|
      ensures Mapped(g, s'.data, s'.inodes[m], Remap(l, n, nodes, ptrs).nodes[m], Remap(l, n, nodes, ptrs).ptrs[m])
    {
      if m != n {
        assert Mapped(g, s.data, s.inodes[m], l.nodes[m], l.ptrs[m]);
        ChainFrame(s.data, s'.data, g.dataRegionStart, PtrsPerNode(g.blkSize), l.nodes[m], l.ptrs[m]);
      }
    }
  }

  /**
   * What one call does to the bitmap: data blocks `freed` are released, `added`
   * taken, then the new nodes taken and the old nodes released.
   */
  ghost predicate Exchanged(bits: seq<bool>, bits': seq<bool>, freed: seq<nat>, added: seq<nat>, nodes: seq<nat>,
                            dropped: seq<nat>) {
    |bits'| == |bits| && forall i :: 0 <= i < |bits| ==>
      bits'[i] == if i in dropped then false
                  else if i in nodes || i in added then true
                  else if i in freed then false
                  else bits[i]
  }

  /** The new data blocks of an inode: those it keeps and those added. */
  ghost predicate Keeps(ptrs: seq<nat>, was: seq<nat>, freed: seq<nat>, added: seq<nat>) {
    && (forall x :: x in ptrs ==> x in added || (x in was && x !in freed))
    && (forall x :: x in added ==> x in ptrs)
    && (forall x :: x in was && x !in freed ==> x in ptrs)
    && (forall x :: x in freed ==> x in was)
  }

  /** Every index of `list` was clear, or among the blocks just freed. */
  ghost predicate WasFree(bits: seq<bool>, freed: seq<nat>, list: seq<nat>) {
    forall x :: x in list ==> x < |bits| && (!bits[x] || x in freed)
  }

  lemma ExchangeMine(l: Ledger, bits: seq<bool>, n: nat, freed: seq<nat>, added: seq<nat>, nodes: seq<nat>,
                     ptrs: seq<nat>)
    requires Tagged(l, |bits|) && BitsMatch(bits, l.tag) && n < |l.nodes|
    requires Keeps(ptrs, l.ptrs[n], freed, added)
    requires WasFree(bits, freed, nodes) && WasFree(bits, [], added) && Apart(nodes, added)
    ensures Mine(l.tag, n, nodes) && Mine(l.tag, n, ptrs) && Apart(ptrs, nodes)
    ensures forall x :: x in l.nodes[n] ==>
      x < |bits| && l.tag[x].NodeOf? && l.tag[x].ino == n && x !in nodes && x !in added
    ensures forall x :: x in l.ptrs[n] ==> x < |bits| && l.tag[x].DataOf? && l.tag[x].ino == n && bits[x]
  {
    forall x | x in l.ptrs[n] ensures x < |bits| && l.tag[x].DataOf? && l.tag[x].ino == n && bits[x] {
      var k :| 0 <= k < |l.ptrs[n]| && l.ptrs[n][k] == x;
    }
    forall x | x in l.nodes[n]
      ensures x < |bits| && l.tag[x].NodeOf? && l.tag[x].ino == n && x !in nodes && x !in added
    {
      var k :| 0 <= k < |l.nodes[n]| && l.nodes[n][k] == x;
    }
    forall k | 0 <= k < |nodes| ensures nodes[k] < |l.tag| && (l.tag[nodes[k]] == Free || l.tag[nodes[k]].ino == n) {
      assert nodes[k] in nodes;
    }
    forall k | 0 <= k < |ptrs|
      ensures ptrs[k] < |l.tag| && (l.tag[ptrs[k]] == Free || l.tag[ptrs[k]].ino == n) && ptrs[k] !in nodes
    {
      assert ptrs[k] in ptrs;
      if ptrs[k] in added {
        assert ptrs[k] < |bits| && !bits[ptrs[k]];
      }
    }
  }

  lemma ExchangeMatch(l: Ledger, bits: seq<bool>, bits': seq<bool>, n: nat,
                      freed: seq<nat>, added: seq<nat>, nodes: seq<nat>, ptrs: seq<nat>)
    requires Tagged(l, |bits|) && Backed(l) && BitsMatch(bits, l.tag) && n < |l.nodes|
    requires Exchanged(bits, bits', freed, added, nodes, l.nodes[n]) && Keeps(ptrs, l.ptrs[n], freed, added)
    requires WasFree(bits, freed, nodes) && WasFree(bits, [], added) && Apart(nodes, added)
    ensures Mine(l.tag, n, nodes) && Mine(l.tag, n, ptrs) && Apart(ptrs, nodes)
    ensures BitsMatch(bits', Remap(l, n, nodes, ptrs).tag)
  {
    hide Tagged, Mine, Apart, WasFree;
    ExchangeMine(l, bits, n, freed, added, nodes, ptrs);
  }

  /** The data blocks of inode `n`, in file order. */
  ghost function FileBlocks(s: Vol, l: Ledger, n: nat): (q: seq<Block>)
    requires n < |l.ptrs| && forall k :: 0 <= k < |l.ptrs[n]| ==> l.ptrs[n][k] < |s.data|
    ensures |q| == |l.ptrs[n]| && forall k :: 0 <= k < |q| ==> q[k] == s.data[l.ptrs[n][k]]
  {
    seq(|l.ptrs[n]|, k requires 0 <= k < |l.ptrs[n]| => s.data[l.ptrs[n][k]])
  }

  /** Every block now mapped by some file has the contents it had in `data`. */
  ghost predicate ContentsKept(l: Ledger, data: seq<Block>, data': seq<Block>) {
    |data'| == |data| && forall n, k :: 0 <= n < |l.ptrs| && 0 <= k < |l.ptrs[n]| && l.ptrs[n][k] < |data| ==>
      data'[l.ptrs[n][k]] == data[l.ptrs[n][k]]
  }

  ghost predicate ChangedOnly(data: seq<Block>, data': seq<Block>, a: seq<nat>, b: seq<nat>, c: seq<nat>) {
    |data'| == |data| && forall i :: 0 <= i < |data| && i !in a && i !in b && i !in c ==> data'[i] == data[i]
  }

  /** A whole allocation or release keeps the invariant and the contents of every mapped block. */
  lemma ExchangeOwned(g: Geometry, s: Vol, l: Ledger, s': Vol, n: nat,
                      freed: seq<nat>, added: seq<nat>, nodes: seq<nat>, ptrs: seq<nat>)
    requires Owned(g, s, l) && n < |s.inodes| && |s'.inodes| == |s.inodes| && |s.data| == g.dataBlkNum == |s.bits|
    requires forall m :: 0 <= m < |s.inodes| && m != n ==> s'.inodes[m] == s.inodes[m]
    requires Exchanged(s.bits, s'.bits, freed, added, nodes, l.nodes[n]) && Keeps(ptrs, l.ptrs[n], freed, added)
    requires WasFree(s.bits, freed, nodes) && WasFree(s.bits, [], added) && Apart(nodes, added)
    requires Distinct(nodes) && Distinct(ptrs) && Mapped(g, s'.data, s'.inodes[n], nodes, ptrs)
    requires ChangedOnly(s.data, s'.data, freed, nodes, l.nodes[n])
    ensures Owned(g, s', Remap(l, n, nodes, ptrs)) && ContentsKept(Remap(l, n, nodes, ptrs), s.data, s'.data)
  {
    hide Tagged, Backed, BitsMatch, Mapped, Exchanged, WasFree, Remap, Mine;
    ExchangeMine(l, s.bits, n, freed, added, nodes, ptrs);
    ExchangeMatch(l, s.bits, s'.bits, n, freed, added, nodes, ptrs);
    OthersUntouched(l, s.bits, n, freed, added, nodes, ptrs, s.data, s'.data);
    RemapOwned(g, s, l, s', n, nodes, ptrs);
    KeptContents(l, g.dataBlkNum, n, freed, added, nodes, ptrs, s.bits, s.data, s'.data);
  }

  lemma OthersUntouched(l: Ledger, bits: seq<bool>, n: nat, freed: seq<nat>, added: seq<nat>, nodes: seq<nat>,
                        ptrs: seq<nat>, data: seq<Block>, data': seq<Block>)
    requires Tagged(l, |bits|) && BitsMatch(bits, l.tag) && n < |l.nodes| && |data| == |bits|
    requires Keeps(ptrs, l.ptrs[n], freed, added) && Mine(l.tag, n, nodes)
    requires forall x :: x in l.nodes[n] ==> x < |bits| && l.tag[x].NodeOf? && l.tag[x].ino == n
    requires forall x :: x in l.ptrs[n] ==> x < |bits| && l.tag[x].DataOf? && l.tag[x].ino == n
    requires ChangedOnly(data, data', freed, nodes, l.nodes[n])
    ensures OthersKept(l.tag, n, data, data')
  {
    hide Tagged, BitsMatch;
    forall i | 0 <= i < |l.tag| && i < |data| && l.tag[i] != Free && l.tag[i].ino != n ensures data'[i] == data[i] {
      NotMine(l.tag, n, nodes, i);
    }
  }

  lemma KeptContents(l: Ledger, dataNum: nat, n: nat, freed: seq<nat>, added: seq<nat>, nodes: seq<nat>, ptrs: seq<nat>,
                     bits: seq<bool>, data: seq<Block>, data': seq<Block>)
    requires Tagged(l, dataNum) && n < |l.nodes| && |bits| == dataNum == |data| && BitsMatch(bits, l.tag)
    requires Keeps(ptrs, l.ptrs[n], freed, added) && Apart(ptrs, nodes) && WasFree(bits, [], added)
    requires forall x :: x in l.nodes[n] ==>
      x < |bits| && l.tag[x].NodeOf? && l.tag[x].ino == n && x !in nodes && x !in added
    requires forall x :: x in l.ptrs[n] ==> x < |bits| && l.tag[x].DataOf? && l.tag[x].ino == n && bits[x]
    requires ChangedOnly(data, data', freed, nodes, l.nodes[n]) && OthersKept(l.tag, n, data, data')
    ensures ContentsKept(Remap(l, n, nodes, ptrs), data, data')
  {
    var r := Remap(l, n, nodes, ptrs);
    forall m, k | 0 <= m < |r.ptrs| && 0 <= k < |r.ptrs[m]| && r.ptrs[m][k] < |data|
      ensures data'[r.ptrs[m][k]] == data[r.ptrs[m][k]]
    {
      var x := r.ptrs[m][k];
      if m == n {
        assert x in ptrs && x !in nodes;
        if x in added {
          assert !bits[x];
        }
      } else {
        assert l.tag[l.ptrs[m][k]] == DataOf(m, k);
      }
    }
  }

  /** Bits of the blocks an inode owns are set. */
  lemma OwnedBitsSet(l: Ledger, bits: seq<bool>, n: nat)
    requires Tagged(l, |bits|) && BitsMatch(bits, l.tag) && n < |l.nodes|
    ensures InUse(bits, l.nodes[n]) && InUse(bits, l.ptrs[n]) && Apart(l.ptrs[n], l.nodes[n])
  {
    forall k | 0 <= k < |l.nodes[n]| ensures l.nodes[n][k] < |bits| && bits[l.nodes[n][k]] {
      assert l.tag[l.nodes[n][k]] == NodeOf(n, k);
    }
    forall k | 0 <= k < |l.ptrs[n]| ensures l.ptrs[n][k] < |bits| && bits[l.ptrs[n][k]] {
      assert l.tag[l.ptrs[n][k]] == DataOf(n, k);
    }
    forall k, j | 0 <= k < |l.ptrs[n]| && 0 <= j < |l.nodes[n]| ensures l.ptrs[n][k] != l.nodes[n][j] {
      assert l.tag[l.ptrs[n][k]] == DataOf(n, k) && l.tag[l.nodes[n][j]] == NodeOf(n, j);
    }
    forall i, j | 0 <= i < j < |l.nodes[n]| ensures l.nodes[n][i] != l.nodes[n][j] {
      assert l.tag[l.nodes[n][i]] == NodeOf(n, i) && l.tag[l.nodes[n][j]] == NodeOf(n, j);
    }
    forall i, j | 0 <= i < j < |l.ptrs[n]| ensures l.ptrs[n][i] != l.ptrs[n][j] {
      assert l.tag[l.ptrs[n][i]] == DataOf(n, i) && l.tag[l.ptrs[n][j]] == DataOf(n, j);
    }
  }

  /** The bitmap after an allocation: `added`, then `nodes` taken, then `dropped` released. */
  ghost function AllocBits(bits: seq<bool>, added: seq<nat>, nodes: seq<nat>, dropped: seq<nat>): seq<bool> {
    SetAll(SetAll(SetAll(bits, added, true), nodes, true), dropped, false)
  }

  lemma AllocBitsFacts(bits: seq<bool>, added: seq<nat>, nodes: seq<nat>, dropped: seq<nat>)
    requires Taken(bits, added) && Taken(SetAll(bits, added, true), nodes) && InUse(bits, dropped)
    ensures Exchanged(bits, AllocBits(bits, added, nodes, dropped), [], added, nodes, dropped)
    ensures WasFree(bits, [], nodes) && WasFree(bits, [], added) && Apart(nodes, added) && Apart(dropped, nodes)
    ensures FreeCount(AllocBits(bits, added, nodes, dropped)) == FreeCount(bits) - |added| - |nodes| + |dropped|
  {
    hide FreeCount;
    var one := SetAll(bits, added, true);
    var two := SetAll(one, nodes, true);
    assert forall k :: 0 <= k < |nodes| ==> !one[nodes[k]];
    assert Apart(nodes, added);
    assert forall k :: 0 <= k < |dropped| ==> two[dropped[k]];
    SetAllCount(bits, added, true);
    SetAllCount(one, nodes, true);
    SetAllCount(two, dropped, false);
  }

  /** Blocks in use stay so when free ones are taken, and the two do not meet. */
  lemma TakenApart(bits: seq<bool>, list: seq<nat>, used: seq<nat>)
    requires Taken(bits, list) && InUse(bits, used)
    ensures Apart(used, list) && Apart(list, used) && InUse(SetAll(bits, list, true), used)
  {
  }

  lemma SetThenClear(bits: seq<bool>, list: seq<nat>)
    requires Taken(bits, list)
    ensures SetAll(SetAll(bits, list, true), list, false) == bits
  {
    var r := SetAll(SetAll(bits, list, true), list, false);
    forall i | 0 <= i < |bits| ensures r[i] == bits[i] {
      if i in list {
        var k :| 0 <= k < |list| && list[k] == i;
      }
    }
  }

  lemma AppendKeeps(was: seq<nat>, added: seq<nat>, bits: seq<bool>)
    requires InUse(bits, was) && Taken(bits, added)
    ensures Distinct(was + added) && AllBelow(was + added, |bits|) && Keeps(was + added, was, [], added)
  {
  }

  lemma RemapLists(l: Ledger, n: nat, nodes: seq<nat>, ptrs: seq<nat>)
    requires n < |l.nodes| == |l.ptrs|
    ensures Remap(l, n, nodes, ptrs).nodes == l.nodes[n := nodes] && Remap(l, n, nodes, ptrs).ptrs == l.ptrs[n := ptrs]
  {
  }

  lemma TakenCount(bits: seq<bool>, list: seq<nat>)
    requires Taken(bits, list)
    ensures FreeCount(SetAll(bits, list, true)) == FreeCount(bits) - |list| && AllBelow(list, |bits|)
  {
    SetAllCount(bits, list, true);
  }

  /** The bitmap after a release: `freed` cleared, then `nodes` taken, then `dropped` released. */
  ghost function FreeBits(bits: seq<bool>, freed: seq<nat>, nodes: seq<nat>, dropped: seq<nat>): seq<bool> {
    SetAll(SetAll(SetAll(bits, freed, false), nodes, true), dropped, false)
  }

  lemma FreeBitsFacts(bits: seq<bool>, freed: seq<nat>, nodes: seq<nat>, dropped: seq<nat>)
    requires InUse(bits, freed) && InUse(bits, dropped) && Apart(freed, dropped)
    requires Taken(SetAll(bits, freed, false), nodes)
    ensures Exchanged(bits, FreeBits(bits, freed, nodes, dropped), freed, [], nodes, dropped)
    ensures WasFree(bits, freed, nodes) && WasFree(bits, [], [])
    ensures FreeCount(FreeBits(bits, freed, nodes, dropped)) == FreeCount(bits) + |freed| - |nodes| + |dropped|
  {
    hide FreeCount;
    var one := SetAll(bits, freed, false);
    var two := SetAll(one, nodes, true);
    FreedLeaves(bits, freed, dropped);
    assert forall k :: 0 <= k < |nodes| ==> !one[nodes[k]];
    TakenApart(one, nodes, dropped);
    SetAllCount(bits, freed, false);
    SetAllCount(one, nodes, true);
    SetAllCount(two, dropped, false);
  }

  lemma ApartSym(a: seq<nat>, b: seq<nat>)
    requires Apart(a, b)
    ensures Apart(b, a)
  {
  }

  lemma FreedLeaves(bits: seq<bool>, freed: seq<nat>, used: seq<nat>)
    requires InUse(bits, freed) && InUse(bits, used) && Apart(freed, used)
    ensures InUse(SetAll(bits, freed, false), used)
    ensures FreeCount(SetAll(bits, freed, false)) == FreeCount(bits) + |freed|
  {
    hide FreeCount;
    ApartSym(freed, used);
    SetAllCount(bits, freed, false);
  }

  lemma ClearThenSet(bits: seq<bool>, list: seq<nat>)
    requires InUse(bits, list)
    ensures SetAll(SetAll(bits, list, false), list, true) == bits
  {
    var r := SetAll(SetAll(bits, list, false), list, true);
    forall i | 0 <= i < |bits| ensures r[i] == bits[i] {
      if i in list {
        var k :| 0 <= k < |list| && list[k] == i;
      }
    }
  }

  ghost function Excise(was: seq<nat>, start: nat, m: nat): (kept: seq<nat>)
    requires start + m <= |was|
    ensures |kept| == |was| - m
    ensures forall k :: 0 <= k < |kept| ==> kept[k] == was[if k < start then k else k + m]
  {
    was[..start] + was[start + m..]
  }

  lemma CutFreed(was: seq<nat>, start: nat, m: nat, bits: seq<bool>)
    requires InUse(bits, was) && start + m <= |was|
    ensures InUse(bits, was[start..start + m]) && forall x :: x in was[start..start + m] ==> x in was
  {
  }

  lemma CutKept(was: seq<nat>, start: nat, m: nat, bits: seq<bool>)
    requires InUse(bits, was) && start + m <= |was|
    ensures Distinct(Excise(was, start, m)) && AllBelow(Excise(was, start, m), |bits|)
    ensures forall k :: 0 <= k < |was| - m ==>
      Excise(was, start, m)[k] in was && Excise(was, start, m)[k] !in was[start..start + m]
  {
    var freed, kept := was[start..start + m], Excise(was, start, m);
    forall k | 0 <= k < |kept| ensures kept[k] !in freed {
      forall j | 0 <= j < m ensures freed[j] != kept[k] {
        assert freed[j] == was[start + j];
      }
    }
  }

  lemma CutRest(was: seq<nat>, start: nat, m: nat, k: nat)
    requires start + m <= |was| && k < |was|
    ensures was[k] in was[start..start + m] || was[k] in Excise(was, start, m)
  {
    var freed, kept := was[start..start + m], Excise(was, start, m);
    if start <= k < start + m {
      assert freed[k - start] == was[k];
    } else {
      assert kept[if k < start then k else k - m] == was[k];
    }
  }

  /** Cutting a slice out of a list of distinct blocks. */
  lemma CutKeeps(was: seq<nat>, start: nat, m: nat, bits: seq<bool>)
    requires InUse(bits, was) && start + m <= |was|
    ensures InUse(bits, was[start..start + m]) && forall x :: x in was[start..start + m] ==> x in was
    ensures Distinct(Excise(was, start, m)) && AllBelow(Excise(was, start, m), |bits|)
    ensures Keeps(Excise(was, start, m), was, was[start..start + m], [])
  {
    hide InUse, Distinct, AllBelow, Excise;
    CutFreed(was, start, m, bits);
    CutKept(was, start, m, bits);
    forall x | x in was && x !in was[start..start + m] ensures x in Excise(was, start, m) {
      var k :| 0 <= k < |was| && was[k] == x;
      CutRest(was, start, m, k);
    }
  }

  /** The invariant does not depend on what the data blocks of files hold. */
  lemma OwnedDataFrame(g: Geometry, s: Vol, l: Ledger, s': Vol, n: nat, list: seq<nat>)
    requires Owned(g, s, l) && s' == s.(data := s'.data) && ChangedOnly(s.data, s'.data, list, [], [])
    requires n < |l.ptrs| && forall x :: x in list ==> x in l.ptrs[n]
    ensures Owned(g, s', l)
  {
    hide Chain, RecMaps;
    forall m | 0 <= m < |s.inodes| ensures Mapped(g, s'.data, s'.inodes[m], l.nodes[m], l.ptrs[m]) {
      assert Mapped(g, s.data, s.inodes[m], l.nodes[m], l.ptrs[m]);
      forall j | 0 <= j < |l.nodes[m]| && l.nodes[m][j] < |s.data|
        ensures s'.data[l.nodes[m][j]] == s.data[l.nodes[m][j]]
      {
        NodeNotData(l, g.dataBlkNum, m, j, n);
      }
      ChainFrame(s.data, s'.data, g.dataRegionStart, PtrsPerNode(g.blkSize), l.nodes[m], l.ptrs[m]);
    }
  }

  lemma NodeNotData(l: Ledger, dataNum: nat, m: nat, j: nat, n: nat)
    requires Tagged(l, dataNum) && m < |l.nodes| && j < |l.nodes[m]| && n < |l.ptrs|
    ensures l.nodes[m][j] !in l.ptrs[n]
  {
    forall k | 0 <= k < |l.ptrs[n]| ensures l.ptrs[n][k] != l.nodes[m][j] {
      assert l.tag[l.ptrs[n][k]] == DataOf(n, k) && l.tag[l.nodes[m][j]] == NodeOf(m, j);
    }
  }

  /** The invariant reads only the list head and the block count of a record. */
  lemma OwnedInodeFrame(g: Geometry, s: Vol, l: Ledger, n: nat, rec: Inode)
    requires Owned(g, s, l) && n < |s.inodes|
    requires (rec.head == s.inodes[n].head && rec.nr == s.inodes[n].nr)
      || (l.ptrs[n] == [] && rec.head == 0 && rec.nr == 0)
    ensures Owned(g, s.(inodes := s.inodes[n := rec]), l)
  {
    hide Chain;
    var s' := s.(inodes := s.inodes[n := rec]);
    assert Mapped(g, s.data, s.inodes[n], l.nodes[n], l.ptrs[n]);
    if l.ptrs[n] == [] {
      WalkStart(s.data, g.dataRegionStart, PtrsPerNode(g.blkSize), l.nodes[n], l.ptrs[n]);
    }
    forall m | 0 <= m < |s'.inodes| ensures Mapped(g, s'.data, s'.inodes[m], l.nodes[m], l.ptrs[m]) {
      assert Mapped(g, s.data, s.inodes[m], l.nodes[m], l.ptrs[m]);
    }
  }

  lemma OwnedBitFrame(g: Geometry, s: Vol, l: Ledger, ibits: seq<bool>)
    requires Owned(g, s, l)
    ensures Owned(g, s.(ibits := ibits), l)
  {
  }

  /** A list entry, wherever it stands. */
  ghost predicate Lists(l: Ledger, t: Tag, i: nat) {
    match t
    case Free => false
    case NodeOf(n, k) => n < |l.nodes| && k < |l.nodes[n]| && l.nodes[n][k] == i
    case DataOf(n, k) => n < |l.ptrs| && k < |l.ptrs[n]| && l.ptrs[n][k] == i
  }

  /** No block is owned twice, and the set bits are exactly the owned blocks: nothing is lost, nothing is claimed
      twice. */
  lemma OneOwner(g: Geometry, s: Vol, l: Ledger, i: nat)
    requires Owned(g, s, l) && i < g.dataBlkNum
    ensures i < |s.bits| && (s.bits[i] <==> exists t :: Lists(l, t, i))
    ensures forall t, u :: Lists(l, t, i) && Lists(l, u, i) ==> t == u
  {
    hide Mapped;
    forall t | Lists(l, t, i) ensures t == l.tag[i] && l.tag[i] != Free {
    }
    if s.bits[i] {
      assert Lists(l, l.tag[i], i);
    }
  }

  /** Ownership is a fact about the disk: its bytes admit one ledger only. */
  lemma LedgerUnique(g: Geometry, s: Vol, l: Ledger, m: Ledger)
    requires Owned(g, s, l) && Owned(g, s, m) && g.dataRegionStart > 0 && PtrsPerNode(g.blkSize) > 0
    ensures l == m
  {
    hide Chain, RecMaps;
    forall n | 0 <= n < |s.inodes| ensures l.nodes[n] == m.nodes[n] && l.ptrs[n] == m.ptrs[n] {
      assert Mapped(g, s.data, s.inodes[n], l.nodes[n], l.ptrs[n])
        && Mapped(g, s.data, s.inodes[n], m.nodes[n], m.ptrs[n]);
      ChainUnique(s.data, s.inodes[n], g.dataRegionStart, PtrsPerNode(g.blkSize), l.nodes[n], l.ptrs[n], m.nodes[n],
        m.ptrs[n]);
    }
    assert l.nodes == m.nodes && l.ptrs == m.ptrs;
    forall i | 0 <= i < g.dataBlkNum ensures l.tag[i] == m.tag[i] {
      OneOwner(g, s, l, i);
      OneOwner(g, s, m, i);
      assert Lists(l, l.tag[i], i) <==> Lists(m, l.tag[i], i);
    }
  }
}
