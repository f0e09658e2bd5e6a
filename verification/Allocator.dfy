/** Block mapping and allocation: mofs_block.c over the mounted volume. */
module Allocator {
  import opened Errors
  import opened Bytes
  import opened Layout
  import opened ListNodes
  import opened Mapping
  import opened BlockCaches
  import opened Volumes
  import opened Ownership

  /** `list` is `ptrs` as absolute block numbers. */
  ghost predicate IsAbs(list: seq<nat>, base: nat, ptrs: seq<nat>) {
    |list| == |ptrs| && forall k :: 0 <= k < |list| ==> list[k] == base + ptrs[k]
  }

  lemma NodeAt(d: Block, base: nat, next: int, ptrs: seq<nat>, p: nat)
    requires NodeHolds(d, base, next, ptrs) && p < |ptrs|
    ensures 8 + 4 * p + 4 <= |d| && U32(d, 8 + 4 * p) == base + ptrs[p]
  {
  }

  /** The inner loop of the export: the pointers of one node. */
  method CopyPtrs(ghost v: Volume, buf: Block, nr: nat, total: nat, before: seq<nat>,
                  ghost base: nat, ghost next: int, ghost ptrs: seq<nat>)
    returns (err: Errno, list: seq<nat>)
    requires v.Valid()
    requires NodeHolds(buf, base, next, ptrs) && nr == |ptrs| && |before| <= total
    ensures v.Valid()
    ensures err == if |before| + nr <= total then Ok else EIO
    ensures err == Ok ==> |list| == |before| + nr && list[..|before|] == before && IsAbs(list[|before|..], base, ptrs)
  {
    hide U32, Volume.Valid;
    list := before;
    var i := 0;
    while i < nr
      invariant v.Valid()
      invariant 0 <= i <= nr && |list| == |before| + i && list[..|before|] == before
      invariant |before| + i <= total
      invariant forall k :: 0 <= k < i ==> list[|before| + k] == base + ptrs[k]
    {
      if |list| >= total {
        return EIO, list;
      }
      NodeAt(buf, base, next, ptrs, i);
      list := list + [U32(buf, 8 + 4 * i)];
      i := i + 1;
    }
    err := Ok;
  }

  /** export_data_block_list: the mapping as a flat list of absolute block numbers. */
  method Export(v: Volume, rec: Inode, ghost nodes: seq<nat>, ghost ptrs: seq<nat>) returns (err: Errno, list: seq<nat>)
    requires v.Valid() && RecMaps(rec, v.geo.dataRegionStart, nodes, ptrs)
    requires Chain(v.vol.data, v.geo.dataRegionStart, PtrsPerNode(v.geo.blkSize), nodes, ptrs)
    modifies v.io.Repr()
    ensures v.Valid() && err == Ok && IsAbs(list, v.geo.dataRegionStart, ptrs)
    ensures Settles(v.vol.data, old(v.Disk()), v.Disk(), 0, 0)
  {
    hide Volume.Valid, Chain, At, U32, NodeHolds, NextOf;
    list := [];
    if rec.nr == 0 {
      return Ok, list;
    }
    ghost var base, cap := v.geo.dataRegionStart, PtrsPerNode(v.geo.blkSize);
    GeoFacts(v);
    WalkStart(v.vol.data, base, cap, nodes, ptrs);
    if rec.head == 0 || PtrsPerNode(v.geo.blkSize) == 0 {
      return EINVAL, list;
    }
    var node := rec.head;
    ghost var j: nat := 0;
    while node != 0
      invariant v.Valid() && At(base, cap, nodes, ptrs, j, |list|, node) && j <= |nodes|
      invariant |list| <= |ptrs| && IsAbs(list, base, ptrs[..|list|])
      invariant Settles(v.vol.data, old(v.Disk()), v.Disk(), 0, 0)
      decreases |nodes| - j
    {
      WalkStep(v.vol.data, base, cap, nodes, ptrs, j, |list|, node);
      ghost var n := if |ptrs| - |list| <= cap then |ptrs| - |list| else cap;
      ghost var chunk := ptrs[|list|..|list| + n];
      var buf;
      err, buf := v.ReadData(node);
      if err != Ok {
        return;
      }
      NodeHeader(buf, base, NextOf(nodes, j), chunk);
      if U32(buf, 4) > PtrsPerNode(v.geo.blkSize) {
        return EIO, list;
      }
      ghost var before := list;
      err, list := CopyPtrs(v, buf, U32(buf, 4), rec.nr, list, base, NextOf(nodes, j), chunk);
      if err != Ok {
        return;
      }
      AbsAppend(before, list, base, ptrs, chunk);
      node := U32(buf, 0);
      j := j + 1;
    }
    WalkStep(v.vol.data, base, cap, nodes, ptrs, j, |list|, node);
    assert ptrs[..|ptrs|] == ptrs;
    err := if |list| != rec.nr then EIO else Ok;
  }

  lemma GeoFacts(v: Volume)
    requires v.Valid()
    ensures v.geo.dataRegionStart > 0 && PtrsPerNode(v.geo.blkSize) >= 126
    ensures v.geo.dataRegionStart + v.geo.dataBlkNum == v.geo.holeBlkNum < LIMIT32
    ensures |v.vol.data| == v.geo.dataBlkNum == |v.vol.bits|
    ensures 512 <= v.geo.blkSize <= 65536 && 8 + 4 * PtrsPerNode(v.geo.blkSize) <= v.geo.blkSize
  {
  }

  lemma NodeHeader(d: Block, base: nat, next: int, ptrs: seq<nat>)
    requires NodeHolds(d, base, next, ptrs)
    ensures |d| >= 8 && U32(d, 0) == (if next < 0 then 0 else base + next) && U32(d, 4) == |ptrs|
  {
  }

  lemma AbsAppend(before: seq<nat>, list: seq<nat>, base: nat, ptrs: seq<nat>, chunk: seq<nat>)
    requires |before| + |chunk| <= |ptrs| && IsAbs(before, base, ptrs[..|before|])
    requires chunk == ptrs[|before|..|before| + |chunk|]
    requires |list| == |before| + |chunk| && list[..|before|] == before && IsAbs(list[|before|..], base, chunk)
    ensures IsAbs(list, base, ptrs[..|list|])
  {
    forall k | 0 <= k < |list| ensures list[k] == base + ptrs[k] {
      if k < |before| {
        assert list[k] == list[..|before|][k] && ptrs[..|before|][k] == ptrs[k];
      } else {
        assert list[k] == list[|before|..][k - |before|];
      }
    }
  }

  /** resolve_file_data_block: skip whole nodes until the index falls inside one. */
  method Resolve(v: Volume, ino: nat, k: nat, ghost nodes: seq<nat>, ghost ptrs: seq<nat>)
    returns (err: Errno, abs: nat)
    requires v.Valid()
    requires ino < v.geo.inodeNum ==>
               && RecMaps(v.vol.inodes[ino], v.geo.dataRegionStart, nodes, ptrs)
               && Chain(v.vol.data, v.geo.dataRegionStart, PtrsPerNode(v.geo.blkSize), nodes, ptrs)
    modifies v.io.Repr()
    ensures v.Valid() && Settles(v.vol.data, old(v.Disk()), v.Disk(), 0, 0)
    ensures ino < v.geo.inodeNum && k < |ptrs| ==> err == Ok && abs == v.geo.dataRegionStart + ptrs[k]
    ensures !(ino < v.geo.inodeNum && k < |ptrs|) ==> err == EINVAL
  {
    hide Volume.Valid, Chain, At, U32, NodeHolds, NextOf;
    abs := 0;
    var rec;
    err, rec := v.ReadInode(ino);
    if err != Ok {
      return;
    }
    if k >= rec.nr {
      return EINVAL, abs;
    }
    ghost var base, cap := v.geo.dataRegionStart, PtrsPerNode(v.geo.blkSize);
    GeoFacts(v);
    WalkStart(v.vol.data, base, cap, nodes, ptrs);
    if rec.head == 0 {
      return EIO, abs;
    }
    var remain, node := k, rec.head;
    ghost var j, pos: nat := 0, 0;
    while node != 0
      invariant v.Valid() && At(base, cap, nodes, ptrs, j, pos, node) && j <= |nodes|
      invariant pos <= |ptrs| && pos <= k && remain == k - pos
      invariant Settles(v.vol.data, old(v.Disk()), v.Disk(), 0, 0)
      decreases |nodes| - j
    {
      WalkStep(v.vol.data, base, cap, nodes, ptrs, j, pos, node);
      ghost var n := if |ptrs| - pos <= cap then |ptrs| - pos else cap;
      ghost var chunk := ptrs[pos..pos + n];
      var buf;
      err, buf := v.ReadData(node);
      if err != Ok {
        return;
      }
      NodeHeader(buf, base, NextOf(nodes, j), chunk);
      if U32(buf, 4) > PtrsPerNode(v.geo.blkSize) {
        return EIO, abs;
      }
      if remain < U32(buf, 4) {
        NodeAt(buf, base, NextOf(nodes, j), chunk, remain);
        abs := U32(buf, 8 + 4 * remain);
        return Ok, abs;
      }
      remain := remain - U32(buf, 4);
      node := U32(buf, 0);
      j, pos := j + 1, pos + n;
    }
    WalkStep(v.vol.data, base, cap, nodes, ptrs, j, pos, node);
    err := EIO;
  }

  /** set_data_bitmap_bit for every index of a list (update_data_bitmap_bits). */
  method SetDataBits(v: Volume, list: seq<nat>, on: bool) returns (err: Errno)
    requires v.Valid() && AllBelow(list, v.geo.dataBlkNum)
    modifies v`vol, v.io.Repr()
    ensures v.Valid() && err == Ok && v.vol == old(v.vol).(bits := SetAll(old(v.vol).bits, list, on))
  {
    hide Volume.Valid;
    err := Ok;
    GeoFacts(v);
    var i := 0;
    assert SetAll(v.vol.bits, list[..0], on) == v.vol.bits;
    while i < |list|
      invariant v.Valid() && 0 <= i <= |list| && err == Ok
      invariant v.vol == old(v.vol).(bits := SetAll(old(v.vol).bits, list[..i], on))
    {
      SetAllStep(old(v.vol).bits, list, i, on);
      err := v.SetDataBit(list[i], on);
      i := i + 1;
    }
    assert list[..|list|] == list;
  }

  /** One round of free_list_chain: note the next node, clear the bit of this one, drop its cached copy. */
  method DropNode(v: Volume, node: nat, ghost next: int, ghost ptrs: seq<nat>) returns (err: Errno, nextAbs: nat)
    requires v.Valid() && v.geo.dataRegionStart <= node < v.geo.holeBlkNum
    requires |v.vol.data| == |v.vol.bits| == v.geo.dataBlkNum == v.geo.holeBlkNum - v.geo.dataRegionStart
    requires NodeHolds(v.vol.data[node - v.geo.dataRegionStart], v.geo.dataRegionStart, next, ptrs)
    modifies v`vol, v.io.Repr()
    ensures v.Valid() && err == Ok
    ensures var i := node - v.geo.dataRegionStart;
            && |old(v.vol).data[i]| >= 8 && nextAbs == U32(old(v.vol).data[i], 0)
            && v.vol == old(v.vol).(bits := old(v.vol).bits[i := false], data := v.vol.data)
            && |v.vol.data| == |old(v.vol).data| && v.vol.data == old(v.vol).data[i := v.vol.data[i]]
  {
    hide Volume.Valid, U32, NodeHolds, Settles, Volume.Disk;
    nextAbs := 0;
    var buf;
    err, buf := v.ReadData(node);
    if err != Ok {
      return;
    }
    NodeHeader(buf, v.geo.dataRegionStart, next, ptrs);
    nextAbs := U32(buf, 0);
    err := v.SetDataBit(node - v.geo.dataRegionStart, false);
    if err != Ok {
      return;
    }
    v.Invalidate(node);
  }

  /** free_list_chain: the bits of the node blocks are cleared and their cached copies dropped. */
  method FreeChain(v: Volume, head: nat, ghost nodes: seq<nat>, ghost ptrs: seq<nat>) returns (err: Errno)
    requires v.Valid() && Distinct(nodes)
    requires Chain(v.vol.data, v.geo.dataRegionStart, PtrsPerNode(v.geo.blkSize), nodes, ptrs)
    requires head == if nodes == [] then 0 else v.geo.dataRegionStart + nodes[0]
    modifies v`vol, v.io.Repr()
    ensures v.Valid() && err == Ok
    ensures v.vol.inodes == old(v.vol).inodes && v.vol.ibits == old(v.vol).ibits
    ensures v.vol.bits == SetAll(old(v.vol).bits, nodes, false)
    ensures |v.vol.data| == |old(v.vol).data|
    ensures forall i :: 0 <= i < |v.vol.data| && i !in nodes ==> v.vol.data[i] == old(v.vol).data[i]
  {
    hide Volume.Valid, Chain, At, U32, NodeHolds, NextOf, Settles, Volume.Disk;
    ghost var base, cap, data := v.geo.dataRegionStart, PtrsPerNode(v.geo.blkSize), v.vol.data;
    err := Ok;
    GeoFacts(v);
    WalkStart(data, base, cap, nodes, ptrs);
    var node: nat := head;
    ghost var j, pos: nat := 0, 0;
    assert SetAll(v.vol.bits, nodes[..0], false) == v.vol.bits;
    while node != 0
      invariant v.Valid() && At(base, cap, nodes, ptrs, j, pos, node) && j <= |nodes| && pos <= |ptrs| && err == Ok
      invariant v.vol.inodes == old(v.vol).inodes && v.vol.ibits == old(v.vol).ibits && |v.vol.data| == |data|
      invariant v.vol.bits == SetAll(old(v.vol).bits, nodes[..j], false)
      invariant forall i :: 0 <= i < |data| && i !in nodes[..j] ==> v.vol.data[i] == data[i]
      decreases |nodes| - j
    {
      WalkStep(data, base, cap, nodes, ptrs, j, pos, node);
      ghost var n := if |ptrs| - pos <= cap then |ptrs| - pos else cap;
      assert nodes[j] !in nodes[..j];
      SetAllStep(old(v.vol).bits, nodes, j, false);
      var next;
      err, next := DropNode(v, node, NextOf(nodes, j), ptrs[pos..pos + n]);
      if err != Ok {
        return;
      }
      assert nodes[..j + 1] == nodes[..j] + [nodes[j]];
      node := next;
      j, pos := j + 1, pos + n;
    }
    WalkStep(data, base, cap, nodes, ptrs, j, pos, node);
    assert nodes[..|nodes|] == nodes;
  }

  /** The block rebuild writes for one node: header, pointers, zeros. */
  method BuildNode(ghost v: Volume, bs: nat, nextAbs: nat, list: seq<nat>) returns (buf: Block)
    requires v.Valid()
    requires 8 + 4 * |list| <= bs < LIMIT32 && nextAbs < LIMIT32
    requires forall p :: 0 <= p < |list| ==> list[p] < LIMIT32
    ensures v.Valid()
    ensures |buf| == bs && U32(buf, 0) == nextAbs && U32(buf, 4) == |list|
    ensures forall p :: 0 <= p < |list| ==> U32(buf, 8 + 4 * p) == list[p]
  {
    hide U32, PutU32, Volume.Valid;
    buf := Zeros(bs);
    buf := PutU32(buf, 0, nextAbs);
    PutU32At(Zeros(bs), 0, nextAbs, 0);
    PutU32At(buf, 4, |list|, 0);
    PutU32At(buf, 4, |list|, 4);
    buf := PutU32(buf, 4, |list|);
    var p := 0;
    while p < |list|
      invariant v.Valid()
      invariant 0 <= p <= |list| && |buf| == bs && U32(buf, 0) == nextAbs && U32(buf, 4) == |list|
      invariant forall q :: 0 <= q < p ==> U32(buf, 8 + 4 * q) == list[q]
    {
      var next := PutU32(buf, 8 + 4 * p, list[p]);
      PutU32At(buf, 8 + 4 * p, list[p], 0);
      PutU32At(buf, 8 + 4 * p, list[p], 4);
      forall q | 0 <= q <= p ensures U32(next, 8 + 4 * q) == list[q] {
        PutU32At(buf, 8 + 4 * p, list[p], 8 + 4 * q);
      }
      buf := next;
      p := p + 1;
    }
  }

  /** The first `i` nodes are on disk and linked. */
  ghost predicate LinkedUpTo(data: seq<Block>, base: nat, nodes: seq<nat>, chunks: seq<seq<nat>>, i: nat) {
    |nodes| == |chunks| && i <= |nodes| && forall j :: 0 <= j < i ==> Linked(data, base, nodes, chunks, j)
  }

  lemma LinkNext(data: seq<Block>, base: nat, nodes: seq<nat>, chunks: seq<seq<nat>>, i: nat, buf: Block)
    requires LinkedUpTo(data, base, nodes, chunks, i) && i < |nodes| && Distinct(nodes) && nodes[i] < |data|
    requires NodeHolds(buf, base, NextOf(nodes, i), chunks[i])
    ensures LinkedUpTo(data[nodes[i] := buf], base, nodes, chunks, i + 1)
  {
    hide NodeHolds, NextOf;
    var data' := data[nodes[i] := buf];
    forall j | 0 <= j < i + 1 ensures Linked(data', base, nodes, chunks, j) {
      if j < i {
        assert Linked(data, base, nodes, chunks, j);
        assert nodes[j] != nodes[i];
      }
    }
  }

  lemma NodeBuilt(buf: Block, base: nat, next: int, nextAbs: nat, list: seq<nat>, ptrs: seq<nat>)
    requires |buf| >= 8 + 4 * |list| && U32(buf, 0) == nextAbs && U32(buf, 4) == |list| && IsAbs(list, base, ptrs)
    requires forall p :: 0 <= p < |list| ==> U32(buf, 8 + 4 * p) == list[p]
    requires nextAbs == if next < 0 then 0 else base + next
    ensures NodeHolds(buf, base, next, ptrs)
  {
    hide U32;
  }

  /** The loop of rebuild_data_block_list that fills and writes one node block after the other. */
  method WriteNodes(v: Volume, nodes: seq<nat>, list: seq<nat>, ghost ptrs: seq<nat>) returns (err: Errno)
    requires v.Valid() && IsAbs(list, v.geo.dataRegionStart, ptrs) && AllBelow(ptrs, v.geo.dataBlkNum)
    requires Distinct(nodes) && AllBelow(nodes, v.geo.dataBlkNum)
    requires PtrsPerNode(v.geo.blkSize) > 0 && |nodes| == |Cut(ptrs, PtrsPerNode(v.geo.blkSize))|
    modifies v`vol, v.io.Repr()
    ensures v.Valid() && err == Ok
    ensures v.vol == old(v.vol).(data := v.vol.data) && |v.vol.data| == |old(v.vol).data|
    ensures forall i :: 0 <= i < |v.vol.data| && i !in nodes ==> v.vol.data[i] == old(v.vol).data[i]
    ensures Chain(v.vol.data, v.geo.dataRegionStart, PtrsPerNode(v.geo.blkSize), nodes, ptrs)
  {
    hide Volume.Valid, U32, NodeHolds, Linked, Cut;
    var base, cap := v.geo.dataRegionStart, PtrsPerNode(v.geo.blkSize);
    ghost var chunks := Cut(ptrs, cap);
    GeoFacts(v);
    err := Ok;
    var pos, i := 0, 0;
    assert ptrs[0..] == ptrs && chunks[0..] == chunks;
    while i < |nodes|
      invariant v.Valid() && 0 <= i <= |nodes| && 0 <= pos <= |ptrs| && err == Ok
      invariant v.vol == old(v.vol).(data := v.vol.data) && |v.vol.data| == |old(v.vol).data|
      invariant Cut(ptrs[pos..], cap) == chunks[i..]
      invariant LinkedUpTo(v.vol.data, base, nodes, chunks, i)
      invariant forall b :: 0 <= b < |v.vol.data| && b !in nodes ==> v.vol.data[b] == old(v.vol).data[b]
    {
      var n := |list| - pos;
      if n > cap {
        n := cap;
      }
      if ptrs[pos..] == [] {
        CutEmpty(cap);
      }
      CutHead(ptrs[pos..], cap);
      assert ptrs[pos..][..n] == ptrs[pos..pos + n] && ptrs[pos..][n..] == ptrs[pos + n..];
      var next := if i + 1 < |nodes| then base + nodes[i + 1] else 0;
      var buf := BuildNode(v, v.geo.blkSize, next, list[pos..pos + n]);
      NodeBuilt(buf, base, NextOf(nodes, i), next, list[pos..pos + n], ptrs[pos..pos + n]);
      LinkNext(v.vol.data, base, nodes, chunks, i, buf);
      err := v.WriteData(base + nodes[i], buf);
      pos := pos + n;
      i := i + 1;
    }
  }

  /** rebuild_data_block_list: a new chain for `ptrs` on the lowest free blocks; the old chain stays. */
  method Rebuild(v: Volume, rec: Inode, list: seq<nat>, ghost ptrs: seq<nat>)
    returns (err: Errno, rec': Inode, ghost nodes: seq<nat>)
    requires v.Valid() && IsAbs(list, v.geo.dataRegionStart, ptrs) && AllBelow(ptrs, v.geo.dataBlkNum)
    requires PtrsPerNode(v.geo.blkSize) > 0 && |ptrs| <= MAX_FILE_DATA_BLOCKS && Fits(rec)
    modifies v`vol, v.io.Repr()
    ensures v.Valid() && v.vol.inodes == old(v.vol).inodes && v.vol.ibits == old(v.vol).ibits
    ensures |v.vol.data| == |old(v.vol).data|
    ensures var need := NodesFor(|ptrs|, PtrsPerNode(v.geo.blkSize));
            && err == (if need <= FreeCount(old(v.vol).bits) then Ok else ENOSPC)
            && (err == Ok ==> nodes == Lowest(old(v.vol).bits, need))
    ensures err != Ok ==> v.vol == old(v.vol) && rec' == rec && Settles(v.vol.data, old(v.Disk()), v.Disk(), 0, 0)
    ensures err == Ok ==>
              && v.vol.bits == SetAll(old(v.vol).bits, nodes, true)
              && (forall i :: 0 <= i < |v.vol.data| && i !in nodes ==> v.vol.data[i] == old(v.vol).data[i])
              && Chain(v.vol.data, v.geo.dataRegionStart, PtrsPerNode(v.geo.blkSize), nodes, ptrs)
              && RecMaps(rec', v.geo.dataRegionStart, nodes, ptrs)
              && rec' == rec.(head := rec'.head, nr := |ptrs|) && Fits(rec')
  {
    hide Volume.Valid, Linked, FreeCount, Lowest;
    var base, cap := v.geo.dataRegionStart, PtrsPerNode(v.geo.blkSize);
    rec', nodes := rec, [];
    GeoFacts(v);
    CutShape(ptrs, cap);
    if |list| == 0 {
      rec' := rec.(head := 0, nr := 0);
      assert SetAll(v.vol.bits, nodes, true) == v.vol.bits;
      CeilDivBounds(0, cap);
      return Ok, rec', nodes;
    }
    CeilDivBounds(|ptrs|, cap);
    var found;
    err, found := v.FindFreeData(NodesFor(|list|, cap));
    if err != Ok {
      return;
    }
    nodes := found;
    LowestFree(v.vol.bits, |found|);
    err := SetDataBits(v, found, true);
    if err != Ok {
      return;
    }
    err := WriteNodes(v, found, list, ptrs);
    rec' := rec.(head := base + found[0], nr := |list|);
  }

  /** What a successful allocation did: the lowest free blocks appended, nothing else touched. */
  ghost predicate Grown(g: Geometry, s: Vol, l: Ledger, s': Vol, l': Ledger, ino: nat, n: nat, added: seq<nat>)
    requires ino < |s.inodes| && ino < |l.ptrs| && PtrsPerNode(g.blkSize) > 0
  {
    && n <= FreeCount(s.bits) && added == Lowest(s.bits, n)
    && l'.ptrs == l.ptrs[ino := l.ptrs[ino] + added] && ino < |l.nodes| == |l'.nodes|
    && l'.nodes == l.nodes[ino := l'.nodes[ino]]
    && |s'.inodes| == |s.inodes|
      && s'.inodes == s.inodes[ino := s.inodes[ino].(head := s'.inodes[ino].head, nr := |l.ptrs[ino]| + n)]
    && ContentsKept(l', s.data, s'.data)
    && FreeCount(s'.bits) + n + NodesFor(|l.ptrs[ino]| + n, PtrsPerNode(g.blkSize))
       == FreeCount(s.bits) + NodesFor(|l.ptrs[ino]|, PtrsPerNode(g.blkSize))
  }

  lemma OwnedAt(v: Volume, n: nat)
    requires v.Valid() && Owned(v.geo, v.vol, v.led) && n < v.geo.inodeNum
    ensures n < |v.vol.inodes| == |v.led.nodes| == |v.led.ptrs|
    ensures Mapped(v.geo, v.vol.data, v.vol.inodes[n], v.led.nodes[n], v.led.ptrs[n])
    ensures InUse(v.vol.bits, v.led.nodes[n]) && InUse(v.vol.bits, v.led.ptrs[n])
      && Apart(v.led.ptrs[n], v.led.nodes[n])
    ensures Fits(v.vol.inodes[n])
  {
    hide Chain, RecMaps, Fits, Volume.Valid, Tagged, BitsMatch;
    GeoFacts(v);
    OwnedBitsSet(v.led, v.vol.bits, n);
  }

  /** The loop of allocate_data_block that marks the new blocks and appends their numbers. */
  method TakeBlocks(v: Volume, found: seq<nat>, flat: seq<nat>, ghost was: seq<nat>)
    returns (err: Errno, list: seq<nat>)
    requires v.Valid() && AllBelow(found, v.geo.dataBlkNum) && IsAbs(flat, v.geo.dataRegionStart, was)
    modifies v`vol, v.io.Repr()
    ensures v.Valid() && err == Ok && v.vol == old(v.vol).(bits := SetAll(old(v.vol).bits, found, true))
    ensures IsAbs(list, v.geo.dataRegionStart, was + found)
  {
    hide Volume.Valid;
    err, list := Ok, flat;
    GeoFacts(v);
    var i := 0;
    assert SetAll(v.vol.bits, found[..0], true) == v.vol.bits;
    while i < |found|
      invariant v.Valid() && 0 <= i <= |found| && err == Ok
      invariant v.vol == old(v.vol).(bits := SetAll(old(v.vol).bits, found[..i], true))
      invariant IsAbs(list, v.geo.dataRegionStart, was + found[..i])
    {
      SetAllStep(old(v.vol).bits, found, i, true);
      err := v.SetDataBit(found[i], true);
      list := list + [v.geo.dataRegionStart + found[i]];
      i := i + 1;
    }
    assert found[..|found|] == found;
  }

  /** Write the inode that points at the new chain, then release the old chain. */
  method SwapChain(v: Volume, ino: nat, rec: Inode, oldHead: nat, ghost nodes: seq<nat>, ghost ptrs: seq<nat>,
                   ghost oldNodes: seq<nat>, ghost oldPtrs: seq<nat>) returns (err: Errno)
    requires v.Valid() && ino < v.geo.inodeNum && Fits(rec) && Distinct(oldNodes) && Apart(oldNodes, nodes)
    requires Mapped(v.geo, v.vol.data, rec, nodes, ptrs)
    requires Chain(v.vol.data, v.geo.dataRegionStart, PtrsPerNode(v.geo.blkSize), oldNodes, oldPtrs)
    requires oldHead == if oldNodes == [] then 0 else v.geo.dataRegionStart + oldNodes[0]
    modifies v`vol, v.io.Repr()
    ensures v.Valid() && err == Ok && v.vol.ibits == old(v.vol).ibits
    ensures v.vol.inodes == old(v.vol).inodes[ino := rec] && v.vol.bits == SetAll(old(v.vol).bits, oldNodes, false)
    ensures ChangedOnly(old(v.vol).data, v.vol.data, [], nodes, oldNodes) && Mapped(v.geo, v.vol.data, rec, nodes, ptrs)
  {
    hide Volume.Valid, Chain, RecMaps;
    err := v.WriteInode(ino, rec);
    if err != Ok {
      return;
    }
    GeoFacts(v);
    ghost var data := v.vol.data;
    if oldHead != 0 {
      err := FreeChain(v, oldHead, oldNodes, oldPtrs);
    } else {
      assert SetAll(v.vol.bits, oldNodes, false) == v.vol.bits;
    }
    ChainFrame(data, v.vol.data, v.geo.dataRegionStart, PtrsPerNode(v.geo.blkSize), nodes, ptrs);
  }

  /** Rebuild the chain of `ino` for `ptrs`, switch the inode over and release the old chain. */
  method Regraft(v: Volume, ino: nat, rec: Inode, list: seq<nat>, ghost ptrs: seq<nat>, ghost nodes0: seq<nat>,
                 ghost was: seq<nat>)
    returns (err: Errno, ghost nodes: seq<nat>)
    requires v.Valid() && ino < v.geo.inodeNum && rec == v.vol.inodes[ino]
    requires IsAbs(list, v.geo.dataRegionStart, ptrs) && AllBelow(ptrs, v.geo.dataBlkNum)
      && |ptrs| <= MAX_FILE_DATA_BLOCKS
    requires Mapped(v.geo, v.vol.data, rec, nodes0, was) && InUse(v.vol.bits, nodes0) && PtrsPerNode(v.geo.blkSize) > 0
    modifies v`vol, v.io.Repr()
    ensures v.Valid() && v.vol.ibits == old(v.vol).ibits
    ensures err == if NodesFor(|ptrs|, PtrsPerNode(v.geo.blkSize)) <= FreeCount(old(v.vol).bits) then Ok else ENOSPC
    ensures err != Ok ==> v.vol == old(v.vol) && Settles(v.vol.data, old(v.Disk()), v.Disk(), 0, 0)
    ensures err == Ok ==>
              && nodes == Lowest(old(v.vol).bits, NodesFor(|ptrs|, PtrsPerNode(v.geo.blkSize)))
              && v.vol.bits == SetAll(SetAll(old(v.vol).bits, nodes, true), nodes0, false)
              && |v.vol.inodes| == |old(v.vol).inodes|
              && v.vol.inodes == old(v.vol).inodes[ino := rec.(head := v.vol.inodes[ino].head, nr := |ptrs|)]
              && Mapped(v.geo, v.vol.data, v.vol.inodes[ino], nodes, ptrs)
              && ChangedOnly(old(v.vol).data, v.vol.data, [], nodes, nodes0)
  {
    hide Volume.Valid, Chain, FreeCount, Lowest, Distinct, AllBelow, Apart;
    GeoFacts(v);
    ghost var s0 := v.vol;
    var rec';
    err, rec', nodes := Rebuild(v, rec, list, ptrs);
    if err != Ok {
      return;
    }
    LowestFree(s0.bits, |nodes|);
    TakenApart(s0.bits, nodes, nodes0);
    ApartFrame(s0.data, v.vol.data, nodes0, nodes);
    ChainFrame(s0.data, v.vol.data, v.geo.dataRegionStart, PtrsPerNode(v.geo.blkSize), nodes0, was);
    err := SwapChain(v, ino, rec', rec.head, nodes, ptrs, nodes0, was);
  }

  lemma ApartFrame(data: seq<Block>, data': seq<Block>, list: seq<nat>, changed: seq<nat>)
    requires Apart(list, changed) && |data'| == |data|
    requires forall i :: 0 <= i < |data| && i !in changed ==> data'[i] == data[i]
    ensures forall j :: 0 <= j < |list| && list[j] < |data| ==> data'[list[j]] == data[list[j]]
  {
  }

  /** allocate_data_block: append `n` blocks to inode `ino`. */
  method Allocate(v: Volume, ino: nat, n: nat) returns (err: Errno, ghost added: seq<nat>)
    requires v.Valid() && Owned(v.geo, v.vol, v.led) && n + MAX_FILE_DATA_BLOCKS < LIMIT32
    modifies v, v.io.Repr()
    ensures v.Valid() && Owned(v.geo, v.vol, v.led) && v.vol.ibits == old(v.vol).ibits
    ensures n > 0 && ino >= v.geo.inodeNum ==> err == EINVAL
    ensures n == 0 ==> err == Ok
    ensures err != Ok || n == 0 ==> v.vol == old(v.vol) && v.led == old(v.led)
    ensures n > 0 && ino < v.geo.inodeNum && ino < |old(v.led).ptrs| ==>
              var k, cap := |old(v.led).ptrs[ino]|, PtrsPerNode(v.geo.blkSize);
              && cap > 0
              && err == (if k + n <= 1024 && n + NodesFor(k + n, cap) <= FreeCount(old(v.vol).bits)
                         then Ok else ENOSPC)
              && (err == Ok ==> Grown(v.geo, old(v.vol), old(v.led), v.vol, v.led, ino, n, added))
  {
    hide Volume.Valid, Owned, Mapped, Remap, FreeCount, Lowest, Distinct, Apart, AllBelow, Taken, InUse, ChangedOnly,
      Grown, Settles, Volume.Disk, RecMaps, Chain;
    added := [];
    if n == 0 {
      return Ok, added;
    }
    var rec;
    err, rec := v.ReadInode(ino);
    if err != Ok {
      return;
    }
    OwnedAt(v, ino);
    GeoFacts(v);
    ghost var s0, l0 := v.vol, v.led;
    ghost var was, nodes0 := l0.ptrs[ino], l0.nodes[ino];
    MappedParts(v.geo, s0.data, rec, nodes0, was);
    if rec.nr + n > MAX_FILE_DATA_BLOCKS {
      return ENOSPC, added;
    }
    var flat := [];
    if rec.nr > 0 {
      err, flat := Export(v, rec, nodes0, was);
      if err != Ok {
        return;
      }
    }
    var found;
    err, found := v.FindFreeData(n);
    if err != Ok {
      return;
    }
    added := found;
    LowestFree(s0.bits, n);
    AppendKeeps(was, found, s0.bits);
    TakenCount(s0.bits, found);
    TakenApart(s0.bits, found, nodes0);
    err, flat := TakeBlocks(v, found, flat, was);
    ghost var nodes;
    err, nodes := Regraft(v, ino, rec, flat, was + found, nodes0, was);
    if err != Ok {
      var undone := SetDataBits(v, found, false);
      SetThenClear(s0.bits, found);
      return;
    }
    AllocDone(v.geo, s0, l0, v.vol, ino, n, nodes);
    v.Record(Remap(l0, ino, nodes, was + found));
  }

  lemma MappedParts(g: Geometry, data: seq<Block>, rec: Inode, nodes: seq<nat>, ptrs: seq<nat>)
    requires Mapped(g, data, rec, nodes, ptrs)
    ensures RecMaps(rec, g.dataRegionStart, nodes, ptrs)
    ensures Chain(data, g.dataRegionStart, PtrsPerNode(g.blkSize), nodes, ptrs)
    ensures PtrsPerNode(g.blkSize) > 0 && |nodes| == NodesFor(|ptrs|, PtrsPerNode(g.blkSize))
  {
    ChainLength(data, g.dataRegionStart, PtrsPerNode(g.blkSize), nodes, ptrs);
  }

  /** The effect of a whole allocation on the ownership invariant. */
  lemma AllocDone(g: Geometry, s: Vol, l: Ledger, s': Vol, ino: nat, n: nat, nodes: seq<nat>)
    requires Owned(g, s, l) && ino < |s.inodes| && |s.data| == g.dataBlkNum == |s.bits| && PtrsPerNode(g.blkSize) > 0
    requires ino < |l.ptrs| == |l.nodes|
    requires n <= FreeCount(s.bits)
    requires var k, b1 := |l.ptrs[ino]| + n, SetAll(s.bits, Lowest(s.bits, n), true);
             && NodesFor(k, PtrsPerNode(g.blkSize)) <= FreeCount(b1)
               && nodes == Lowest(b1, NodesFor(k, PtrsPerNode(g.blkSize)))
             && s'.bits == SetAll(SetAll(b1, nodes, true), l.nodes[ino], false)
             && |s'.inodes| == |s.inodes|
             && s'.inodes == s.inodes[ino := s.inodes[ino].(head := s'.inodes[ino].head, nr := k)]
    requires Mapped(g, s'.data, s'.inodes[ino], nodes, l.ptrs[ino] + Lowest(s.bits, n))
    requires ChangedOnly(s.data, s'.data, [], nodes, l.nodes[ino])
    ensures var r := Remap(l, ino, nodes, l.ptrs[ino] + Lowest(s.bits, n));
            Owned(g, s', r) && Grown(g, s, l, s', r, ino, n, Lowest(s.bits, n))
  {
    hide Mapped, Tagged, Backed, BitsMatch, Remap, FreeCount, Lowest, Distinct, Apart, AllBelow, Taken, InUse,
      ChangedOnly, ContentsKept, Exchanged, Keeps, WasFree;
    var was, nodes0, found := l.ptrs[ino], l.nodes[ino], Lowest(s.bits, n);
    var b1 := SetAll(s.bits, found, true);
    OwnedBitsSet(l, s.bits, ino);
    LowestFree(s.bits, n);
    LowestFree(b1, |nodes|);
    AppendKeeps(was, found, s.bits);
    AllocBitsFacts(s.bits, found, nodes, nodes0);
    TakenDistinct(b1, nodes);
    ExchangeOwned(g, s, l, s', ino, [], found, nodes, was + found);
    RemapLists(l, ino, nodes, was + found);
    assert Mapped(g, s.data, s.inodes[ino], nodes0, was);
    MappedParts(g, s.data, s.inodes[ino], nodes0, was);
  }

  lemma TakenDistinct(bits: seq<bool>, list: seq<nat>)
    requires Taken(bits, list)
    ensures Distinct(list)
  {
  }

  /** abs_to_data_idx. */
  method AbsToDataIdx(ghost v: Volume, g: Geometry, abs: nat) returns (err: Errno, idx: nat)
    requires v.Valid()
    ensures v.Valid()
    ensures g.dataRegionStart <= abs < g.dataRegionStart + g.dataBlkNum ==> err == Ok && idx == abs - g.dataRegionStart
    ensures !(g.dataRegionStart <= abs < g.dataRegionStart + g.dataBlkNum) ==> err == EIO
  {
    idx := 0;
    if abs < g.dataRegionStart {
      return EIO, idx;
    }
    idx := abs - g.dataRegionStart;
    err := if idx >= g.dataBlkNum then EIO else Ok;
  }

  /** The blocks of `freed` show what the device holds, if there is a cache to be dropped from. */
  ghost predicate Dropped(data: seq<Block>, data': seq<Block>, disk: seq<Block>, freed: seq<nat>, cached: bool) {
    && |data'| == |data| == |disk|
    && forall i :: 0 <= i < |data| ==> data'[i] == if cached && i in freed then disk[i] else data[i]
  }

  /** What was dropped stays so while the cache goes on writing back. */
  lemma DroppedStays(data: seq<Block>, data': seq<Block>, was: seq<Block>, disk: seq<Block>, disk': seq<Block>,
                     freed: seq<nat>, cached: bool)
    requires Dropped(data, data', disk, freed, cached) && Settles(data, was, disk, 0, 0)
      && Settles(data', disk, disk', 0, 0)
    ensures Dropped(data, data', disk', freed, cached) && Settles(data, was, disk', 0, 0)
  {
  }

  lemma DropNext(data: seq<Block>, data': seq<Block>, disk: seq<Block>, freed: seq<nat>, i: nat, cached: bool)
    requires i < |freed| && freed[i] < |data| && Dropped(data, data', disk, freed[..i], cached)
    ensures var back := if cached then disk[freed[i]] else data'[freed[i]];
            Dropped(data, data'[freed[i] := back], disk, freed[..i + 1], cached)
  {
    assert freed[..i + 1] == freed[..i] + [freed[i]];
  }

  /** The loop of free_data_block that clears the bits of the released blocks and drops their cached copies. */
  method ReleaseBlocks(v: Volume, list: seq<nat>, ghost freed: seq<nat>) returns (err: Errno)
    requires v.Valid() && IsAbs(list, v.geo.dataRegionStart, freed) && AllBelow(freed, v.geo.dataBlkNum)
    modifies v`vol, v.io.Repr()
    ensures v.Valid() && err == Ok && v.vol.ibits == old(v.vol).ibits && v.vol.inodes == old(v.vol).inodes
    ensures v.vol.bits == SetAll(old(v.vol).bits, freed, false)
    ensures ChangedOnly(old(v.vol).data, v.vol.data, freed, [], [])
    ensures Dropped(old(v.vol).data, v.vol.data, v.Disk(), freed, v.io.enabled)
    ensures Settles(old(v.vol).data, old(v.Disk()), v.Disk(), 0, 0)
  {
    hide Volume.Valid, Dropped, Settles;
    err := Ok;
    GeoFacts(v);
    ghost var data := v.vol.data;
    var i := 0;
    NoneDropped(data, v.Disk(), v.io.enabled);
    assert SetAll(v.vol.bits, freed[..0], false) == v.vol.bits && freed[..0] == [];
    while i < |list|
      invariant v.Valid() && 0 <= i <= |list| && err == Ok
      invariant v.vol.ibits == old(v.vol).ibits && v.vol.inodes == old(v.vol).inodes && |v.vol.data| == |data|
      invariant v.vol.bits == SetAll(old(v.vol).bits, freed[..i], false)
      invariant Dropped(data, v.vol.data, v.Disk(), freed[..i], v.io.enabled)
      invariant Settles(data, old(v.Disk()), v.Disk(), 0, 0)
    {
      SetAllStep(old(v.vol).bits, freed, i, false);
      ghost var disk := v.Disk();
      var idx;
      err, idx := AbsToDataIdx(v, v.geo, list[i]);
      if err != Ok {
        return;
      }
      err := v.SetDataBit(idx, false);
      if err != Ok {
        return;
      }
      DroppedStays(data, v.vol.data, old(v.Disk()), disk, v.Disk(), freed[..i], v.io.enabled);
      DropNext(data, v.vol.data, v.Disk(), freed, i, v.io.enabled);
      v.Invalidate(list[i]);
      i := i + 1;
    }
    assert freed[..|freed|] == freed;
    DroppedOnly(data, v.vol.data, v.Disk(), freed, v.io.enabled);
  }

  lemma SettlesOn(data: seq<Block>, was: seq<Block>, disk: seq<Block>, disk': seq<Block>)
    requires Settles(data, was, disk, 0, 0) && Settles(data, disk, disk', 0, 0)
    ensures Settles(data, was, disk', 0, 0)
  {
  }

  lemma DroppedOnly(data: seq<Block>, data': seq<Block>, disk: seq<Block>, freed: seq<nat>, cached: bool)
    requires Dropped(data, data', disk, freed, cached)
    ensures ChangedOnly(data, data', freed, [], [])
  {
  }

  lemma NoneDropped(data: seq<Block>, disk: seq<Block>, cached: bool)
    requires |data| == |disk|
    ensures Dropped(data, data, disk, [], cached) && Settles(data, disk, disk, 0, 0)
  {
  }

  /** The loop of free_data_block that shifts the surviving entries left. */
  method Compact(ghost v: Volume, flat: seq<nat>, start: nat, m: nat) returns (kept: seq<nat>)
    requires v.Valid() && start + m <= |flat|
    ensures v.Valid() && kept == flat[..start] + flat[start + m..]
  {
    hide Volume.Valid;
    ghost var all := flat[..start] + flat[start + m..];
    kept := [];
    var i := 0;
    while i < |flat| - m
      invariant v.Valid() && 0 <= i <= |flat| - m && kept == all[..i]
    {
      var x := if i < start then flat[i] else flat[i + m];
      assert x == all[i];
      kept := kept + [x];
      i := i + 1;
    }
    assert all[..|all|] == all;
  }

  /** What a successful release did: the slice cut out of the mapping, nothing else touched. */
  ghost predicate Shrunk(g: Geometry, s: Vol, l: Ledger, s': Vol, l': Ledger, ino: nat, start: nat, m: nat)
    requires ino < |s.inodes| && ino < |l.ptrs| && PtrsPerNode(g.blkSize) > 0 && start + m <= |l.ptrs[ino]|
  {
    && l'.ptrs == l.ptrs[ino := Excise(l.ptrs[ino], start, m)] && ino < |l.nodes| == |l'.nodes|
    && l'.nodes == l.nodes[ino := l'.nodes[ino]]
    && |s'.inodes| == |s.inodes|
      && s'.inodes == s.inodes[ino := s.inodes[ino].(head := s'.inodes[ino].head, nr := |l.ptrs[ino]| - m)]
    && ContentsKept(l', s.data, s'.data)
    && FreeCount(s'.bits) + NodesFor(|l.ptrs[ino]| - m, PtrsPerNode(g.blkSize))
       == FreeCount(s.bits) + m + NodesFor(|l.ptrs[ino]|, PtrsPerNode(g.blkSize))
  }

  function Least(a: nat, b: nat): nat {
    if a <= b then a else b
  }

  /** The end of free_data_block: a chain for what is left, or the cleared bits set again. */
  method Rejoin(v: Volume, ino: nat, rec: Inode, flat: seq<nat>, start: nat, m: nat,
                ghost freed: seq<nat>, ghost nodes0: seq<nat>, ghost was: seq<nat>)
    returns (err: Errno, ghost nodes: seq<nat>)
    requires v.Valid() && ino < v.geo.inodeNum && rec == v.vol.inodes[ino]
    requires start + m <= |was| && freed == was[start..start + m] && IsAbs(flat, v.geo.dataRegionStart, was)
    requires AllBelow(freed, v.geo.dataBlkNum) && AllBelow(Excise(was, start, m), v.geo.dataBlkNum)
    requires |Excise(was, start, m)| <= MAX_FILE_DATA_BLOCKS && PtrsPerNode(v.geo.blkSize) > 0
    requires Mapped(v.geo, v.vol.data, rec, nodes0, was) && InUse(v.vol.bits, nodes0)
    modifies v`vol, v.io.Repr()
    ensures v.Valid() && v.vol.ibits == old(v.vol).ibits
    ensures err == if NodesFor(|was| - m, PtrsPerNode(v.geo.blkSize)) <= FreeCount(old(v.vol).bits) then Ok else ENOSPC
    ensures err != Ok ==>
              && v.vol == old(v.vol).(bits := SetAll(old(v.vol).bits, freed, true))
              && Settles(v.vol.data, old(v.Disk()), v.Disk(), 0, 0)
    ensures err == Ok ==>
              && nodes == Lowest(old(v.vol).bits, NodesFor(|was| - m, PtrsPerNode(v.geo.blkSize)))
              && v.vol.bits == SetAll(SetAll(old(v.vol).bits, nodes, true), nodes0, false)
              && |v.vol.inodes| == |old(v.vol).inodes|
              && v.vol.inodes == old(v.vol).inodes[ino := rec.(head := v.vol.inodes[ino].head, nr := |was| - m)]
              && Mapped(v.geo, v.vol.data, v.vol.inodes[ino], nodes, Excise(was, start, m))
              && ChangedOnly(old(v.vol).data, v.vol.data, [], nodes, nodes0)
  {
    hide Volume.Valid, Mapped, FreeCount, Lowest, Distinct, AllBelow, InUse, ChangedOnly, Settles;
    var list := Compact(v, flat, start, m);
    AbsExcise(flat, v.geo.dataRegionStart, was, start, m);
    err, nodes := Regraft(v, ino, rec, list, Excise(was, start, m), nodes0, was);
    if err != Ok {
      ghost var disk := v.Disk();
      var undone := RestoreBits(v, flat[start..start + m], freed);
      SettlesOn(old(v.vol).data, old(v.Disk()), disk, v.Disk());
    }
  }

  /** The body of free_data_block once the range is clipped to the mapped blocks. */
  method FreeRange(v: Volume, ino: nat, rec: Inode, start: nat, m: nat) returns (err: Errno)
    requires v.Valid() && Owned(v.geo, v.vol, v.led) && ino < v.geo.inodeNum && rec == v.vol.inodes[ino]
    requires ino < |v.led.ptrs| && start + m <= |v.led.ptrs[ino]| && PtrsPerNode(v.geo.blkSize) > 0
    modifies v, v.io.Repr()
    ensures v.Valid() && Owned(v.geo, v.vol, v.led) && v.vol.ibits == old(v.vol).ibits
    ensures ino < |old(v.vol).inodes|
    ensures err == if NodesFor(|old(v.led).ptrs[ino]| - m, PtrsPerNode(v.geo.blkSize)) <= FreeCount(old(v.vol).bits) + m
                   then Ok else ENOSPC
    ensures err == Ok ==> Shrunk(v.geo, old(v.vol), old(v.led), v.vol, v.led, ino, start, m)
    ensures err != Ok ==> v.led == old(v.led) && v.vol == old(v.vol).(data := v.vol.data)
    ensures err != Ok ==> ChangedOnly(old(v.vol).data, v.vol.data, old(v.led).ptrs[ino][start..start + m], [], [])
    ensures err != Ok ==>
              && Dropped(old(v.vol).data, v.vol.data, v.Disk(), old(v.led).ptrs[ino][start..start + m], v.io.enabled)
              && Settles(old(v.vol).data, old(v.Disk()), v.Disk(), 0, 0)
  {
    hide Volume.Valid, Owned, Mapped, Remap, FreeCount, Lowest, Distinct, Apart, AllBelow, Taken, InUse, ChangedOnly,
      Shrunk, Keeps, Dropped, Settles, Volume.Disk;
    OwnedAt(v, ino);
    GeoFacts(v);
    ghost var s0, l0 := v.vol, v.led;
    ghost var was, nodes0 := l0.ptrs[ino], l0.nodes[ino];
    MappedParts(v.geo, s0.data, rec, nodes0, was);
    ghost var freed, ptrs := was[start..start + m], Excise(was, start, m);
    CutKeeps(was, start, m, s0.bits);
    InUseBelow(s0.bits, freed);
    SubApart(freed, was, nodes0);
    FreedLeaves(s0.bits, freed, nodes0);
    var flat;
    err, flat := Export(v, rec, nodes0, was);
    if err != Ok {
      return;
    }
    ghost var disk := v.Disk();
    err := ReleaseBlocks(v, flat[start..start + m], freed);
    if err != Ok {
      return;
    }
    SettlesOn(s0.data, old(v.Disk()), disk, v.Disk());
    disk := v.Disk();
    MappedFrame(v.geo, s0.data, v.vol.data, rec, nodes0, was, freed);
    ghost var d1, nodes := v.vol.data, [];
    err, nodes := Rejoin(v, ino, rec, flat, start, m, freed, nodes0, was);
    if err != Ok {
      DroppedStays(s0.data, d1, old(v.Disk()), disk, v.Disk(), freed, v.io.enabled);
      ClearThenSet(s0.bits, freed);
      OwnedDataFrame(v.geo, s0, l0, v.vol, ino, freed);
      return;
    }
    FreeDone(v.geo, s0, l0, d1, v.vol, ino, start, m, nodes);
    v.Record(Remap(l0, ino, nodes, ptrs));
  }

  /** free_data_block: cut `n` blocks out of inode `ino` from file block `start` on. */
  method Free(v: Volume, ino: nat, start: nat, n: nat) returns (err: Errno)
    requires v.Valid() && Owned(v.geo, v.vol, v.led) && start + n < LIMIT32
    modifies v, v.io.Repr()
    ensures v.Valid() && Owned(v.geo, v.vol, v.led) && v.vol.ibits == old(v.vol).ibits
    ensures n == 0 ==> err == Ok && v.vol == old(v.vol) && v.led == old(v.led)
    ensures n > 0 && ino >= v.geo.inodeNum ==> err == EINVAL && v.vol == old(v.vol) && v.led == old(v.led)
    ensures n > 0 && ino < v.geo.inodeNum && ino < |old(v.led).ptrs| ==>
              var was, cap := old(v.led).ptrs[ino], PtrsPerNode(v.geo.blkSize);
              && cap > 0
              && (start >= |was| ==> err == EINVAL && v.vol == old(v.vol) && v.led == old(v.led))
              && (start < |was| ==>
                    var m := Least(n, |was| - start);
                    && err == (if NodesFor(|was| - m, cap) <= FreeCount(old(v.vol).bits) + m then Ok else ENOSPC)
                    && (err == Ok ==> Shrunk(v.geo, old(v.vol), old(v.led), v.vol, v.led, ino, start, m))
                    && (err != Ok ==> v.led == old(v.led) && v.vol == old(v.vol).(data := v.vol.data)
                                      && ChangedOnly(old(v.vol).data, v.vol.data, was[start..start + m], [], [])
                                      && Dropped(old(v.vol).data, v.vol.data, v.Disk(), was[start..start + m],
                                        v.io.enabled)
                                      && Settles(old(v.vol).data, old(v.Disk()), v.Disk(), 0, 0)))
  {
    hide Volume.Valid, Owned, Mapped, FreeCount, ChangedOnly, Shrunk, InUse, Apart, Dropped, Settles, Volume.Disk;
    if n == 0 {
      return Ok;
    }
    var rec;
    err, rec := v.ReadInode(ino);
    if err != Ok {
      return;
    }
    OwnedAt(v, ino);
    MappedParts(v.geo, v.vol.data, rec, v.led.nodes[ino], v.led.ptrs[ino]);
    if start >= rec.nr {
      return EINVAL;
    }
    ghost var disk := v.Disk();
    err := FreeRange(v, ino, rec, start, Least(n, rec.nr - start));
    if err != Ok {
      SettlesOn(old(v.vol).data, old(v.Disk()), disk, v.Disk());
    }
  }

  lemma AbsExcise(flat: seq<nat>, base: nat, was: seq<nat>, start: nat, m: nat)
    requires IsAbs(flat, base, was) && start + m <= |was|
    ensures IsAbs(flat[..start] + flat[start + m..], base, Excise(was, start, m))
  {
  }

  /** The effect of a whole release on the ownership invariant. */
  lemma FreeDone(g: Geometry, s: Vol, l: Ledger, d1: seq<Block>, s': Vol, ino: nat, start: nat, m: nat, nodes: seq<nat>)
    requires Owned(g, s, l) && ino < |s.inodes| && |s.data| == g.dataBlkNum == |s.bits| && PtrsPerNode(g.blkSize) > 0
    requires ino < |l.ptrs| == |l.nodes| && start + m <= |l.ptrs[ino]|
    requires var k, b1 := |l.ptrs[ino]| - m, SetAll(s.bits, l.ptrs[ino][start..start + m], false);
             && NodesFor(k, PtrsPerNode(g.blkSize)) <= FreeCount(b1)
               && nodes == Lowest(b1, NodesFor(k, PtrsPerNode(g.blkSize)))
             && s'.bits == SetAll(SetAll(b1, nodes, true), l.nodes[ino], false)
             && |s'.inodes| == |s.inodes|
             && s'.inodes == s.inodes[ino := s.inodes[ino].(head := s'.inodes[ino].head, nr := k)]
    requires Mapped(g, s'.data, s'.inodes[ino], nodes, Excise(l.ptrs[ino], start, m))
    requires ChangedOnly(s.data, d1, l.ptrs[ino][start..start + m], [], [])
      && ChangedOnly(d1, s'.data, [], nodes, l.nodes[ino])
    ensures var r := Remap(l, ino, nodes, Excise(l.ptrs[ino], start, m));
            Owned(g, s', r) && Shrunk(g, s, l, s', r, ino, start, m)
  {
    hide Mapped, Tagged, Backed, BitsMatch, Remap, FreeCount, Lowest, Distinct, Apart, AllBelow, Taken, InUse,
      ChangedOnly, ContentsKept, Exchanged, Keeps, WasFree, Excise;
    var was, nodes0, freed := l.ptrs[ino], l.nodes[ino], l.ptrs[ino][start..start + m];
    var b1 := SetAll(s.bits, freed, false);
    OwnedBitsSet(l, s.bits, ino);
    CutKeeps(was, start, m, s.bits);
    SubApart(freed, was, nodes0);
    LowestFree(b1, |nodes|);
    FreeBitsFacts(s.bits, freed, nodes, nodes0);
    TakenDistinct(b1, nodes);
    ChangedJoin(s.data, d1, s'.data, freed, nodes, nodes0);
    ApartNone(nodes);
    ExchangeOwned(g, s, l, s', ino, freed, [], nodes, Excise(was, start, m));
    RemapLists(l, ino, nodes, Excise(was, start, m));
    assert Mapped(g, s.data, s.inodes[ino], nodes0, was);
    MappedParts(g, s.data, s.inodes[ino], nodes0, was);
  }

  /** The rollback of free_data_block: the cleared bits are set again. */
  method RestoreBits(v: Volume, list: seq<nat>, ghost freed: seq<nat>) returns (err: Errno)
    requires v.Valid() && IsAbs(list, v.geo.dataRegionStart, freed) && AllBelow(freed, v.geo.dataBlkNum)
    modifies v`vol, v.io.Repr()
    ensures v.Valid() && err == Ok && v.vol == old(v.vol).(bits := SetAll(old(v.vol).bits, freed, true))
    ensures Settles(v.vol.data, old(v.Disk()), v.Disk(), 0, 0)
  {
    hide Volume.Valid;
    err := Ok;
    GeoFacts(v);
    var i := 0;
    assert SetAll(v.vol.bits, freed[..0], true) == v.vol.bits;
    while i < |list|
      invariant v.Valid() && 0 <= i <= |list| && err == Ok
      invariant v.vol == old(v.vol).(bits := SetAll(old(v.vol).bits, freed[..i], true))
      invariant Settles(v.vol.data, old(v.Disk()), v.Disk(), 0, 0)
    {
      SetAllStep(old(v.vol).bits, freed, i, true);
      err := v.SetDataBit(list[i] - v.geo.dataRegionStart, true);
      i := i + 1;
    }
    assert freed[..|freed|] == freed;
  }

  lemma InUseBelow(bits: seq<bool>, list: seq<nat>)
    requires InUse(bits, list)
    ensures AllBelow(list, |bits|)
  {
  }

  lemma SubApart(part: seq<nat>, whole: seq<nat>, other: seq<nat>)
    requires Apart(whole, other) && forall x :: x in part ==> x in whole
    ensures Apart(part, other)
  {
    forall k | 0 <= k < |part| ensures part[k] !in other {
      assert part[k] in whole;
    }
  }

  lemma ApartNone(list: seq<nat>)
    ensures Apart(list, [])
  {
  }

  lemma MappedFrame(g: Geometry, data: seq<Block>, data': seq<Block>, rec: Inode, nodes: seq<nat>, ptrs: seq<nat>,
                    freed: seq<nat>)
    requires Mapped(g, data, rec, nodes, ptrs) && ChangedOnly(data, data', freed, [], []) && Apart(freed, nodes)
    ensures Mapped(g, data', rec, nodes, ptrs)
  {
    hide Chain;
    ApartSym(freed, nodes);
    ChainFrame(data, data', g.dataRegionStart, PtrsPerNode(g.blkSize), nodes, ptrs);
  }

  lemma ChangedJoin(d0: seq<Block>, d1: seq<Block>, d2: seq<Block>, a: seq<nat>, b: seq<nat>, c: seq<nat>)
    requires ChangedOnly(d0, d1, a, [], []) && ChangedOnly(d1, d2, [], b, c)
    ensures ChangedOnly(d0, d2, a, b, c)
  {
  }
}
