/** One LRU pool of the write-back cache: a fixed array of slots and an access tick. */
module Pools {
  import opened Errors
  import opened Bytes
  import opened BlockDevice
  import opened Lru

  datatype Slot = Slot(valid: bool, dirty: bool, blk: nat, tick: nat, data: Block)

  predicate Holds(s: Slot, b: nat) {
    s.valid && s.blk == b
  }

  /** Index of a slot that holds `b`, or -1. */
  ghost function Lookup(s: seq<Slot>, b: nat): (i: int)
    ensures -1 <= i < |s|
    ensures i >= 0 ==> Holds(s[i], b)
    ensures i < 0 ==> forall j :: 0 <= j < |s| ==> !Holds(s[j], b)
  {
    if i :| 0 <= i < |s| && Holds(s[i], b) then i else -1
  }

  /** No block is in two valid slots. */
  ghost predicate Unique(s: seq<Slot>) {
    forall i, j :: 0 <= i < j < |s| && s[i].valid && s[j].valid ==> s[i].blk != s[j].blk
  }

  /**
   * `order` lists the valid slots by falling tick, so the ticks of valid
   * slots are pairwise distinct.  Slot `but` is exempt (-1: none is).
   */
  ghost predicate OrderedBut(s: seq<Slot>, order: seq<nat>, tick: nat, but: int) {
    && (forall k :: 0 <= k < |order| ==> order[k] < |s| && order[k] != but && s[order[k]].valid)
    && (forall i :: 0 <= i < |s| && s[i].valid && i != but ==> i in order && s[i].tick <= tick)
    && (forall k, l :: 0 <= k < l < |order| ==> s[order[k]].tick > s[order[l]].tick)
  }

  ghost predicate Ordered(s: seq<Slot>, order: seq<nat>, tick: nat) {
    OrderedBut(s, order, tick, -1)
  }

  /** A clean copy agrees with the device; a dirty one may differ from it. */
  ghost predicate Coherent(s: seq<Slot>, blocks: seq<Block>, bs: nat) {
    forall i :: 0 <= i < |s| && s[i].valid ==>
      |s[i].data| == bs && (!s[i].dirty ==> s[i].blk < |blocks| && s[i].data == blocks[s[i].blk])
  }

  ghost predicate WithinDevice(s: seq<Slot>, blocks: seq<Block>) {
    forall i :: 0 <= i < |s| && s[i].valid ==> s[i].blk < |blocks|
  }

  /** Contents of block `b` as seen through the pool: the cached copy, else the device block. */
  ghost function Seen(s: seq<Slot>, blocks: seq<Block>, b: nat): Block
    requires b < |blocks|
  {
    var i := Lookup(s, b);
    if i >= 0 then s[i].data else blocks[b]
  }

  ghost predicate SameSeen(s: seq<Slot>, blocks: seq<Block>, s': seq<Slot>, blocks': seq<Block>) {
    |blocks| == |blocks'| && forall b :: 0 <= b < |blocks| ==> Seen(s', blocks', b) == Seen(s, blocks, b)
  }

  /** Everything is seen as before, except block `b`, which is seen as `d`. */
  ghost predicate SeenPut(s: seq<Slot>, blocks: seq<Block>, s': seq<Slot>, blocks': seq<Block>, b: nat, d: Block) {
    && |blocks| == |blocks'|
    && forall c :: 0 <= c < |blocks| ==> Seen(s', blocks', c) == if c == b then d else Seen(s, blocks, c)
  }

  /** Slots were at most given up. */
  ghost predicate SubPool(s: seq<Slot>, s': seq<Slot>) {
    |s'| == |s| && forall i :: 0 <= i < |s'| && s'[i].valid ==> s'[i].blk == s[i].blk && s[i].valid
  }

  /** Every block now in the pool was there before, or is `b`. */
  ghost predicate OnlyAdds(s: seq<Slot>, s': seq<Slot>, b: nat) {
    forall i :: 0 <= i < |s'| && s'[i].valid ==> s'[i].blk == b || Lookup(s, s'[i].blk) >= 0
  }

  /** The device differs from before at most in blocks this pool held. */
  ghost predicate OnlyHeldWritten(s: seq<Slot>, blocks: seq<Block>, blocks': seq<Block>) {
    |blocks| == |blocks'| && forall b :: 0 <= b < |blocks| && Lookup(s, b) < 0 ==> blocks'[b] == blocks[b]
  }

  /** Every block of the device is as before, or holds what was seen of it. */
  ghost predicate WroteBack(s: seq<Slot>, blocks: seq<Block>, blocks': seq<Block>) {
    && |blocks| == |blocks'|
    && forall b :: 0 <= b < |blocks| ==> blocks'[b] == blocks[b] || blocks'[b] == Seen(s, blocks, b)
  }

  /** Block numbers in the pool, most recently used first. */
  ghost function Recency(s: seq<Slot>, order: seq<nat>): (q: seq<nat>)
    requires forall k :: 0 <= k < |order| ==> order[k] < |s|
    ensures |q| == |order| && forall k :: 0 <= k < |q| ==> q[k] == s[order[k]].blk
  {
    seq(|order|, k requires 0 <= k < |order| => s[order[k]].blk)
  }

  lemma LookupIs(s: seq<Slot>, b: nat, i: nat)
    requires Unique(s) && i < |s| && Holds(s[i], b)
    ensures Lookup(s, b) == i
  {
  }

  lemma SeenIs(s: seq<Slot>, blocks: seq<Block>, b: nat, i: nat)
    requires Unique(s) && i < |s| && Holds(s[i], b)
    ensures b < |blocks| ==> Seen(s, blocks, b) == s[i].data
  {
    LookupIs(s, b, i);
  }

  lemma FullMeansAll(order: seq<nat>, n: nat)
    requires NoDup(order) && forall k :: 0 <= k < |order| ==> order[k] < n
    ensures |order| <= n
    ensures |order| == n <==> forall i :: 0 <= i < n ==> i in order
  {
    NoDupCard(order);
    var s := set x | x in order;
    BelowCard(n, s);
    assert forall i :: i in s <==> i in order;
  }

  lemma SameSeenTrans(s: seq<Slot>, b: seq<Block>, s': seq<Slot>, b': seq<Block>, s'': seq<Slot>, b'': seq<Block>)
    requires SameSeen(s, b, s', b') && SameSeen(s', b', s'', b'')
    ensures SameSeen(s, b, s'', b'')
  {
  }

  lemma CoherentAt(s: seq<Slot>, blocks: seq<Block>, bs: nat, i: nat)
    requires Coherent(s, blocks, bs) && i < |s| && s[i].valid
    ensures |s[i].data| == bs && (!s[i].dirty ==> s[i].blk < |blocks| && s[i].data == blocks[s[i].blk])
  {
  }

  /** Writing a dirty slot back, completely or torn, changes nothing that is seen. */
  lemma WriteBackInvisible(s: seq<Slot>, blocks: seq<Block>, blocks': seq<Block>, bs: nat, i: nat)
    requires Unique(s) && Coherent(s, blocks, bs) && i < |s| && s[i].valid && s[i].dirty
    requires |blocks'| == |blocks|
    requires forall c :: 0 <= c < |blocks| && c != s[i].blk ==> blocks'[c] == blocks[c]
    ensures SameSeen(s, blocks, s, blocks') && OnlyHeldWritten(s, blocks, blocks') && Coherent(s, blocks', bs)
  {
    LookupIs(s, s[i].blk, i);
  }

  lemma CleanInvisible(s: seq<Slot>, blocks: seq<Block>, bs: nat, i: nat)
    requires Unique(s) && Coherent(s, blocks, bs) && i < |s| && s[i].valid
    requires s[i].blk < |blocks| && blocks[s[i].blk] == s[i].data
    ensures var t := s[i := s[i].(dirty := false)];
            Unique(t) && SameSeen(s, blocks, t, blocks) && Coherent(t, blocks, bs)
  {
    var t := s[i := s[i].(dirty := false)];
    forall b | 0 <= b < |blocks| ensures Seen(t, blocks, b) == Seen(s, blocks, b) {
      var k := Lookup(s, b);
      if k >= 0 {
        LookupIs(t, b, k);
      }
    }
  }

  lemma CleanOrder(s: seq<Slot>, order: seq<nat>, tick: nat, i: nat)
    requires Ordered(s, order, tick) && i < |s|
    ensures var t := s[i := s[i].(dirty := false)]; Ordered(t, order, tick) && Recency(t, order) == Recency(s, order)
  {
    var t := s[i := s[i].(dirty := false)];
    assert forall j :: 0 <= j < |s| ==> t[j].valid == s[j].valid && t[j].tick == s[j].tick && t[j].blk == s[j].blk;
  }

  lemma CleanVictim(s: seq<Slot>, i: nat)
    requires i < |s| && IsVictim(s, i)
    ensures IsVictim(s[i := s[i].(dirty := false)], i)
  {
  }

  lemma EvictInvisible(s: seq<Slot>, blocks: seq<Block>, bs: nat, i: nat)
    requires Unique(s) && Coherent(s, blocks, bs) && i < |s| && (s[i].valid ==> !s[i].dirty)
    ensures var t := s[i := s[i].(valid := false, dirty := false)];
            Unique(t) && SameSeen(s, blocks, t, blocks) && Coherent(t, blocks, bs)
  {
    var t := s[i := s[i].(valid := false, dirty := false)];
    forall b | 0 <= b < |blocks| ensures Seen(t, blocks, b) == Seen(s, blocks, b) {
      var k := Lookup(s, b);
      if k >= 0 && k != i {
        LookupIs(t, b, k);
      }
    }
  }

  /** When every slot is valid, the slot with the least tick is the last of `order`. */
  lemma LeastIsLast(s: seq<Slot>, order: seq<nat>, tick: nat, idx: nat)
    requires Ordered(s, order, tick) && idx < |s|
    requires forall i :: 0 <= i < |s| ==> s[i].valid && s[idx].tick <= s[i].tick
    ensures |order| > 0 && order[|order| - 1] == idx
    ensures Ordered(s[idx := s[idx].(valid := false, dirty := false)], order[..|order| - 1], tick)
  {
    assert s[idx].valid && idx in order;
    var k :| 0 <= k < |order| && order[k] == idx;
    var last := order[|order| - 1];
    assert s[idx].tick <= s[last].tick;
    var t, rest := s[idx := s[idx].(valid := false, dirty := false)], order[..|order| - 1];
    forall i | 0 <= i < |t| && t[i].valid ensures i in rest {
      assert s[i].valid && i in order;
      var l :| 0 <= l < |order| && order[l] == i;
      assert rest[l] == i;
    }
  }

  ghost function OrderAfterEvict(s: seq<Slot>, order: seq<nat>, idx: nat): seq<nat>
    requires idx < |s|
  {
    if s[idx].valid && |order| > 0 then order[..|order| - 1] else order
  }

  ghost predicate IsVictim(s: seq<Slot>, idx: nat) {
    idx < |s| && (s[idx].valid ==> forall j :: 0 <= j < |s| ==> s[j].valid && s[idx].tick <= s[j].tick)
  }

  /** A slot is free, so that nothing has to be evicted. */
  ghost predicate Vacant(s: seq<Slot>) {
    exists i :: 0 <= i < |s| && !s[i].valid
  }

  lemma VacantVictim(s: seq<Slot>, idx: nat)
    requires IsVictim(s, idx) && Vacant(s)
    ensures !s[idx].valid
  {
  }

  /** A pool with more slots than there are blocks always has a free one. */
  lemma {:induction false} MoreSlots(s: seq<Slot>, n: nat)
    requires Unique(s) && |s| > n && forall i :: 0 <= i < |s| && s[i].valid ==> s[i].blk < n
    ensures Vacant(s)
    decreases n
  {
    if k :| 0 <= k < |s| && s[k].valid && s[k].blk == n - 1 {
      var t := s[..k] + s[k + 1..];
      forall i | 0 <= i < |t| ensures t[i] == s[if i < k then i else i + 1] {
      }
      MoreSlots(t, n - 1);
      var i :| 0 <= i < |t| && !t[i].valid;
      assert !s[if i < k then i else i + 1].valid;
    } else if n > 0 {
      MoreSlots(s, n - 1);
    } else {
      assert !s[0].valid;
    }
  }

  lemma OrderDistinct(s: seq<Slot>, order: seq<nat>, tick: nat)
    requires Ordered(s, order, tick)
    ensures NoDup(order) && |order| <= |s|
    ensures forall k :: 0 <= k < |order| ==> order[k] < |s| && s[order[k]].valid
    ensures |order| == |s| <==> forall i :: 0 <= i < |s| ==> s[i].valid
  {
    forall i, j | 0 <= i < j < |order| ensures order[i] != order[j] {
      assert s[order[i]].tick > s[order[j]].tick;
    }
    FullMeansAll(order, |s|);
    assert forall i :: 0 <= i < |s| ==> (s[i].valid <==> i in order);
  }

  lemma EvictOrder(s: seq<Slot>, order: seq<nat>, tick: nat, idx: nat)
    requires Ordered(s, order, tick) && IsVictim(s, idx)
    ensures var t, rest := s[idx := s[idx].(valid := false, dirty := false)], OrderAfterEvict(s, order, idx);
            Ordered(t, rest, tick) && Recency(t, rest) == Take(Recency(s, order), |s| - 1)
  {
    OrderDistinct(s, order, tick);
    if s[idx].valid {
      LeastIsLast(s, order, tick, idx);
      RecencyButLast(s, order, idx, s[idx].(valid := false, dirty := false));
    } else {
      ExemptSlot(s, order, tick, idx, s[idx].(valid := false, dirty := false));
    }
  }

  lemma RecencyButLast(s: seq<Slot>, order: seq<nat>, idx: nat, t: Slot)
    requires |order| > 0 && idx < |s| && forall k :: 0 <= k < |order| - 1 ==> order[k] < |s| && order[k] != idx
    requires order[|order| - 1] < |s|
    ensures Recency(s[idx := t], order[..|order| - 1]) == Recency(s, order)[..|order| - 1]
  {
  }

  /** Slot `i` may become invalid, or valid, without touching the order of the others. */
  lemma ExemptSlot(s: seq<Slot>, w: seq<nat>, tick: nat, i: nat, t: Slot)
    requires OrderedBut(s, w, tick, i) && i < |s|
    ensures OrderedBut(s[i := t], w, tick, i) && Recency(s[i := t], w) == Recency(s, w)
    ensures !t.valid ==> Ordered(s[i := t], w, tick)
  {
  }

  lemma RecencyWithout(s: seq<Slot>, order: seq<nat>, i: nat)
    requires Unique(s) && NoDup(order) && i in order
    requires forall k :: 0 <= k < |order| ==> order[k] < |s| && s[order[k]].valid
    ensures forall k :: 0 <= k < |Without(order, i)| ==> Without(order, i)[k] < |s|
    ensures Recency(s, Without(order, i)) == Without(Recency(s, order), s[i].blk)
  {
    var k, q := IndexOf(order, i), Recency(s, order);
    assert IndexOf(q, s[i].blk) == k by {
      var l := IndexOf(q, s[i].blk);
      assert q[k] == s[i].blk;
      assert order[l] == order[k];
    }
    var w := order[..k] + order[k + 1..];
    assert forall j :: 0 <= j < |w| ==> w[j] < |s|;
    assert Recency(s, w) == q[..k] + q[k + 1..];
  }

  lemma OrderWithout(s: seq<Slot>, order: seq<nat>, tick: nat, i: nat)
    requires Ordered(s, order, tick) && i < |s| && s[i].valid
    ensures OrderedBut(s, Without(order, i), tick, i)
  {
    hide IndexOf;
    OrderDistinct(s, order, tick);
    WithoutFacts(order, i);
    var w := Without(order, i);
    forall k, l | 0 <= k < l < |w| ensures s[w[k]].tick > s[w[l]].tick {
      WithoutKeepsOrder(order, i, k, l);
    }
    forall k | 0 <= k < |w| ensures w[k] < |s| && w[k] != i && s[w[k]].valid {
      assert w[k] in w;
    }
  }

  /** What is left of a list keeps its order. */
  lemma WithoutKeepsOrder<T>(q: seq<T>, x: T, k: nat, l: nat)
    requires k < l < |Without(q, x)|
    ensures exists i, j :: 0 <= i < j < |q| && q[i] == Without(q, x)[k] && q[j] == Without(q, x)[l]
  {
    var w, at := Without(q, x), IndexOf(q, x);
    var i := if at < 0 || k < at then k else k + 1;
    var j := if at < 0 || l < at then l else l + 1;
    assert q[i] == w[k] && q[j] == w[l];
  }

  /** Moving slot `i` to the front of the order moves its block to the front of the recency list. */
  lemma FrontOrder(s: seq<Slot>, order: seq<nat>, tick: nat, i: nat)
    requires Unique(s) && Ordered(s, order, tick) && i < |s| && s[i].valid
    ensures OrderedBut(s, Without(order, i), tick, i)
    ensures Recency(s, [i] + Without(order, i)) == Access(Recency(s, order), s[i].blk, |s|)
  {
    hide Unique, Recency, OrderedBut;
    OrderDistinct(s, order, tick);
    OrderWithout(s, order, tick, i);
    assert i in order by {
      IsOrdered(s, order, tick, i);
    }
    RecencyWithout(s, order, i);
    RecencyCons(s, Without(order, i), i);
    assert |Recency(s, order)| == |order|;
  }

  lemma IsOrdered(s: seq<Slot>, order: seq<nat>, tick: nat, i: nat)
    requires Ordered(s, order, tick) && i < |s| && s[i].valid
    ensures i in order
  {
  }

  lemma RecencyCons(s: seq<Slot>, w: seq<nat>, i: nat)
    requires i < |s| && forall k :: 0 <= k < |w| ==> w[k] < |s|
    ensures Recency(s, [i] + w) == [s[i].blk] + Recency(s, w)
  {
  }

  /** Filling the empty slot `i`: the others keep their order, the new block is most recent. */
  lemma FillOrder(s: seq<Slot>, order: seq<nat>, tick: nat, i: nat, t: Slot)
    requires Ordered(s, order, tick) && i < |s| && !s[i].valid
    ensures OrderedBut(s[i := t], order, tick, i)
    ensures Recency(s[i := t], [i] + order) == [t.blk] + Recency(s, order)
  {
    ExemptSlot(s, order, tick, i, t);
    RecencyCons(s[i := t], order, i);
  }

  /** A slot update that keeps block and validity shows only in what is seen of that block. */
  lemma RewriteSeen(s: seq<Slot>, blocks: seq<Block>, i: nat, t: Slot)
    requires Unique(s) && i < |s| && s[i].valid && t.valid && t.blk == s[i].blk
    ensures Unique(s[i := t])
    ensures forall b :: 0 <= b < |blocks| ==>
      Seen(s[i := t], blocks, b) == if b == t.blk then t.data else Seen(s, blocks, b)
  {
    LookupIs(s, t.blk, i);
    LookupIs(s[i := t], t.blk, i);
    forall b | 0 <= b < |blocks|
      ensures Seen(s[i := t], blocks, b) == if b == t.blk then t.data else Seen(s, blocks, b)
    {
      var k := Lookup(s, b);
      if k >= 0 {
        LookupIs(s[i := t], b, k);
      }
    }
  }

  /** Overwriting the cached copy of a block, which becomes dirty. */
  lemma RewriteCoherent(s: seq<Slot>, blocks: seq<Block>, bs: nat, i: nat, t: Slot)
    requires Unique(s) && Coherent(s, blocks, bs) && i < |s| && s[i].valid
    requires t.valid && t.blk == s[i].blk && |t.data| == bs && (t.dirty || t == s[i].(tick := t.tick))
    ensures Unique(s[i := t]) && Coherent(s[i := t], blocks, bs) && OnlyAdds(s, s[i := t], t.blk)
    ensures SeenPut(s, blocks, s[i := t], blocks, t.blk, t.data)
    ensures t.data == s[i].data ==> SameSeen(s, blocks, s[i := t], blocks)
    ensures OnlyHeldWritten(s, blocks, blocks)
  {
    RewriteSeen(s, blocks, i, t);
    LookupIs(s, t.blk, i);
    var t' := s[i := t];
    assert forall c :: 0 <= c < |blocks| ==> Seen(t', blocks, c) == if c == t.blk then t.data else Seen(s, blocks, c);
  }

  /** Filling an empty slot with a block not cached yet shows only in what is seen of that block. */
  lemma FillSeen(s: seq<Slot>, blocks: seq<Block>, i: nat, t: Slot)
    requires Unique(s) && i < |s| && !s[i].valid && t.valid && Lookup(s, t.blk) < 0
    ensures Unique(s[i := t]) && Lookup(s[i := t], t.blk) == i
    ensures forall b :: 0 <= b < |blocks| ==>
      Seen(s[i := t], blocks, b) == if b == t.blk then t.data else Seen(s, blocks, b)
  {
    LookupIs(s[i := t], t.blk, i);
    forall b | 0 <= b < |blocks|
      ensures Seen(s[i := t], blocks, b) == if b == t.blk then t.data else Seen(s, blocks, b)
    {
      var k := Lookup(s, b);
      if k >= 0 {
        LookupIs(s[i := t], b, k);
      }
    }
  }

  /** A block that is not cached is seen as the device has it, also after slots were given up. */
  lemma SeenNone(s: seq<Slot>, blocks: seq<Block>, b: nat)
    requires Lookup(s, b) < 0
    ensures b < |blocks| ==> Seen(s, blocks, b) == blocks[b]
  {
  }

  lemma SubLookup(s0: seq<Slot>, s: seq<Slot>, b: nat)
    requires SubPool(s0, s) && Lookup(s0, b) < 0
    ensures Lookup(s, b) < 0
  {
  }

  lemma SubAdds(s0: seq<Slot>, s: seq<Slot>, b: nat)
    requires SubPool(s0, s)
    ensures OnlyAdds(s0, s, b)
  {
  }

  /** Filling the slot a victim left, after a miss on block `t.blk`. */
  lemma MissFill(s0: seq<Slot>, blocks0: seq<Block>, s: seq<Slot>, blocks: seq<Block>, bs: nat, i: nat, t: Slot)
    requires Unique(s) && Coherent(s, blocks, bs) && i < |s| == |s0| && !s[i].valid && Lookup(s0, t.blk) < 0
    requires SubPool(s0, s) && SameSeen(s0, blocks0, s, blocks)
    requires t.valid && |t.data| == bs && (!t.dirty ==> t.blk < |blocks| && t.data == blocks[t.blk])
    ensures Lookup(s, t.blk) < 0
    ensures Coherent(s[i := t], blocks, bs) && OnlyAdds(s0, s[i := t], t.blk)
    ensures SeenPut(s0, blocks0, s[i := t], blocks, t.blk, t.data)
    ensures !t.dirty ==> SameSeen(s0, blocks0, s[i := t], blocks)
    ensures Lookup(s[i := t], t.blk) == i
    ensures t.blk < |blocks| ==> Seen(s[i := t], blocks, t.blk) == t.data
  {
    assert Lookup(s, t.blk) < 0;
    FillSeen(s, blocks, i, t);
  }

  /** Dropping a slot shows the device block again, and only there. */
  lemma ForgetSeen(s: seq<Slot>, blocks: seq<Block>, i: nat)
    requires Unique(s) && i < |s| && s[i].valid
    ensures var t := s[i := s[i].(valid := false, dirty := false)];
            Unique(t) && forall b :: 0 <= b < |blocks| ==>
              Seen(t, blocks, b) == if b == s[i].blk then blocks[b] else Seen(s, blocks, b)
  {
    LookupIs(s, s[i].blk, i);
    var t := s[i := s[i].(valid := false, dirty := false)];
    forall b | 0 <= b < |blocks|
      ensures Seen(t, blocks, b) == if b == s[i].blk then blocks[b] else Seen(s, blocks, b)
    {
      var k := Lookup(s, b);
      if k >= 0 && k != i {
        LookupIs(t, b, k);
      }
    }
  }

  lemma ForgetOrder(s: seq<Slot>, order: seq<nat>, tick: nat, i: nat)
    requires Unique(s) && Ordered(s, order, tick) && i < |s| && s[i].valid
    ensures var t := s[i := s[i].(valid := false, dirty := false)];
            Ordered(t, Without(order, i), tick)
            && Recency(t, Without(order, i)) == Without(Recency(s, order), s[i].blk)
  {
    OrderDistinct(s, order, tick);
    OrderWithout(s, order, tick, i);
    RecencyWithout(s, order, i);
    ExemptSlot(s, Without(order, i), tick, i, s[i].(valid := false, dirty := false));
  }

  class Pool {
    const slots: array<Slot>
    var tick: nat
    ghost var content: seq<Slot>
    ghost var order: seq<nat>

    constructor (n: nat)
      ensures Valid() && order == [] && slots.Length == n && fresh(slots)
    {
      slots := new Slot[n](_ => Slot(false, false, 0, 0, []));
      tick := 0;
      order := [];
      new;
      content := slots[..];
    }

    ghost predicate Valid()
      reads this, slots
    {
      && content == slots[..]
      && Unique(content)
      && Ordered(content, order, tick)
    }

    ghost function Recent(): seq<nat>
      reads this, slots
      requires Valid()
    {
      Recency(content, order)
    }

    lemma RecentFacts(b: nat)
      requires Valid()
      ensures |Recent()| <= slots.Length
      ensures b in Recent() <==> Lookup(content, b) >= 0
    {
      OrderDistinct(content, order, tick);
      if Lookup(content, b) >= 0 {
        var k :| 0 <= k < |order| && order[k] == Lookup(content, b);
        assert Recent()[k] == b;
      }
    }

    /** bcache_find: the index of the slot holding `b`, or -1. */
    method Find(b: nat) returns (i: int)
      requires Valid()
      ensures i == Lookup(content, b)
    {
      i := 0;
      while i < slots.Length
        invariant 0 <= i <= slots.Length
        invariant forall j :: 0 <= j < i ==> !Holds(slots[j], b)
      {
        if slots[i].valid && slots[i].blk == b {
          LookupIs(content, b, i);
          return;
        }
        i := i + 1;
      }
      i := -1;
    }

    /** bcache_touch: slot `i` becomes the most recently used one. */
    method Touch(i: nat)
      requires content == slots[..] && Unique(content)
      requires i < slots.Length && slots[i].valid && OrderedBut(content, order, tick, i)
      modifies this, slots
      ensures Valid() && order == [i] + old(order) && tick == old(tick) + 1
      ensures content == old(content)[i := old(content)[i].(tick := tick)]
    {
      tick := tick + 1;
      slots[i] := slots[i].(tick := tick);
      content := content[i := content[i].(tick := tick)];
      order := [i] + order;
    }

    /** bcache_flush_entry: write one slot back; it stays cached whatever happens. */
    method FlushEntry(dev: Device, i: nat) returns (err: Errno)
      requires Valid() && dev.Valid() && Coherent(content, dev.blocks, dev.bs)
      requires i < slots.Length && slots[i].valid && slots[i].dirty
      modifies this`content, slots, dev
      ensures Valid() && dev.Valid() && Coherent(content, dev.blocks, dev.bs)
      ensures SameSeen(old(content), old(dev.blocks), content, dev.blocks)
      ensures OnlyHeldWritten(old(content), old(dev.blocks), dev.blocks)
      ensures err == Ok ==> content == old(content)[i := old(content)[i].(dirty := false)]
      ensures err == Ok ==> content[i].blk < |dev.blocks| && dev.blocks[content[i].blk] == content[i].data
      ensures err != Ok ==> content == old(content)
      ensures Recent() == old(Recent()) && (old(IsVictim(content, i)) ==> IsVictim(content, i))
      ensures dev.Healthy() && content[i].blk < |dev.blocks| ==>
                err == Ok && WroteBack(old(content), old(dev.blocks), dev.blocks)
    {
      hide Unique, OrderedBut, Ordered, Recency, IsVictim, SameSeen, OnlyHeldWritten, Seen;
      var written;
      err, written := dev.WriteOne(slots[i].blk, slots[i].data);
      WriteBackInvisible(content, old(dev.blocks), dev.blocks, dev.bs, i);
      SeenIs(content, old(dev.blocks), slots[i].blk, i);
      if err == Ok && written != dev.bs {
        err := EIO;
      }
      if err == Ok {
        CleanInvisible(content, dev.blocks, dev.bs, i);
        CleanOrder(content, order, tick, i);
        if IsVictim(content, i) {
          CleanVictim(content, i);
        }
        slots[i] := slots[i].(dirty := false);
        content := content[i := content[i].(dirty := false)];
        SameSeenTrans(old(content), old(dev.blocks), old(content), dev.blocks, content, dev.blocks);
      }
    }

    /** The slot to reuse: an empty one, else the one with the least tick; -1 in a pool without slots. */
    method ChooseVictim() returns (idx: int)
      requires Valid()
      ensures -1 <= idx < slots.Length && (idx < 0 <==> slots.Length == 0)
      ensures idx >= 0 ==> IsVictim(content, idx)
    {
      hide OrderedBut;
      idx := -1;
      var i := 0;
      while i < slots.Length
        invariant 0 <= i <= slots.Length
        invariant forall j :: 0 <= j < i ==> slots[j].valid
      {
        if !slots[i].valid {
          return i;
        }
        i := i + 1;
      }
      i := 0;
      while i < slots.Length
        invariant 0 <= i <= slots.Length
        invariant -1 <= idx < i && (i > 0 ==> idx >= 0)
        invariant forall j :: 0 <= j < i ==> slots[idx].tick <= slots[j].tick
      {
        if idx < 0 || slots[i].tick < slots[idx].tick {
          idx := i;
        }
        i := i + 1;
      }
    }

    /** Give slot `idx`, chosen as victim, back to the pool. */
    method Vacate(idx: nat)
      requires Valid() && IsVictim(content, idx)
      modifies this`order, this`content, slots
      ensures Valid()
      ensures content == old(content)[idx := old(content)[idx].(valid := false, dirty := false)]
      ensures Recent() == Take(old(Recent()), slots.Length - 1)
    {
      EvictOrder(content, order, tick, idx);
      order := OrderAfterEvict(content, order, idx);
      slots[idx] := slots[idx].(valid := false, dirty := false);
      content := content[idx := content[idx].(valid := false, dirty := false)];
    }

    /** bcache_get_victim: an empty slot, else the least recently used one, written back first when dirty. */
    method GetVictim(dev: Device) returns (err: Errno, idx: int)
      requires Valid() && dev.Valid() && Coherent(content, dev.blocks, dev.bs)
      modifies this`order, this`content, slots, dev
      ensures Valid() && dev.Valid() && Coherent(content, dev.blocks, dev.bs)
      ensures SameSeen(old(content), old(dev.blocks), content, dev.blocks)
      ensures OnlyHeldWritten(old(content), old(dev.blocks), dev.blocks)
      ensures SubPool(old(content), content)
      ensures err == Ok ==> 0 <= idx < slots.Length && !content[idx].valid
      ensures err == Ok ==> Recent() == Take(old(Recent()), slots.Length - 1)
      ensures err != Ok ==> content == old(content) && order == old(order)
      ensures dev.Healthy() && slots.Length > 0 && WithinDevice(old(content), old(dev.blocks)) ==>
                err == Ok && WroteBack(old(content), old(dev.blocks), dev.blocks)
      ensures Vacant(old(content)) ==> dev.blocks == old(dev.blocks)
    {
      hide Unique, OrderedBut, Ordered, IsVictim, Recency;
      idx := ChooseVictim();
      if idx < 0 {
        return EIO, idx;
      }
      if Vacant(content) {
        VacantVictim(content, idx);
      }
      err := Ok;
      if slots[idx].valid && slots[idx].dirty {
        err := FlushEntry(dev, idx);
        if err != Ok {
          return;
        }
      }
      ghost var s := content;
      EvictInvisible(s, dev.blocks, dev.bs, idx);
      Vacate(idx);
      SameSeenTrans(old(content), old(dev.blocks), s, dev.blocks, content, dev.blocks);
    }

    /** Serve a hit: slot `i` is stamped as the most recently used one. */
    method TouchHit(i: nat)
      requires Valid() && i < slots.Length && content[i].valid
      modifies this, slots
      ensures Valid() && tick == old(tick) + 1
      ensures content == old(content)[i := old(content)[i].(tick := tick)]
      ensures Recent() == Access(old(Recent()), content[i].blk, slots.Length)
    {
      FrontOrder(content, order, tick, i);
      order := Without(order, i);
      Touch(i);
      assert Recent() == Recency(old(content), order);
    }

    /** Fill the empty slot `i` with block `b` and stamp it. */
    method Install(i: nat, b: nat, dirty: bool, data: Block)
      requires Valid() && i < slots.Length && !content[i].valid && Lookup(content, b) < 0
      modifies this, slots
      ensures Valid() && tick == old(tick) + 1
      ensures content == old(content)[i := Slot(true, dirty, b, tick, data)]
      ensures Recent() == [b] + old(Recent())
    {
      hide Unique, OrderedBut, Ordered, Recency;
      ghost var s := content;
      FillOrder(s, order, tick, i, Slot(true, dirty, b, s[i].tick, data));
      FillOrder(s, order, tick, i, Slot(true, dirty, b, tick + 1, data));
      FillSeen(s, [], i, Slot(true, dirty, b, s[i].tick, data));
      slots[i] := Slot(true, dirty, b, slots[i].tick, data);
      content := content[i := Slot(true, dirty, b, content[i].tick, data)];
      Touch(i);
      assert content == s[i := Slot(true, dirty, b, tick, data)];
    }

    /** Overwrite the cached copy in slot `i`, which becomes dirty. */
    method Rewrite(i: nat, data: Block)
      requires Valid() && i < slots.Length && content[i].valid
      modifies this`content, slots
      ensures Valid() && Recent() == old(Recent())
      ensures content == old(content)[i := old(content)[i].(data := data, dirty := true)]
    {
      slots[i] := slots[i].(data := data, dirty := true);
      content := content[i := content[i].(data := data, dirty := true)];
      assert Recent() == old(Recent());
    }

    /** Drop slot `i` without writing it back. */
    method Forget(i: nat)
      requires Valid() && i < slots.Length && content[i].valid
      modifies this`order, this`content, slots
      ensures Valid()
      ensures content == old(content)[i := old(content)[i].(valid := false, dirty := false)]
      ensures Recent() == Without(old(Recent()), old(content)[i].blk)
    {
      ForgetOrder(content, order, tick, i);
      order := Without(order, i);
      slots[i] := slots[i].(valid := false, dirty := false);
      content := content[i := content[i].(valid := false, dirty := false)];
    }

    /** Cache miss: make room, read block `b` from the device and install it clean. */
    method Load(dev: Device, b: nat) returns (err: Errno, got: Block, idx: int)
      requires Valid() && dev.Valid() && Coherent(content, dev.blocks, dev.bs) && Lookup(content, b) < 0
      modifies this, slots, dev
      ensures Valid() && dev.Valid() && Coherent(content, dev.blocks, dev.bs)
      ensures SameSeen(old(content), old(dev.blocks), content, dev.blocks)
      ensures OnlyHeldWritten(old(content), old(dev.blocks), dev.blocks) && OnlyAdds(old(content), content, b)
      ensures err == Ok ==> |got| <= dev.bs
      ensures err == Ok && |got| < dev.bs ==>
                got <= dev.Stored(b) && (b < |dev.blocks| ==> got <= Seen(content, dev.blocks, b))
      ensures err == Ok && |got| == dev.bs ==>
                && 0 <= idx < slots.Length && Holds(content[idx], b) && content[idx].data == got
                && b < |dev.blocks| && got == Seen(content, dev.blocks, b)
                && Recent() == Access(old(Recent()), b, slots.Length)
      ensures dev.Healthy() && slots.Length > 0 && WithinDevice(old(content), old(dev.blocks)) && b < |dev.blocks| ==>
                err == Ok && |got| == dev.bs && WroteBack(old(content), old(dev.blocks), dev.blocks)
      ensures Vacant(old(content)) ==> dev.blocks == old(dev.blocks)
    {
      hide Unique, OrderedBut, Ordered, Recency, Coherent, SameSeen, SeenPut, OnlyHeldWritten, OnlyAdds, Seen, SubPool,
        Access, Take;
      got := [];
      RecentFacts(b);
      err, idx := GetVictim(dev);
      ghost var s := content;
      SubAdds(old(content), s, b);
      if err == Ok {
        err, got := dev.ReadOne(b);
        if err == Ok && |got| == dev.bs {
          ghost var t := Slot(true, false, b, tick + 1, got);
          MissFill(old(content), old(dev.blocks), s, dev.blocks, dev.bs, idx, t);
          AccessMiss(old(Recent()), b, slots.Length);
          Install(idx, b, false, got);
          assert content == s[idx := t];
        } else {
          SubLookup(old(content), s, b);
          SeenNone(s, dev.blocks, b);
        }
      }
    }

    /** Cache hit: the copy in slot `idx`, which becomes the most recently used one. */
    method Hit(dev: Device, b: nat, idx: nat) returns (got: Block)
      requires Valid() && dev.Valid() && Coherent(content, dev.blocks, dev.bs)
      requires idx < slots.Length && Holds(content[idx], b)
      modifies this, slots
      ensures Valid() && dev.Valid() && Coherent(content, dev.blocks, dev.bs)
      ensures SameSeen(old(content), old(dev.blocks), content, dev.blocks)
      ensures OnlyHeldWritten(old(content), old(dev.blocks), dev.blocks) && OnlyAdds(old(content), content, b)
      ensures |got| == dev.bs && Holds(content[idx], b) && content[idx].data == got
      ensures b < |dev.blocks| ==> got == Seen(content, dev.blocks, b)
      ensures Recent() == Access(old(Recent()), b, slots.Length)
    {
      hide Unique, OrderedBut, Ordered, Recency, Coherent, SameSeen, SeenPut, Seen, OnlyHeldWritten, OnlyAdds;
      got := slots[idx].data;
      CoherentAt(content, dev.blocks, dev.bs, idx);
      RewriteCoherent(content, dev.blocks, dev.bs, idx, content[idx].(tick := tick + 1));
      TouchHit(idx);
      SeenIs(content, dev.blocks, b, idx);
    }

    /** The block through the pool: from its slot when cached, else loaded.  `idx` is its slot afterwards. */
    method Fetch(dev: Device, b: nat) returns (err: Errno, got: Block, idx: int)
      requires Valid() && dev.Valid() && Coherent(content, dev.blocks, dev.bs)
      modifies this, slots, dev
      ensures Valid() && dev.Valid() && Coherent(content, dev.blocks, dev.bs)
      ensures SameSeen(old(content), old(dev.blocks), content, dev.blocks)
      ensures OnlyHeldWritten(old(content), old(dev.blocks), dev.blocks) && OnlyAdds(old(content), content, b)
      ensures err == Ok ==> |got| <= dev.bs
      ensures err == Ok && |got| < dev.bs ==>
                got <= dev.Stored(b) && (b < |dev.blocks| ==> got <= Seen(content, dev.blocks, b))
      ensures err == Ok && |got| == dev.bs ==>
                && 0 <= idx < slots.Length && Holds(content[idx], b) && content[idx].data == got
                && (b < |dev.blocks| ==> got == Seen(content, dev.blocks, b))
                && Recent() == Access(old(Recent()), b, slots.Length)
      ensures dev.Healthy() && slots.Length > 0 && WithinDevice(old(content), old(dev.blocks)) && b < |dev.blocks| ==>
                err == Ok && |got| == dev.bs && WroteBack(old(content), old(dev.blocks), dev.blocks)
      ensures Vacant(old(content)) ==> dev.blocks == old(dev.blocks)
    {
      hide Unique, OrderedBut, Ordered, Recency, Coherent, SameSeen, SeenPut, Seen, OnlyHeldWritten, OnlyAdds, SubPool;
      idx := Find(b);
      if idx >= 0 {
        err := Ok;
        got := Hit(dev, b, idx);
      } else {
        err, got, idx := Load(dev, b);
      }
    }

    /** Write hit: the cached copy is replaced, becomes dirty and most recent. */
    method Overwrite(i: nat, d: Block)
      requires Valid() && i < slots.Length && content[i].valid
      modifies this, slots
      ensures Valid() && tick == old(tick) + 1
      ensures content == old(content)[i := old(content)[i].(data := d, dirty := true, tick := tick)]
      ensures Recent() == Access(old(Recent()), content[i].blk, slots.Length)
    {
      hide Unique, OrderedBut, Ordered, Recency;
      Rewrite(i, d);
      ghost var s := content;
      TouchHit(i);
      assert content == s[i := s[i].(tick := tick)];
    }

    /** Write miss: a slot is made free for the new contents. */
    method Place(dev: Device, b: nat, d: Block) returns (err: Errno)
      requires Valid() && dev.Valid() && Coherent(content, dev.blocks, dev.bs) && |d| == dev.bs
      requires Lookup(content, b) < 0
      modifies this, slots, dev
      ensures Valid() && dev.Valid() && Coherent(content, dev.blocks, dev.bs)
      ensures OnlyHeldWritten(old(content), old(dev.blocks), dev.blocks) && OnlyAdds(old(content), content, b)
      ensures err == Ok ==> SeenPut(old(content), old(dev.blocks), content, dev.blocks, b, d)
      ensures err == Ok ==> Recent() == Access(old(Recent()), b, slots.Length)
      ensures err != Ok ==> SameSeen(old(content), old(dev.blocks), content, dev.blocks)
      ensures dev.Healthy() && slots.Length > 0 && WithinDevice(old(content), old(dev.blocks)) ==>
                err == Ok && WroteBack(old(content), old(dev.blocks), dev.blocks)
      ensures Vacant(old(content)) ==> dev.blocks == old(dev.blocks)
    {
      hide Unique, OrderedBut, Ordered, Recency, Coherent, SameSeen, SeenPut, OnlyHeldWritten, OnlyAdds, SubPool,
        Access, Take;
      RecentFacts(b);
      var idx;
      err, idx := GetVictim(dev);
      ghost var s := content;
      SubAdds(old(content), s, b);
      if err == Ok {
        ghost var t := Slot(true, true, b, tick + 1, d);
        MissFill(old(content), old(dev.blocks), s, dev.blocks, dev.bs, idx, t);
        AccessMiss(old(Recent()), b, slots.Length);
        Install(idx, b, true, d);
        assert content == s[idx := t];
      }
    }

    /** Write path: the new contents go into a slot, dirty; only an evicted block is written to the device. */
    method Store(dev: Device, b: nat, d: Block) returns (err: Errno)
      requires Valid() && dev.Valid() && Coherent(content, dev.blocks, dev.bs) && |d| == dev.bs
      modifies this, slots, dev
      ensures Valid() && dev.Valid() && Coherent(content, dev.blocks, dev.bs)
      ensures OnlyHeldWritten(old(content), old(dev.blocks), dev.blocks) && OnlyAdds(old(content), content, b)
      ensures err == Ok ==> SeenPut(old(content), old(dev.blocks), content, dev.blocks, b, d)
      ensures err == Ok ==> Recent() == Access(old(Recent()), b, slots.Length)
      ensures err != Ok ==> SameSeen(old(content), old(dev.blocks), content, dev.blocks)
      ensures dev.Healthy() && slots.Length > 0 && WithinDevice(old(content), old(dev.blocks)) ==>
                err == Ok && WroteBack(old(content), old(dev.blocks), dev.blocks)
      ensures Vacant(old(content)) ==> dev.blocks == old(dev.blocks)
    {
      hide Unique, OrderedBut, Ordered, Recency, Coherent, SameSeen, SeenPut, OnlyHeldWritten, OnlyAdds;
      var idx := Find(b);
      if idx >= 0 {
        err := Ok;
        RewriteCoherent(content, dev.blocks, dev.bs, idx, content[idx].(data := d, dirty := true, tick := tick + 1));
        Overwrite(idx, d);
      } else {
        err := Place(dev, b, d);
      }
    }
  }
}
