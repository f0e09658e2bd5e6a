/** Whole runs of the cache: any sequence of block reads, writes, patches and invalidations. */
module CacheRuns {
  import opened Errors
  import opened Bytes
  import opened BlockDevice
  import opened Lru
  import opened Pools
  import opened BlockCaches

  datatype CacheOp =
    | Read(b: nat)
    | Write(b: nat, d: Block)
    | Patch(b: nat, off: nat, bytes: Block)
    | Drop(b: nat)

  /** The block exists on a device of `n` blocks of `bs` bytes, written blocks are whole and patches lie inside one. */
  predicate Fitting(op: CacheOp, n: nat, bs: nat) {
    && op.b < n
    && (op.Write? ==> |op.d| == bs)
    && (op.Patch? ==> op.bytes != [] && op.off + |op.bytes| <= bs)
  }

  ghost predicate InRange(ops: seq<CacheOp>, n: nat, bs: nat) {
    forall i :: 0 <= i < |ops| ==> Fitting(ops[i], n, bs)
  }

  ghost predicate WholeBlocks(v: seq<Block>, bs: nat) {
    forall b :: 0 <= b < |v| ==> |v[b]| == bs
  }

  /** One operation on a plain array of blocks. */
  ghost function Applied(op: CacheOp, v: seq<Block>, bs: nat): (w: seq<Block>)
    requires WholeBlocks(v, bs) && Fitting(op, |v|, bs)
    ensures |w| == |v| && WholeBlocks(w, bs)
  {
    match op
    case Read(_) => v
    case Write(b, d) => v[b := d]
    case Patch(b, off, bytes) => v[b := Splice(v[b], off, bytes)]
    case Drop(_) => v
  }

  /** The array of blocks after `ops`. */
  ghost function After(ops: seq<CacheOp>, v: seq<Block>, bs: nat): (w: seq<Block>)
    requires WholeBlocks(v, bs) && InRange(ops, |v|, bs)
    ensures |w| == |v| && WholeBlocks(w, bs)
  {
    if ops == [] then v else Applied(ops[|ops| - 1], After(ops[..|ops| - 1], v, bs), bs)
  }

  ghost function Read1(op: CacheOp, v: seq<Block>): seq<Block>
    requires op.b < |v|
  {
    if op.Read? then [v[op.b]] else []
  }

  /** What the reads of `ops` return on a plain array of blocks. */
  ghost function Reads(ops: seq<CacheOp>, v: seq<Block>, bs: nat): seq<Block>
    requires WholeBlocks(v, bs) && InRange(ops, |v|, bs)
  {
    if ops == [] then []
    else
      var most := ops[..|ops| - 1];
      Reads(most, v, bs) + Read1(ops[|ops| - 1], After(most, v, bs))
  }

  lemma RunStep(ops: seq<CacheOp>, k: nat, v: seq<Block>, bs: nat)
    requires WholeBlocks(v, bs) && InRange(ops, |v|, bs) && k < |ops|
    ensures After(ops[..k + 1], v, bs) == Applied(ops[k], After(ops[..k], v, bs), bs)
    ensures Reads(ops[..k + 1], v, bs) == Reads(ops[..k], v, bs) + Read1(ops[k], After(ops[..k], v, bs))
  {
    hide Applied, Read1;
    assert ops[..k + 1][..k] == ops[..k];
  }

  // ---------------------------------------------------------------- what invalidations lose

  /** A byte is as the device has it; or it was changed since, and is in the cache perhaps only; or the change was
      dropped. */
  datatype Mark = Clean | Dirty | Lost

  /** The operation writes byte `i` of its block. */
  predicate Covers(op: CacheOp, i: nat) {
    op.Write? || (op.Patch? && op.off <= i < op.off + |op.bytes|)
  }

  function Marked(m: Mark, op: CacheOp, b: nat, i: nat): Mark {
    if op.b != b then m
    else if Covers(op, i) then Dirty
    else if op.Drop? && m == Dirty then Lost
    else m
  }

  /** What a run makes of byte `i` of block `b`. At its start the cache may hold changes of the blocks in `dirty`. */
  ghost function MarkOf(ops: seq<CacheOp>, dirty: set<nat>, b: nat, i: nat): Mark {
    if ops == [] then (if b in dirty then Dirty else Clean)
    else Marked(MarkOf(ops[..|ops| - 1], dirty, b, i), ops[|ops| - 1], b, i)
  }

  lemma MarkStep(ops: seq<CacheOp>, k: nat, dirty: set<nat>, b: nat, i: nat)
    requires k < |ops|
    ensures MarkOf(ops[..k + 1], dirty, b, i) == Marked(MarkOf(ops[..k], dirty, b, i), ops[k], b, i)
  {
    assert ops[..k + 1][..k] == ops[..k];
  }

  /** No byte of the block that operation `k` works on is lost. */
  ghost predicate Kept(ops: seq<CacheOp>, k: nat, dirty: set<nat>, bs: nat)
    requires k < |ops|
  {
    forall i :: 0 <= i < bs ==> MarkOf(ops[..k], dirty, ops[k].b, i) != Lost
  }

  /** Whatever the run drops it writes again before it reads it. */
  ghost predicate Covered(ops: seq<CacheOp>, dirty: set<nat>, bs: nat) {
    forall k :: 0 <= k < |ops| && ops[k].Read? ==> Kept(ops, k, dirty, bs)
  }

  /** A run without invalidations loses nothing. */
  lemma {:induction false} NothingDropped(ops: seq<CacheOp>, dirty: set<nat>, b: nat, i: nat)
    requires forall k :: 0 <= k < |ops| ==> !ops[k].Drop?
    ensures MarkOf(ops, dirty, b, i) != Lost
  {
    if ops != [] {
      NothingDropped(ops[..|ops| - 1], dirty, b, i);
    }
  }

  lemma NoDropsCovered(ops: seq<CacheOp>, dirty: set<nat>, bs: nat)
    requires forall k :: 0 <= k < |ops| ==> !ops[k].Drop?
    ensures Covered(ops, dirty, bs)
  {
    hide MarkOf;
    forall k, i | 0 <= k < |ops| && 0 <= i < bs ensures MarkOf(ops[..k], dirty, ops[k].b, i) != Lost {
      NothingDropped(ops[..k], dirty, ops[k].b, i);
    }
  }

  /** Blocks below `from` are never dropped. The view is the plain array but for lost bytes, and the device is the view
      but for bytes changed since. */
  ghost predicate Tracked(ops: seq<CacheOp>, dirty: set<nat>, plain: seq<Block>, view: seq<Block>, blocks: seq<Block>,
                          from: nat, bs: nat) {
    && |plain| == |view| == |blocks| && WholeBlocks(plain, bs) && WholeBlocks(view, bs) && WholeBlocks(blocks, bs)
    && (forall b, i :: 0 <= b < |view| && 0 <= i < bs && (b < from || MarkOf(ops, dirty, b, i) != Lost) ==>
          view[b][i] == plain[b][i])
    && (forall b, i :: from <= b < |view| && 0 <= i < bs && MarkOf(ops, dirty, b, i) != Dirty ==>
          blocks[b][i] == view[b][i])
  }

  /** One operation on view and device, where blocks from `from` on can be dropped. */
  ghost predicate Moved(op: CacheOp, view: seq<Block>, blocks: seq<Block>, view': seq<Block>, blocks': seq<Block>,
                        from: nat, bs: nat) {
    && |view| == |blocks| == |view'| == |blocks'| && WholeBlocks(view, bs) && Fitting(op, |view|, bs)
    && WholeBlocks(blocks', bs)
    && view' == (if op.Drop? && op.b >= from then view[op.b := blocks[op.b]] else Applied(op, view, bs))
    && (op.Drop? ==> blocks' == blocks)
    && (forall b :: from <= b < |view| && !(op.Write? && b == op.b) ==>
          blocks'[b] == blocks[b] || blocks'[b] == view[b])
  }

  lemma TrackedOn(ops: seq<CacheOp>, k: nat, dirty: set<nat>, plain: seq<Block>, view: seq<Block>, blocks: seq<Block>,
                  view': seq<Block>, blocks': seq<Block>, from: nat, bs: nat)
    requires k < |ops| && Tracked(ops[..k], dirty, plain, view, blocks, from, bs)
    requires Moved(ops[k], view, blocks, view', blocks', from, bs)
    ensures Tracked(ops[..k + 1], dirty, Applied(ops[k], plain, bs), view', blocks', from, bs)
  {
    hide MarkOf;
    var op, plain' := ops[k], Applied(ops[k], plain, bs);
    forall b, i | 0 <= b < |view| && 0 <= i < bs
      ensures b < from || MarkOf(ops[..k + 1], dirty, b, i) != Lost ==> view'[b][i] == plain'[b][i]
      ensures from <= b && MarkOf(ops[..k + 1], dirty, b, i) != Dirty ==> blocks'[b][i] == view'[b][i]
    {
      MarkStep(ops, k, dirty, b, i);
      assert b < from || MarkOf(ops[..k], dirty, b, i) != Lost ==> view[b][i] == plain[b][i];
      assert from <= b && MarkOf(ops[..k], dirty, b, i) != Dirty ==> blocks[b][i] == view[b][i];
    }
  }

  /** A block without lost bytes reads as on the plain array. */
  lemma KeptReads(ops: seq<CacheOp>, k: nat, dirty: set<nat>, plain: seq<Block>, view: seq<Block>, blocks: seq<Block>,
                  from: nat, bs: nat)
    requires k < |ops| && Tracked(ops[..k], dirty, plain, view, blocks, from, bs) && ops[k].b < |view|
    requires Kept(ops, k, dirty, bs)
    ensures view[ops[k].b] == plain[ops[k].b]
  {
    hide MarkOf;
    var b := ops[k].b;
    forall i | 0 <= i < bs ensures view[b][i] == plain[b][i] {
      assert MarkOf(ops[..k], dirty, b, i) != Lost;
    }
  }

  /** What the pool on side `low` of the split is told of one operation: metadata is never dropped. */
  ghost function Told(op: CacheOp, split: nat, low: bool): seq<Event> {
    if (op.b < split) != low || (op.Drop? && low) then []
    else if op.Drop? then [Dropped(op.b)]
    else [Touched(op.b)]
  }

  /** The part of a run that the pool on side `low` of the split is told of. */
  ghost function SubTrace(ops: seq<CacheOp>, split: nat, low: bool): seq<Event> {
    if ops == [] then [] else SubTrace(ops[..|ops| - 1], split, low) + Told(ops[|ops| - 1], split, low)
  }

  ghost function Steps(q: seq<nat>, cap: nat, told: seq<Event>): seq<nat> {
    if told == [] then q else Step(q, cap, told[0])
  }

  lemma SubTraceStep(ops: seq<CacheOp>, i: nat, split: nat, low: bool, cap: nat)
    requires i < |ops|
    ensures Run(SubTrace(ops[..i + 1], split, low), cap)
         == Steps(Run(SubTrace(ops[..i], split, low), cap), cap, Told(ops[i], split, low))
  {
    hide Step;
    var t := SubTrace(ops[..i], split, low);
    assert ops[..i + 1][..i] == ops[..i];
    if Told(ops[i], split, low) != [] {
      var e := Told(ops[i], split, low)[0];
      assert (t + [e])[..|t|] == t;
    } else {
      assert t + [] == t;
    }
  }

  /** The first block an invalidation drops: without a cache there is none. */
  ghost function Droppable(c: BlockCache): nat
    reads c
  {
    if c.enabled then c.split else |c.view|
  }

  /** A patch goes through a read and a write where there is no cache. */
  method PatchOne(c: BlockCache, b: nat, off: nat, bytes: Block)
    requires c.Valid() && c.Ready() && Fitting(Patch(b, off, bytes), |c.view|, c.dev.bs)
    modifies c.Repr()
    ensures c.Valid() && c.Ready() && |c.view| == |old(c.view)|
    ensures Moved(Patch(b, off, bytes), old(c.view), old(c.dev.blocks), c.view, c.dev.blocks, Droppable(c), c.dev.bs)
    ensures c.enabled && old(c.Ample()) ==> c.dev.blocks == old(c.dev.blocks)
    ensures c.enabled ==> c.Recent(b) == Access(old(c.Recent(b)), b, c.PoolOf(b).slots.Length)
    ensures c.enabled ==> c.Side(b >= c.split) == old(c.Side(b >= c.split))
  {
    hide Part, Routed, Coherent, WithinDevice, Unique, OrderedBut, Ordered, Access, Recency, Without, Splice,
      BlockCache.Roomy;
    c.ViewSized();
    if c.Ample() {
      c.AmpleRoomy(b);
    }
    var err := c.ModifyBlock(b, off, bytes);
    if err == EINVAL {
      var d, n;
      err, d := c.ReadOne(b);
      err, n := c.WriteOne(b, Splice(d, off, bytes));
    }
  }

  /** One operation on a cache. */
  method Perform(c: BlockCache, op: CacheOp) returns (got: seq<Block>)
    requires c.Valid() && c.Ready() && Fitting(op, |c.view|, c.dev.bs)
    modifies c.Repr()
    ensures c.Valid() && c.Ready() && |c.view| == |old(c.view)|
    ensures Moved(op, old(c.view), old(c.dev.blocks), c.view, c.dev.blocks, Droppable(c), c.dev.bs)
    ensures c.enabled && old(c.Ample()) ==> c.dev.blocks == old(c.dev.blocks)
    ensures got == if op.Read? then [old(c.view)[op.b]] else []
    ensures c.enabled ==> forall low :: c.Side(low) == Steps(old(c.Side(low)), Slots(c, low), Told(op, c.split, low))
  {
    hide Part, Routed, Coherent, WithinDevice, Unique, OrderedBut, Ordered, Access, Recency, Without, Splice,
      BlockCache.Roomy;
    c.ViewSized();
    if c.Ample() {
      c.AmpleRoomy(op.b);
    }
    got := [];
    match op {
      case Read(b) =>
        var err, d := c.ReadOne(b);
        got := [d];
      case Write(b, d) =>
        var err, n := c.WriteOne(b, d);
      case Patch(b, off, bytes) =>
        PatchOne(c, b, off, bytes);
      case Drop(b) =>
        c.Invalidate(b);
    }
  }

  ghost function Slots(c: BlockCache, low: bool): nat {
    (if low then c.meta else c.data).slots.Length
  }

  /** The cache may hold changes of the blocks in `dirty` only. */
  ghost predicate CleanBut(c: BlockCache, dirty: set<nat>)
    reads c, c.dev
  {
    |c.view| == |c.dev.blocks| && forall b :: 0 <= b < |c.view| && b !in dirty ==> c.dev.blocks[b] == c.view[b]
  }

  lemma TrackedStart(ops: seq<CacheOp>, c: BlockCache, dirty: set<nat>)
    requires c.Valid() && CleanBut(c, dirty)
    ensures WholeBlocks(c.view, c.dev.bs)
    ensures Tracked(ops[..0], dirty, c.view, c.view, c.dev.blocks, Droppable(c), c.dev.bs)
  {
    hide Part, Routed, Coherent, Unique, OrderedBut, Ordered;
    c.ViewSized();
  }

  lemma NothingRun(ops: seq<CacheOp>, v: seq<Block>, bs: nat)
    requires WholeBlocks(v, bs)
    ensures After(ops[..0], v, bs) == v && Reads(ops[..0], v, bs) == []
  {
  }

  /**
   * Every cache build behaves as the plain array of blocks, but for what it
   * was told to drop. The view is the array wherever no dropped change is
   * missing, and a run that writes again what it dropped before it reads it
   * reads what the array would give.
   */
  method Replay(c: BlockCache, ops: seq<CacheOp>, ghost dirty: set<nat>) returns (got: seq<Block>)
    requires c.Valid() && c.Ready() && InRange(ops, |c.view|, c.dev.bs) && CleanBut(c, dirty)
    modifies c.Repr()
    ensures c.Valid() && c.Ready() && WholeBlocks(old(c.view), c.dev.bs)
    ensures Covered(ops, dirty, c.dev.bs) ==> got == Reads(ops, old(c.view), c.dev.bs)
    ensures Tracked(ops, dirty, After(ops, old(c.view), c.dev.bs), c.view, c.dev.blocks, Droppable(c), c.dev.bs)
  {
    hide BlockCache.Valid, BlockCache.Ready, Steps, Told, Applied, Tracked, Moved, After, Reads, Kept;
    got := [];
    TrackedStart(ops, c, dirty);
    ghost var v, bs := c.view, c.dev.bs;
    NothingRun(ops, v, bs);
    var i := 0;
    while i < |ops|
      invariant 0 <= i <= |ops| && c.Valid() && c.Ready() && |c.view| == |v|
      invariant Tracked(ops[..i], dirty, After(ops[..i], v, bs), c.view, c.dev.blocks, Droppable(c), bs)
      invariant Covered(ops, dirty, bs) ==> got == Reads(ops[..i], v, bs)
    {
      ghost var view, blocks := c.view, c.dev.blocks;
      if Covered(ops, dirty, bs) && ops[i].Read? {
        KeptReads(ops, i, dirty, After(ops[..i], v, bs), view, blocks, Droppable(c), bs);
      }
      RunStep(ops, i, v, bs);
      var d := Perform(c, ops[i]);
      TrackedOn(ops, i, dirty, After(ops[..i], v, bs), view, blocks, c.view, c.dev.blocks, Droppable(c), bs);
      got := got + d;
      i := i + 1;
    }
    assert ops[..|ops|] == ops;
  }

  /** Split pools, one pool, or no cache: on a run that writes again what it dropped before it reads it, the same bytes
      come back, and the views differ at most in what was dropped last. */
  method BuildsAgree(c: BlockCache, e: BlockCache, ops: seq<CacheOp>, ghost dirty: set<nat>)
    returns (x: seq<Block>, y: seq<Block>)
    requires c.Valid() && c.Ready() && e.Valid() && e.Ready() && c.Repr() !! e.Repr()
    requires c.view == e.view && c.dev.bs == e.dev.bs && CleanBut(c, dirty) && CleanBut(e, dirty)
    requires InRange(ops, |c.view|, c.dev.bs)
    modifies c.Repr(), e.Repr()
    ensures |c.view| == |e.view| && WholeBlocks(c.view, c.dev.bs) && WholeBlocks(e.view, c.dev.bs)
    ensures Covered(ops, dirty, c.dev.bs) ==> x == y
    ensures forall b, i :: 0 <= b < |c.view| && 0 <= i < c.dev.bs && MarkOf(ops, dirty, b, i) != Lost ==>
              c.view[b][i] == e.view[b][i]
  {
    hide Covered, Reads, After, MarkOf, BlockCache.Ready;
    x := Replay(c, ops, dirty);
    y := Replay(e, ops, dirty);
  }

  // ---------------------------------------------------------------- the condition is exact

  /** The byte `ops` wrote last to this place. */
  ghost function Value(ops: seq<CacheOp>, b: nat, i: nat): byte {
    if ops == [] then 0
    else
      var op := ops[|ops| - 1];
      if op.b == b && op.Write? && i < |op.d| then op.d[i]
      else if op.b == b && op.Patch? && Covers(op, i) then op.bytes[i - op.off]
      else Value(ops[..|ops| - 1], b, i)
  }

  /** A byte that is not clean was written by the run. */
  lemma {:induction false} ValueIs(ops: seq<CacheOp>, v: seq<Block>, bs: nat, b: nat, i: nat)
    requires WholeBlocks(v, bs) && InRange(ops, |v|, bs) && b < |v| && i < bs && MarkOf(ops, {}, b, i) != Clean
    ensures After(ops, v, bs)[b][i] == Value(ops, b, i)
  {
    if ops != [] {
      var op := ops[|ops| - 1];
      if !(op.b == b && Covers(op, i)) {
        ValueIs(ops[..|ops| - 1], v, bs, b, i);
      }
    }
  }

  /** A run that reads what it dropped reads it at some byte, and there is a byte other than the one it had written. */
  lemma Uncovered(ops: seq<CacheOp>, bs: nat) returns (k: nat, i: nat, x: byte)
    requires !Covered(ops, {}, bs)
    ensures Betrays(ops, bs, k, i, x)
  {
    hide MarkOf, Value;
    k :| 0 <= k < |ops| && ops[k].Read? && !Kept(ops, k, {}, bs);
    i :| 0 <= i < bs && MarkOf(ops[..k], {}, ops[k].b, i) == Lost;
    x := if Value(ops[..k], ops[k].b, i) == 0 then 1 else 0;
  }

  /** Operation `k` reads byte `i` of its block, which was lost and had been other than `x`. */
  ghost predicate Betrays(ops: seq<CacheOp>, bs: nat, k: nat, i: nat, x: byte) {
    && k < |ops| && ops[k].Read? && i < bs
    && MarkOf(ops[..k], {}, ops[k].b, i) == Lost && Value(ops[..k], ops[k].b, i) != x
  }

  lemma BetrayedRead(ops: seq<CacheOp>, v: seq<Block>, view: seq<Block>, blocks: seq<Block>, bs: nat, k: nat, i: nat,
                     x: byte)
    requires WholeBlocks(v, bs) && InRange(ops, |v|, bs) && Betrays(ops, bs, k, i, x)
    requires Tracked(ops[..k], {}, After(ops[..k], v, bs), view, blocks, 0, bs) && |view| == |v|
    requires forall b, j :: 0 <= b < |blocks| && 0 <= j < bs ==> blocks[b][j] == x
    ensures view[ops[k].b] != After(ops[..k], v, bs)[ops[k].b]
  {
    hide MarkOf, Value, After;
    ValueIs(ops[..k], v, bs, ops[k].b, i);
    assert blocks[ops[k].b][i] == x;
  }

  function Uniform(n: nat, bs: nat, x: byte): (v: seq<Block>)
    ensures |v| == n && WholeBlocks(v, bs) && forall b, i :: 0 <= b < n && 0 <= i < bs ==> v[b][i] == x
  {
    seq(n, _ => seq(bs, _ => x))
  }

  /** Such a run does not read what the array would give, on a device that holds nothing but `x`, through a cache that
      has room for all of it. */
  method Exposed(ops: seq<CacheOp>, n: nat, bs: nat, ghost k: nat, ghost i: nat, x: byte)
    returns (got: seq<Block>)
    requires InRange(ops, n, bs) && Betrays(ops, bs, k, i, x)
    ensures got != Reads(ops, Uniform(n, bs, x), bs)
  {
    hide BlockCache.Valid, BlockCache.Ready, Steps, Told, Applied, Tracked, Moved, After, Reads, MarkOf, Uniform;
    var v := Uniform(n, bs, x);
    var dev := new Device(bs, v, [], _ => Done);
    var c := new BlockCache(true, 0, dev, n + 1, n + 1);
    got := [];
    ghost var at: nat := 0;
    TrackedStart(ops, c, {});
    NothingRun(ops, v, bs);
    var m := 0;
    while m < |ops|
      invariant 0 <= m <= |ops| && c.Valid() && c.Ready() && |c.view| == n && c.dev.blocks == v
      invariant Tracked(ops[..m], {}, After(ops[..m], v, bs), c.view, c.dev.blocks, 0, bs)
      invariant |got| == |Reads(ops[..m], v, bs)| && (m > k ==> at < |got| && got[at] != Reads(ops[..m], v, bs)[at])
    {
      ghost var view, blocks := c.view, c.dev.blocks;
      RunStep(ops, m, v, bs);
      if m == k {
        BetrayedRead(ops, v, view, blocks, bs, k, i, x);
        at := |got|;
      }
      var d := Perform(c, ops[m]);
      TrackedOn(ops, m, {}, After(ops[..m], v, bs), view, blocks, c.view, c.dev.blocks, 0, bs);
      got := got + d;
      m := m + 1;
    }
    assert ops[..|ops|] == ops;
  }

  /** Each pool always holds what the recency list of its part of the whole run says; the unified build has one part. */
  method ReplayRecency(c: BlockCache, ops: seq<CacheOp>)
    requires c.Valid() && c.Ready() && c.enabled && InRange(ops, |c.view|, c.dev.bs)
    requires c.Side(true) == [] && c.Side(false) == []
    modifies c.Repr()
    ensures c.Valid() && c.Ready()
    ensures forall low :: c.Side(low) == Run(SubTrace(ops, c.split, low), Slots(c, low))
  {
    hide BlockCache.Valid, BlockCache.Ready, Steps, Told, Applied, Step, SubTrace, BlockCache.Side;
    var i := 0;
    NothingTold(c.split, Slots(c, true), Slots(c, false));
    assert ops[..0] == [];
    while i < |ops|
      invariant 0 <= i <= |ops| && c.Valid() && c.Ready() && |c.view| == |old(c.view)|
      invariant forall low :: c.Side(low) == Run(SubTrace(ops[..i], c.split, low), Slots(c, low))
    {
      SubTraceStep(ops, i, c.split, true, Slots(c, true));
      SubTraceStep(ops, i, c.split, false, Slots(c, false));
      var d := Perform(c, ops[i]);
      i := i + 1;
    }
    assert ops[..|ops|] == ops;
  }

  lemma NothingTold(split: nat, m: nat, n: nat)
    ensures Run(SubTrace([], split, true), m) == [] && Run(SubTrace([], split, false), n) == []
  {
  }
}
