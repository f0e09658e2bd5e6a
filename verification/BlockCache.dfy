/**
 * The write-back block cache.  `split` is the first block of the data region in
 * the two-pool build and 0 in the unified build, where every block lives in
 * `data`; with `enabled` false every call goes straight to the device.
 */
module BlockCaches {
  import opened Errors
  import opened Bytes
  import opened BlockDevice
  import opened Lru
  import opened Pools

  /** The pool on side `low` of the split shows the blocks of its side as `view` does. */
  ghost predicate Part(view: seq<Block>, s: seq<Slot>, blocks: seq<Block>, split: nat, low: bool) {
    && |view| == |blocks|
    && forall b :: 0 <= b < |blocks| && (b < split) == low ==> view[b] == Seen(s, blocks, b)
  }

  ghost predicate Routed(s: seq<Slot>, split: nat, low: bool) {
    forall i :: 0 <= i < |s| && s[i].valid ==> (s[i].blk < split) == low
  }

  ghost function Put(view: seq<Block>, b: nat, d: Block): (r: seq<Block>)
    ensures |r| == |view|
    ensures forall c :: 0 <= c < |view| ==> r[c] == if c == b then d else view[c]
  {
    if b < |view| then view[b := d] else view
  }

  lemma PartKept(view: seq<Block>, s: seq<Slot>, blocks: seq<Block>, s': seq<Slot>, blocks': seq<Block>, split: nat,
                 low: bool)
    requires Part(view, s, blocks, split, low) && SameSeen(s, blocks, s', blocks')
    ensures Part(view, s', blocks', split, low)
  {
  }

  lemma PartPut(view: seq<Block>, s: seq<Slot>, blocks: seq<Block>, s': seq<Slot>, blocks': seq<Block>, split: nat,
                low: bool, b: nat, d: Block)
    requires Part(view, s, blocks, split, low) && SeenPut(s, blocks, s', blocks', b, d)
    ensures Part(Put(view, b, d), s', blocks', split, low)
  {
  }

  /** What a step of the pool on side `low` does to the pool on the other side: nothing. */
  lemma PartOther(view: seq<Block>, q: seq<Slot>, s: seq<Slot>, blocks: seq<Block>, blocks': seq<Block>, bs: nat,
                  split: nat, low: bool)
    requires Part(view, q, blocks, split, !low) && Coherent(q, blocks, bs) && OnlyHeldWritten(s, blocks, blocks')
    requires Routed(s, split, low) && Routed(q, split, !low)
    ensures |blocks'| == |blocks| && Part(view, q, blocks', split, !low) && Coherent(q, blocks', bs)
  {
    forall b | 0 <= b < |blocks| && (b < split) == !low ensures blocks'[b] == blocks[b] {
      assert Lookup(s, b) < 0;
    }
  }

  lemma PartOtherPut(view: seq<Block>, q: seq<Slot>, blocks: seq<Block>, split: nat, low: bool, b: nat, d: Block)
    requires Part(view, q, blocks, split, !low) && (b < split) == low
    ensures Part(Put(view, b, d), q, blocks, split, !low)
  {
  }

  lemma AddsKeep(s: seq<Slot>, s': seq<Slot>, b: nat, blocks: seq<Block>, split: nat, low: bool)
    requires OnlyAdds(s, s', b)
    ensures Routed(s, split, low) && (b < split) == low ==> Routed(s', split, low)
    ensures WithinDevice(s, blocks) && b < |blocks| ==> WithinDevice(s', blocks)
  {
  }

  lemma ViewAt(view: seq<Block>, s: seq<Slot>, blocks: seq<Block>, split: nat, low: bool, b: nat)
    requires Part(view, s, blocks, split, low) && (b < split) == low
    ensures |view| == |blocks| && (b < |view| ==> view[b] == Seen(s, blocks, b))
  {
  }

  /** Dropping a slot of the data pool shows the device block in its place. */
  lemma ForgetShows(view: seq<Block>, s: seq<Slot>, blocks: seq<Block>, bs: nat, split: nat, i: nat)
    requires Unique(s) && Coherent(s, blocks, bs) && Routed(s, split, false) && Part(view, s, blocks, split, false)
    requires i < |s| && s[i].valid
    ensures var t, b := s[i := s[i].(valid := false, dirty := false)], s[i].blk;
            && Coherent(t, blocks, bs) && Routed(t, split, false) && b >= split
            && (WithinDevice(s, blocks) ==> WithinDevice(t, blocks))
            && forall d :: (b < |blocks| ==> d == blocks[b]) ==> Part(Put(view, b, d), t, blocks, split, false)
  {
    ForgetSeen(s, blocks, i);
  }

  /** Outside `lo` to `hi` every block of the device is as before, or holds what `view` shows of it. */
  ghost predicate Settles(view: seq<Block>, was: seq<Block>, now: seq<Block>, lo: nat, hi: nat) {
    && |view| == |was| == |now|
    && forall b :: 0 <= b < |was| && !(lo <= b < hi) ==> now[b] == was[b] || now[b] == view[b]
  }

  /** What one pool writes back is what the view shows. */
  lemma PartSettles(view: seq<Block>, s: seq<Slot>, blocks: seq<Block>, blocks': seq<Block>, split: nat, low: bool)
    requires Part(view, s, blocks, split, low) && Routed(s, split, low)
    requires WroteBack(s, blocks, blocks') && OnlyHeldWritten(s, blocks, blocks')
    ensures Settles(view, blocks, blocks', 0, 0)
  {
    forall b | 0 <= b < |blocks| ensures blocks'[b] == blocks[b] || blocks'[b] == view[b] {
      if (b < split) != low {
        assert Lookup(s, b) < 0;
      }
    }
  }

  ghost predicate AllClean(s: seq<Slot>) {
    forall i :: 0 <= i < |s| ==> !(s[i].valid && s[i].dirty)
  }

  lemma CleanShowsDevice(view: seq<Block>, s: seq<Slot>, q: seq<Slot>, blocks: seq<Block>, bs: nat, split: nat)
    requires AllClean(s) && AllClean(q) && Coherent(s, blocks, bs) && Coherent(q, blocks, bs)
    requires Part(view, s, blocks, split, true) && Part(view, q, blocks, split, false)
    ensures view == blocks
  {
    forall b | 0 <= b < |blocks| ensures view[b] == blocks[b] {
      assert (b < split) == true || (b < split) == false;
    }
  }

  ghost predicate AllFree(s: seq<Slot>) {
    forall i :: 0 <= i < |s| ==> !s[i].valid
  }

  /** Without cached blocks the view is the device, whatever the device holds. */
  lemma FreeShowsDevice(view: seq<Block>, s: seq<Slot>, q: seq<Slot>, blocks: seq<Block>, split: nat)
    requires AllFree(s) && AllFree(q)
    ensures Part(blocks, s, blocks, split, true) && Part(blocks, q, blocks, split, false)
    ensures Part(view, s, blocks, split, true) && Part(view, q, blocks, split, false) ==> view == blocks
    ensures forall bs :: Coherent(s, blocks, bs) && Coherent(q, blocks, bs)
  {
    forall b | 0 <= b < |blocks| ensures Seen(s, blocks, b) == blocks[b] && Seen(q, blocks, b) == blocks[b] {
    }
    if Part(view, s, blocks, split, true) && Part(view, q, blocks, split, false) {
      forall b | 0 <= b < |blocks| ensures view[b] == blocks[b] {
        assert (b < split) == true || (b < split) == false;
      }
    }
  }

  class BlockCache {
    const enabled: bool
    const split: nat
    const dev: Device
    const meta: Pool
    const data: Pool
    ghost var view: seq<Block>

    constructor (enabled: bool, split: nat, dev: Device, metaSlots: nat, dataSlots: nat)
      requires dev.Valid()
      ensures Valid() && view == dev.blocks && this.dev == dev && this.enabled == enabled && this.split == split
      ensures fresh(Repr() - {dev})
      ensures meta.slots.Length == metaSlots && data.slots.Length == dataSlots
      ensures Side(true) == [] && Side(false) == []
      ensures dev.Healthy() && dataSlots > 0 && (split > 0 ==> metaSlots > 0) ==> Ready()
    {
      this.enabled := enabled;
      this.split := split;
      this.dev := dev;
      meta := new Pool(metaSlots);
      data := new Pool(dataSlots);
      view := dev.blocks;
    }

    ghost function Repr(): set<object> {
      {this, dev, meta, meta.slots, data, data.slots}
    }

    function PoolOf(b: nat): Pool {
      if b < split then meta else data
    }

    ghost predicate Valid()
      reads Repr()
      ensures Valid() ==> |view| == |dev.blocks|
    {
      && meta != data && meta.slots != data.slots
      && dev.Valid() && meta.Valid() && data.Valid()
      && Coherent(meta.content, dev.blocks, dev.bs) && Coherent(data.content, dev.blocks, dev.bs)
      && Routed(meta.content, split, true) && Routed(data.content, split, false)
      && Part(view, meta.content, dev.blocks, split, true) && Part(view, data.content, dev.blocks, split, false)
      && (!enabled ==> AllFree(meta.content) && AllFree(data.content))
    }

    /** No transfer fails, every cached block exists on the device and every pool in use has a slot. */
    ghost predicate Ready()
      reads Repr()
    {
      && dev.Healthy()
      && WithinDevice(meta.content, dev.blocks) && WithinDevice(data.content, dev.blocks)
      && data.slots.Length > 0 && (split > 0 ==> meta.slots.Length > 0)
    }

    /** The blocks in the pool for `b`, most recently used first. */
    ghost function Recent(b: nat): seq<nat>
      reads Repr()
      requires Valid()
    {
      PoolOf(b).Recent()
    }

    /** The blocks in the pool below the split, or in the other one, most recently used first. */
    ghost function Side(low: bool): seq<nat>
      reads Repr()
      requires Valid()
    {
      (if low then meta else data).Recent()
    }

    lemma ViewSized()
      requires Valid()
      ensures forall b :: 0 <= b < |view| ==> |view[b]| == dev.bs
    {
      forall b | 0 <= b < |view| ensures |view[b]| == dev.bs {
        ViewAt(view, PoolOf(b).content, dev.blocks, split, b < split, b);
      }
    }

    /** Every pool has more slots than the device has blocks. */
    ghost predicate Ample()
      reads dev
    {
      meta.slots.Length > |dev.blocks| && data.slots.Length > |dev.blocks|
    }

    /** The pool for `b` has a free slot. */
    ghost predicate Roomy(b: nat)
      reads Repr()
    {
      Vacant(PoolOf(b).content)
    }

    lemma AmpleRoomy(b: nat)
      requires Valid() && Ready() && Ample()
      ensures Roomy(b)
    {
      hide Unique, OrderedBut, Ordered, Coherent, Part, Routed;
      MoreSlots(PoolOf(b).content, |dev.blocks|);
    }

    /** Without a cache the view is the device. */
    lemma BareShowsDevice()
      requires Valid() && !enabled
      ensures view == dev.blocks
    {
      FreeShowsDevice(view, meta.content, data.content, dev.blocks, split);
    }

    /** Read one block, through its pool when the cache is enabled. */
    method ReadOne(b: nat) returns (err: Errno, got: Block)
      requires Valid()
      modifies Repr()
      ensures Valid() && view == old(view) && |dev.blocks| == |old(dev.blocks)|
      ensures err == Ok ==> |got| <= dev.bs
      ensures err == Ok && b < |view| ==> got <= view[b]
      ensures err == Ok && |got| == dev.bs && b < |view| ==> got == view[b]
      ensures err == Ok && |got| < dev.bs ==> got <= dev.Stored(b)
      ensures enabled && err == Ok && |got| == dev.bs ==>
                Recent(b) == Access(old(Recent(b)), b, PoolOf(b).slots.Length)
      ensures Side(b >= split) == old(Side(b >= split))
      ensures old(Ready()) && b < |view| ==>
                && Ready() && err == Ok && |got| == dev.bs
                && Settles(view, old(dev.blocks), dev.blocks, 0, 0)
      ensures enabled && old(Roomy(b)) ==> dev.blocks == old(dev.blocks)
    {
      hide Unique, OrderedBut, Ordered, Recency, SameSeen, OnlyHeldWritten, OnlyAdds;
      if enabled {
        var pool, low := PoolOf(b), b < split;
        ghost var other := if low then data else meta;
        ghost var idx;
        err, got, idx := pool.Fetch(dev, b);
        PartKept(view, old(pool.content), old(dev.blocks), pool.content, dev.blocks, split, low);
        PartOther(view, other.content, old(pool.content), old(dev.blocks), dev.blocks, dev.bs, split, low);
        AddsKeep(old(pool.content), pool.content, b, dev.blocks, split, low);
        ViewAt(view, pool.content, dev.blocks, split, low, b);
        if old(Ready()) && b < |view| {
          PartSettles(view, old(pool.content), old(dev.blocks), dev.blocks, split, low);
        }
      } else {
        FreeShowsDevice(view, meta.content, data.content, dev.blocks, split);
        err, got := dev.ReadOne(b);
      }
    }

    /** Write one block: into its pool, dirty, or straight to the device. */
    method WriteOne(b: nat, d: Block) returns (err: Errno, written: nat)
      requires Valid() && |d| == dev.bs
      modifies Repr()
      ensures Valid() && |dev.blocks| == |old(dev.blocks)|
      ensures |view| == |old(view)| && forall c :: 0 <= c < |view| && c != b ==> view[c] == old(view)[c]
      ensures err == Ok && written == dev.bs ==> view == Put(old(view), b, d)
      ensures enabled ==> if err == Ok then written == dev.bs else view == old(view)
      ensures enabled && err == Ok ==> Recent(b) == Access(old(Recent(b)), b, PoolOf(b).slots.Length)
      ensures Side(b >= split) == old(Side(b >= split))
      ensures old(Ready()) && b < |view| ==>
                && Ready() && err == Ok && written == dev.bs
                && Settles(old(view), old(dev.blocks), dev.blocks, b, b + 1)
      ensures enabled && old(Roomy(b)) ==> dev.blocks == old(dev.blocks)
    {
      hide Unique, OrderedBut, Ordered, Recency, SameSeen, SeenPut, OnlyHeldWritten, OnlyAdds, Part;
      if enabled {
        var pool, low := PoolOf(b), b < split;
        ghost var other := if low then data else meta;
        err := pool.Store(dev, b, d);
        written := if err == Ok then dev.bs else 0;
        PartOther(view, other.content, old(pool.content), old(dev.blocks), dev.blocks, dev.bs, split, low);
        AddsKeep(old(pool.content), pool.content, b, dev.blocks, split, low);
        if old(Ready()) && b < |view| {
          PartSettles(view, old(pool.content), old(dev.blocks), dev.blocks, split, low);
        }
        if err == Ok {
          PartPut(view, old(pool.content), old(dev.blocks), pool.content, dev.blocks, split, low, b, d);
          PartOtherPut(view, other.content, dev.blocks, split, low, b, d);
          view := Put(view, b, d);
        } else {
          PartKept(view, old(pool.content), old(dev.blocks), pool.content, dev.blocks, split, low);
        }
      } else {
        FreeShowsDevice(view, meta.content, data.content, dev.blocks, split);
        err, written := dev.WriteOne(b, d);
        view := dev.blocks;
        FreeShowsDevice(view, meta.content, data.content, dev.blocks, split);
      }
    }

    /** mofs_bcache_read_blocks, or the raw reader when the cache is off: stops at the first short or failed block. */
    method ReadBlocks(start: nat, n: nat) returns (err: Errno, buf: seq<Block>, part: Block)
      requires Valid()
      modifies Repr()
      ensures Valid() && view == old(view)
      ensures |buf| <= n && forall i :: 0 <= i < |buf| && start + i < |view| ==> buf[i] == view[start + i]
      ensures err == Ok && |buf| < n ==> |part| < dev.bs && part <= dev.Stored(start + |buf|)
      ensures err == Ok && |buf| < n && start + |buf| < |view| ==> part <= view[start + |buf|]
      ensures old(Ready()) && start + n <= |view| ==>
                && Ready() && err == Ok && |buf| == n && part == []
                && Settles(view, old(dev.blocks), dev.blocks, 0, 0)
    {
      hide Part, Routed, Coherent, WithinDevice, Unique, OrderedBut, Ordered, Access;
      err, buf, part := Ok, [], [];
      var i := 0;
      while i < n
        invariant Valid() && view == old(view) && err == Ok && part == [] && |buf| == i <= n
        invariant forall j :: 0 <= j < i && start + j < |view| ==> buf[j] == view[start + j]
        invariant old(Ready()) && start + n <= |view| ==> Ready() && Settles(view, old(dev.blocks), dev.blocks, 0, 0)
      {
        var got;
        err, got := ReadOne(start + i);
        if err != Ok {
          return;
        }
        if |got| != dev.bs {
          if enabled && got == [] {
            err := EIO;
          }
          part := got;
          return;
        }
        buf := buf + [got];
        i := i + 1;
      }
    }

    /** mofs_bcache_write_blocks, or the raw writer when the cache is off. */
    method WriteBlocks(start: nat, bufs: seq<Block>) returns (err: Errno, written: nat, fraction: nat)
      requires Valid() && forall i :: 0 <= i < |bufs| ==> |bufs[i]| == dev.bs
      modifies Repr()
      ensures Valid() && |view| == |old(view)| && written <= |bufs|
      ensures forall c :: 0 <= c < |view| && !(start <= c < start + |bufs|) ==> view[c] == old(view)[c]
      ensures forall i :: 0 <= i < written && start + i < |view| ==> view[start + i] == bufs[i]
      ensures enabled ==> fraction == 0
      ensures enabled ==> forall c :: start + written <= c < |view| ==> view[c] == old(view)[c]
      ensures enabled && err == Ok ==> written == |bufs|
      ensures old(Ready()) && start + |bufs| <= |view| ==>
                && Ready() && err == Ok && written == |bufs| && fraction == 0
                && Settles(old(view), old(dev.blocks), dev.blocks, start, start + |bufs|)
    {
      hide Part, Routed, Coherent, WithinDevice, Unique, OrderedBut, Ordered, Access;
      err, written, fraction := Ok, 0, 0;
      while written < |bufs|
        invariant Valid() && |view| == |old(view)| && err == Ok && fraction == 0 && written <= |bufs|
        invariant forall c :: 0 <= c < |view| && !(start <= c < start + written) ==> view[c] == old(view)[c]
        invariant forall i :: 0 <= i < written && start + i < |view| ==> view[start + i] == bufs[i]
        invariant old(Ready()) && start + |bufs| <= |view| ==>
                    Ready() && Settles(old(view), old(dev.blocks), dev.blocks, start, start + |bufs|)
      {
        var n;
        err, n := WriteOne(start + written, bufs[written]);
        if err != Ok {
          return;
        }
        if n != dev.bs {
          fraction := n;
          return;
        }
        written := written + 1;
      }
    }

    /** Replace the cached copy of `b`, held in slot `idx` of its pool, and mark it dirty. */
    method PatchSlot(b: nat, idx: nat, d: Block)
      requires Valid() && enabled && |d| == dev.bs
      requires idx < PoolOf(b).slots.Length && Holds(PoolOf(b).content[idx], b)
      modifies Repr()
      ensures Valid() && view == Put(old(view), b, d) && dev.blocks == old(dev.blocks)
      ensures Side(true) == old(Side(true)) && Side(false) == old(Side(false))
      ensures old(Ready()) ==> Ready()
    {
      hide Unique, OrderedBut, Ordered, Recency, SeenPut, OnlyAdds, Part, OnlyHeldWritten;
      var pool, low := PoolOf(b), b < split;
      ghost var other := if low then data else meta;
      ghost var s := pool.content;
      RewriteCoherent(s, dev.blocks, dev.bs, idx, s[idx].(data := d, dirty := true));
      pool.Rewrite(idx, d);
      AddsKeep(s, pool.content, b, dev.blocks, split, low);
      PartPut(view, s, dev.blocks, pool.content, dev.blocks, split, low, b, d);
      PartOtherPut(view, other.content, dev.blocks, split, low, b, d);
      view := Put(view, b, d);
    }

    /** mofs_bcache_modify_block: patch a byte range of one block inside the cache. */
    method ModifyBlock(b: nat, off: nat, patch: Block) returns (err: Errno)
      requires Valid()
      modifies Repr()
      ensures Valid() && |view| == |old(view)|
      ensures err == Ok ==> enabled && patch != [] && off + |patch| <= dev.bs
      ensures !enabled ==> err == EINVAL
      ensures err == Ok && b < |view| ==>
        |old(view)[b]| == dev.bs && view == old(view)[b := Splice(old(view)[b], off, patch)]
      ensures err == Ok && b >= |view| ==> view == old(view)
      ensures err != Ok ==> view == old(view)
      ensures err == Ok ==> Recent(b) == Access(old(Recent(b)), b, PoolOf(b).slots.Length)
      ensures Side(b >= split) == old(Side(b >= split))
      ensures enabled && patch != [] && off + |patch| <= dev.bs && old(Ready()) && b < |view| ==> err == Ok
      ensures old(Ready()) && b < |view| ==> Ready() && Settles(old(view), old(dev.blocks), dev.blocks, 0, 0)
      ensures enabled && old(Roomy(b)) ==> dev.blocks == old(dev.blocks)
    {
      hide Unique, OrderedBut, Ordered, Recency, SameSeen, OnlyHeldWritten, OnlyAdds, Part, Splice;
      if patch == [] || !enabled || off > dev.bs || |patch| > dev.bs || off + |patch| > dev.bs {
        return EINVAL;
      }
      var pool, low := PoolOf(b), b < split;
      ghost var other := if low then data else meta;
      var got, idx;
      err, got, idx := pool.Fetch(dev, b);
      PartKept(view, old(pool.content), old(dev.blocks), pool.content, dev.blocks, split, low);
      PartOther(view, other.content, old(pool.content), old(dev.blocks), dev.blocks, dev.bs, split, low);
      AddsKeep(old(pool.content), pool.content, b, dev.blocks, split, low);
      ViewAt(view, pool.content, dev.blocks, split, low, b);
      if old(Ready()) && b < |view| {
        PartSettles(view, old(pool.content), old(dev.blocks), dev.blocks, split, low);
      }
      if err == Ok && |got| != dev.bs {
        err := EIO;
      }
      if err == Ok {
        PatchSlot(b, idx, Splice(got, off, patch));
      }
    }

    /** mofs_bcache_invalidate: drop a cached data block without writing it back. */
    method Invalidate(b: nat)
      requires Valid()
      modifies Repr()
      ensures Valid() && |view| == |old(view)| && dev.blocks == old(dev.blocks)
      ensures forall c :: 0 <= c < |view| && c != b ==> view[c] == old(view)[c]
      ensures !enabled || b < split ==> view == old(view)
      ensures enabled && b >= split && b < |view| ==> view[b] == dev.blocks[b] && |view[b]| == dev.bs
      ensures b >= split ==> Recent(b) == Without(old(Recent(b)), b)
      ensures Side(true) == old(Side(true)) && (b < split ==> Side(false) == old(Side(false)))
      ensures old(Ready()) ==> Ready()
    {
      hide Unique, OrderedBut, Ordered, Recency, Part;
      data.RecentFacts(b);
      if enabled {
        var idx := data.Find(b);
        if idx < 0 && b >= split {
          ViewAt(view, data.content, dev.blocks, split, false, b);
          SeenNone(data.content, dev.blocks, b);
        }
        if idx >= 0 {
          ForgetShows(view, data.content, dev.blocks, dev.bs, split, idx);
          PartOtherPut(view, meta.content, dev.blocks, split, false, b, dev.Stored(b));
          data.Forget(idx);
          view := Put(view, b, dev.Stored(b));
        }
      }
    }

    /** Write back every dirty slot of one pool. */
    method FlushPool(low: bool) returns (err: Errno)
      requires Valid()
      modifies Repr()
      ensures Valid() && view == old(view) && |dev.blocks| == |old(dev.blocks)|
      ensures err == Ok ==> AllClean(if low then meta.content else data.content)
      ensures AllClean(old(meta.content)) ==> AllClean(meta.content)
      ensures old(Ready()) ==> Ready() && err == Ok
    {
      hide Unique, OrderedBut, Ordered, Recency, SameSeen, OnlyHeldWritten, Part, IsVictim;
      var pool := if low then meta else data;
      ghost var other := if low then data else meta;
      err := Ok;
      var i := 0;
      while i < pool.slots.Length
        invariant Valid() && view == old(view) && |dev.blocks| == |old(dev.blocks)| && 0 <= i <= pool.slots.Length
        invariant forall j :: 0 <= j < i ==> !(pool.content[j].valid && pool.content[j].dirty)
        invariant AllClean(old(meta.content)) ==> AllClean(meta.content)
        invariant err == Ok && (old(Ready()) ==> Ready())
      {
        if pool.slots[i].valid && pool.slots[i].dirty {
          ghost var s, blocks := pool.content, dev.blocks;
          err := pool.FlushEntry(dev, i);
          PartKept(view, s, blocks, pool.content, dev.blocks, split, low);
          PartOther(view, other.content, s, blocks, dev.blocks, dev.bs, split, low);
          if err != Ok {
            return;
          }
        }
        i := i + 1;
      }
    }

    /** mofs_bcache_flush: metadata first, then data, then a device sync that returns `synced`. */
    method Flush(synced: Errno) returns (err: Errno)
      requires Valid()
      modifies Repr()
      ensures Valid() && view == old(view)
      ensures err == Ok ==> dev.blocks == view
      ensures old(Ready()) ==> Ready() && err == if enabled then synced else Ok
    {
      hide Unique, OrderedBut, Ordered, Recency, Part;
      if !enabled {
        FreeShowsDevice(view, meta.content, data.content, dev.blocks, split);
        return Ok;
      }
      err := FlushPool(true);
      if err == Ok {
        err := FlushPool(false);
      }
      if err == Ok {
        CleanShowsDevice(view, meta.content, data.content, dev.blocks, dev.bs, split);
        err := synced;
      }
    }
  }
}
