/** Mounting and unmounting: what a volume is between two sessions, and the way from a blank device to a session. */
module Mounting {
  import opened Errors
  import opened Bytes
  import opened Layout
  import opened Mapping
  import opened BlockDevice
  import opened BlockCaches
  import opened Volumes
  import opened Ownership
  import opened Accounting
  import opened FileData
  import opened FileOps
  import opened ByteFiles
  import opened FileRuns
  import opened Dirents
  import opened Namespace
  import opened TreeShape
  import opened TreeOps
  import opened Worlds
  import opened Sessions
  import opened Formatting

  /** Slots of the unified pool, and of the metadata and data pools of the split cache. */
  const SLOTS: nat := 64
  const META_SLOTS: nat := 16
  const DATA_SLOTS: nat := 48

  /** Which cache the core is built with. */
  datatype Build = Unified | Split | Uncached

  /** Whom mounting makes the owner of the root directory. */
  datatype Owner = Keep | Give(uid: nat, gid: nat)

  /** The files a device holds. */
  ghost function Stored(g: Geometry, blocks: seq<Block>, l: Ledger): Fs
    requires Image(g, blocks) && PtrsIn(l, g.dataBlkNum)
  {
    FsOf(g, Abs(g, blocks), l)
  }

  /** The blocks are those of a volume in order, one a session may start from. */
  ghost predicate Intact(g: Geometry, blocks: seq<Block>, l: Ledger, t: Nest) {
    && GeoValid(g) && Image(g, blocks) && Owned(g, Abs(g, blocks), l)
    && PtrsIn(l, g.dataBlkNum) && Shaped(g, Stored(g, blocks, l)) && Tree(NsOf(Stored(g, blocks, l)), t)
  }

  // ---------------------------------------------------------------- the owner of the root

  ghost function Given(f: Fs, owner: Owner, now: nat): Fs
    requires ROOT_INODE < |f.inodes|
  {
    if owner.Keep? then f
    else f.(inodes := f.inodes[ROOT_INODE := Stamp(f.inodes[ROOT_INODE].(uid := owner.uid, gid := owner.gid),
                                                   Times(false, false, true), now)])
  }

  ghost function Enrolled(w: World, owner: Owner): World
    requires ROOT_INODE < |w.items|
  {
    var root := w.items[ROOT_INODE];
    if owner.Keep? || root.Gone? then w
    else w.(items := w.items[ROOT_INODE := root.(attr := root.attr.(uid := owner.uid, gid := owner.gid))])
  }

  /** `f'` is `f` with a new owner of the root, and so are their worlds. */
  ghost predicate Handed(f: Fs, f': Fs, owner: Owner, now: nat) {
    && Aligned(f) && Aligned(f') && ROOT_INODE < |f.inodes| && f' == Given(f, owner, now)
    && WorldOf(f') == Enrolled(WorldOf(f), owner) && (AllClear(f) ==> AllClear(f'))
  }

  /** The new owner by field: user, group and the time of change of the root, and no other byte of any record. */
  lemma HandedBy(f: Fs, f': Fs, owner: Owner, now: nat)
    requires Handed(f, f', owner, now)
    ensures owner.Keep? ==> f' == f
    ensures owner.Give? ==>
              && f'.blocks == f.blocks && f'.ibits == f.ibits && f'.free == f.free && |f'.inodes| == |f.inodes|
              && (forall n :: 0 <= n < |f.inodes| && n != 2 ==> f'.inodes[n] == f.inodes[n])
              && f'.inodes[2].uid == owner.uid && f'.inodes[2].gid == owner.gid && f'.inodes[2].ctime == now
              && f'.inodes[2] == f.inodes[2].(uid := owner.uid, gid := owner.gid, ctime := now)
  {
    hide WorldOf, AllClear;
  }

  /** A new owner of the root is all that changes. */
  lemma GivenKeeps(g: Geometry, f: Fs, t: Nest, owner: Owner, now: nat)
    requires Shaped(g, f) && Tree(NsOf(f), t)
    ensures ROOT_INODE < |f.inodes|
    ensures var f' := Given(f, owner, now);
            Shaped(g, f') && Tree(NsOf(f'), t) && Handed(f, f', owner, now)
  {
    hide EntsOf, Bit, TreeBut, ShapedAt, BytesOf, Names, WorldOf, CeilDiv, AllClear;
    RootAlive(g, f, t);
    var f' := Given(f, owner, now);
    if owner.Give? {
      RecordNs(g, f, f', ROOT_INODE, f'.inodes[ROOT_INODE]);
      assert NsOf(f') == NsOf(f);
      SameTails(f, f');
      forall n | 0 <= n < |f.inodes| ensures ItemOf(f', n) == Enrolled(WorldOf(f), owner).items[n] {
        SameBytes(f, f', n);
        if n != ROOT_INODE {
          SameItem(f, f', n);
        }
      }
    }
  }

  lemma SameTails(f: Fs, f': Fs)
    requires |f.inodes| == |f.blocks| == |f'.inodes| && f'.blocks == f.blocks
    requires forall n :: 0 <= n < |f.inodes| ==> f'.inodes[n].size == f.inodes[n].size
    ensures AllClear(f) ==> AllClear(f')
  {
    if AllClear(f) {
      forall n | 0 <= n < |f.inodes| ensures TailClear(f', n) {
        assert TailClear(f, n);
      }
    }
  }

  // ---------------------------------------------------------------- mounting

  /** The checks of mofs_init_core: the magic number, the block size, the size of the volume. */
  function MountErr(super: Block, devSize: nat): Errno
    requires |super| >= SUPER_SIZE
  {
    var s := SuperOf(super);
    if s.magic != MAGIC then EIO
    else if !ValidBlkSize(s.geo.blkSize) then EINVAL
    else if devSize / s.geo.blkSize != s.geo.holeBlkNum then EINVAL
    else Ok
  }

  /** The cache of the build: one pool of 64 slots, or 16 for the metadata and 48 for the data, or none. */
  ghost predicate BuiltAs(v: Volume, build: Build)
    reads v
  {
    match build
    case Unified => v.io.enabled && v.io.split == 0 && v.io.data.slots.Length == 64
    case Split => v.io.enabled && v.io.split == v.geo.dataRegionStart
                  && v.io.meta.slots.Length == 16 && v.io.data.slots.Length == 48
    case Uncached => !v.io.enabled
  }

  /** mofs_init_core on a device of `devSize` bytes, with any of the cache builds. Transfers succeed, and a device that
      passes the checks is in order. */
  method Mount(d: RawDisk, devSize: nat, build: Build, owner: Owner, now: nat, ghost l: Ledger, ghost t: Nest)
    returns (err: Errno, v: Volume?)
    requires d.Valid() && d.bs >= SUPER_SIZE && |d.blocks| == devSize / d.bs > 0 && now < LIMIT64
    requires owner.Give? ==> owner.uid < LIMIT32 && owner.gid < LIMIT32
    requires MountErr(d.blocks[0], devSize) == Ok ==>
               var g := SuperOf(d.blocks[0]).geo; g.blkSize == d.bs && Intact(g, d.blocks, l, t)
    ensures err == (if U32(d.blocks[0], 0) != 0x53464F4D then EIO
                    else if !ValidBlkSize(U32(d.blocks[0], 32)) then EINVAL
                    else if devSize / U32(d.blocks[0], 32) != U32(d.blocks[0], 4) then EINVAL
                    else Ok)
    ensures err == MountErr(d.blocks[0], devSize) && (err == Ok <==> v != null)
    ensures err == Ok ==> BuiltAs(v, build)
    ensures err == Ok ==>
      fresh(v) && fresh(v.io.Repr()) && v.super == d.blocks[0] && SuperOf(v.super) == Super(MAGIC, v.geo)
    ensures err == Ok ==> Sys(v, t) && Handed(Stored(v.geo, d.blocks, l), View(v), owner, now)
  {
    hide Good, View, Stored, Intact, Handed, Shaped, TreeBut, WorldOf, AllClear, OnDisk, Backs, U32;
    v := null;
    err := MountErr(d.blocks[0], devSize);
    if err != Ok {
      return;
    }
    var g := SuperOf(d.blocks[0]).geo;
    var w := Attach(d, g, build, l, t);
    err := SetRootOwner(w, owner, now, t);
    v := w;
  }

  /** The owner of the root is brought up to date as the last step of mounting. */
  method SetRootOwner(v: Volume, owner: Owner, now: nat, ghost t: Nest) returns (err: Errno)
    requires Sys(v, t) && now < LIMIT64 && (owner.Give? ==> owner.uid < LIMIT32 && owner.gid < LIMIT32)
    modifies v, v.io.Repr()
    ensures err == Ok && Sys(v, t) && Handed(old(View(v)), View(v), owner, now)
  {
    hide Good, View, Shaped, TreeBut, WorldOf, AllClear, OnDisk, Backs;
    err := Ok;
    GivenKeeps(v.geo, View(v), t, owner, now);
    if owner.Give? {
      var rec;
      err, rec := GetInode(v, ROOT_INODE);
      err := PutInode(v, ROOT_INODE, Stamp(rec.(uid := owner.uid, gid := owner.gid), Times(false, false, true), now));
    }
  }

  /** The volume that the blocks of `d` mean, behind an empty cache. */
  method Attach(d: RawDisk, g: Geometry, build: Build, ghost l: Ledger, ghost t: Nest) returns (v: Volume)
    requires d.Valid() && g.blkSize == d.bs && |d.blocks| > 0 && Intact(g, d.blocks, l, t)
    ensures fresh(v) && fresh(v.io.Repr()) && v.geo == g && v.super == d.blocks[0] && BuiltAs(v, build)
    ensures Sys(v, t) && View(v) == Stored(g, d.blocks, l)
  {
    hide Room, Volumes.Abs, Shaped, TreeBut, BlockCache.Ready, BlockCache.Valid, Owned, FreeCount;
    var dev := new Device(d.bs, d.blocks, [], _ => Done);
    var io := new BlockCache(build != Uncached, if build == Split then g.dataRegionStart else 0, dev,
                             if build == Split then META_SLOTS else 0, if build == Split then DATA_SLOTS else SLOTS);
    v := new Volume(g, io, l);
  }

  /** mofs_fini_core: what was in the cache is on the device, which is in order and holds the files as they were. */
  method Unmount(v: Volume, ghost t: Nest) returns (err: Errno, d: RawDisk)
    requires Sys(v, t)
    modifies v.io.Repr()
    ensures err == Ok && fresh(d) && d.Valid() && d.bs == v.geo.blkSize && |d.blocks| == v.geo.holeBlkNum > 0
    ensures d.blocks[0] == v.super && Intact(v.geo, d.blocks, v.led, t)
      && Stored(v.geo, d.blocks, v.led) == old(View(v))
  {
    hide Volumes.Abs, Shaped, TreeBut, BlockCache.Ready, BlockCache.Valid, Owned, FreeCount;
    OwnedPtrsIn(v.geo, v.vol, v.led);
    err := v.Flush();
    d := new RawDisk(v.io.dev.blocks, v.geo.blkSize);
  }

  // ---------------------------------------------------------------- the fresh volume

  /** An empty root and all other blocks free. */
  ghost function FreshWorld(g: Geometry): World {
    World(seq(g.inodeNum, n => if n == ROOT_INODE then Folder(Attr(FTYPE_DIR + 493, 0, 0), 2, map[]) else Gone),
          g.dataBlkNum - 2)
  }

  lemma {:induction false} AllFree(bits: seq<bool>, n: nat)
    requires n <= |bits| && forall i :: 0 <= i < |bits| ==> !bits[i]
    ensures |Clear(bits, 0, n)| == n
  {
    if n > 0 {
      AllFree(bits, n - 1);
    }
  }

  lemma FreshFree(bits: seq<bool>)
    requires |bits| >= 2 && forall i :: 0 <= i < |bits| ==> bits[i] == (i < 2)
    ensures FreeCount(bits) == |bits| - 2
  {
    var none := seq(|bits|, _ => false);
    AllFree(none, |bits|);
    SetAllCount(none, [0, 1], true);
    assert SetAll(none, [0, 1], true) == bits;
  }

  lemma NoEntries(k: nat)
    ensures Names(seq(k, _ => NONE)) == map[]
  {
    assert Tidy(seq(k, _ => NONE));
  }

  /** What the formatter wrote is the empty world. */
  lemma FreshIsIntact(g: Geometry, blocks: seq<Block>, now: nat)
    requires GeoValid(g) && Image(g, blocks) && Fresh(g, Abs(g, blocks), now)
    ensures Intact(g, blocks, RootLedger(g), RootNest(g))
    ensures WorldOf(Stored(g, blocks, RootLedger(g))) == FreshWorld(g) && AllClear(Stored(g, blocks, RootLedger(g)))
  {
    hide Abs, Owned, Shaped, TreeBut, RootNest, AllClear, GraphNode, BytesOf, Names, FreeCount;
    var s, l := Abs(g, blocks), RootLedger(g);
    AbsSized(g, blocks);
    FreshOwned(g, s, now);
    OwnedPtrsIn(g, s, l);
    FreshTree(g, s, now);
    FreshClear(g, s, now);
    FreshFree(s.bits);
    NoEntries(PerBlock(g.blkSize));
    assert WorldOf(Stored(g, blocks, l)) == FreshWorld(g);
  }

  // ---------------------------------------------------------------- from device to session

  /** Format, mount and run. A volume smaller or larger than its device is made and then refused. On any other, through
      any cache build, every command is answered as the empty world answers it, and every invariant is intact, short of
      the two commands a session stops at. */
  method FormatAndRun(d: RawDisk, devSize: nat, fsSize: int, build: Build, owner: Owner, now: nat, u: User,
                      cmds: seq<Cmd>, nows: seq<nat>)
    returns (err: Errno, v: Volume?, out: seq<Reply>, bad: bool, ghost t: Nest)
    requires d.Valid() && now < LIMIT64 && d.bs > 0 && |d.blocks| == devSize / d.bs
    requires VolumeBytes(devSize, fsSize, d.bs) > 8 * d.bs
    requires owner.Give? ==> owner.uid < LIMIT32 && owner.gid < LIMIT32
    requires u.uid < LIMIT32 && u.gid < LIMIT32 && |nows| == |cmds|
    requires (forall i :: 0 <= i < |nows| ==> nows[i] < LIMIT64)
      && (forall i :: 0 <= i < |cmds| ==> WellFormed(cmds[i]))
    modifies d
    ensures var formatted := FormatErr(d.bs, VolumeBytes(devSize, fsSize, d.bs), devSize / d.bs);
            err == if formatted != Ok then formatted else if fsSize > 0 && fsSize != devSize / d.bs then EINVAL else Ok
    ensures err == Ok ==>
              v != null && if bad then Broken(v) && out != [] && out[|out| - 1].err == Ok
                else |out| == |cmds| && Sys(v, t)
    ensures err == Ok ==>
              && Usable(v.geo) && ROOT_INODE < v.geo.inodeNum
              && var w := Enrolled(FreshWorld(v.geo), owner);
              TameSession(v.geo, w, u, cmds) ==>
                var s := Told(v.geo, w, u, cmds);
                out == s.replies && bad == s.lost && (!bad ==> WorldOf(View(v)) == s.world && AllClear(View(v)))
    ensures err == Ok ==> |v.super| >= SUPER_SIZE && SuperOf(v.super) == Super(MAGIC, v.geo)
  {
    hide Fresh, RootNest, RootLedger, Room, Volumes.Abs, Shaped, TreeBut, Good, FormatErr, Told, TameSession, WorldOf,
      AllClear, SuperOf, FreshWorld, Enrolled, Broken, WellFormed, Intact, Stored;
    v, out, bad, t := null, [], false, Nest([], []);
    var g;
    err, g := Format(d, devSize, fsSize, now);
    if err != Ok {
      return;
    }
    WholeVolume(devSize, fsSize, d.bs);
    if g.holeBlkNum == |d.blocks| {
      assert d.blocks[..g.holeBlkNum] == d.blocks;
      FreshIsIntact(g, d.blocks, now);
    }
    var w;
    err, w := Mount(d, devSize, build, owner, now, RootLedger(g), RootNest(g));
    if err == Ok {
      v := w;
      out, bad, t := RunSession(w, u, cmds, nows, RootNest(g));
    }
  }

  lemma WholeVolume(devSize: nat, fsSize: int, bs: nat)
    requires bs > 0
    ensures VolumeBytes(devSize, fsSize, bs) / bs == devSize / bs <==> !(fsSize > 0 && fsSize != devSize / bs)
  {
    if fsSize > 0 {
      DivModUnique(fsSize * bs, bs, fsSize, 0);
    }
  }

  /** What a session wrote outlives it: a second session, on the device the first left behind and with another cache
      build, goes on as if it were the same session. */
  method RunAcrossMounts(v: Volume, u: User, cmds: seq<Cmd>, nows: seq<nat>, build: Build, now: nat, more: seq<Cmd>,
                         later: seq<nat>, ghost t: Nest)
    returns (out: seq<Reply>, bad: bool, w: Volume)
    requires Sys(v, t) && AllClear(View(v)) && |v.super| >= SUPER_SIZE && SuperOf(v.super) == Super(MAGIC, v.geo)
    requires TameSession(v.geo, WorldOf(View(v)), u, cmds + more) && now < LIMIT64
    requires u.uid < LIMIT32 && u.gid < LIMIT32 && |nows| == |cmds| && |later| == |more|
    requires (forall i :: 0 <= i < |nows| ==> nows[i] < LIMIT64)
      && (forall i :: 0 <= i < |cmds| ==> WellFormed(cmds[i]))
    requires (forall i :: 0 <= i < |later| ==> later[i] < LIMIT64)
      && (forall i :: 0 <= i < |more| ==> WellFormed(more[i]))
    modifies v, v.io.Repr()
    ensures var s := Told(v.geo, WorldOf(old(View(v))), u, cmds + more);
            out == s.replies && bad == s.lost && (!bad ==> Good(w) && WorldOf(View(w)) == s.world)
  {
    hide Good, View, Shaped, TreeBut, Told, TameSession, WorldOf, AllClear, SuperOf, Broken, WellFormed, OnDisk, Backs,
      Intact, Stored, AllSized, Held;
    ghost var t', world := t, WorldOf(View(v));
    w := v;
    assert (cmds + more)[..|cmds|] == cmds;
    TamePrefix(v.geo, world, u, cmds + more, |cmds|);
    out, bad, t' := RunSession(v, u, cmds, nows, t);
    if bad {
      LostStays(v.geo, world, u, cmds + more, |cmds|);
      return;
    }
    ToldOn(v.geo, world, u, cmds, more);
    var err, d := Unmount(v, t');
    var again, rest;
    WholeDevice(d.bs, |d.blocks|);
    err, again := Mount(d, |d.blocks| * d.bs, build, Keep, now, v.led, t');
    w := again;
    rest, bad, t' := RunSession(again, u, more, later, t');
    out := out + rest;
  }

  lemma WholeDevice(bs: nat, n: nat)
    requires bs > 0
    ensures n * bs / bs == n
  {
    DivModUnique(n * bs, bs, n, 0);
  }
}
