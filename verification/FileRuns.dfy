/** Reads, writes and truncates as steps on byte strings and a count of free blocks. */
module FileRuns {
  import opened Errors
  import opened Bytes
  import opened Layout
  import opened ListNodes
  import opened Mapping
  import opened Volumes
  import opened Ownership
  import opened Accounting
  import opened Allocator
  import opened FileBytes
  import opened FileData
  import opened FileOps
  import opened ByteFiles

  datatype File = File(bytes: Block, dir: bool)

  /** What a caller can tell: the strings and how many blocks are free. */
  datatype Disk = Disk(files: seq<File>, free: int)

  datatype Op =
    | Read(n: nat, off: int, len: nat)
    | Write(n: nat, off: int, data: Block)
    | Truncate(n: nat, size: int)

  datatype Reply = Reply(err: Errno, data: Block, count: nat)

  function BlocksOf(bs: nat, d: Disk, n: nat): nat
    requires bs > 0 && n < |d.files|
  {
    CeilDiv(|d.files[n].bytes|, bs)
  }

  /** File `n` has become `bytes`: the blocks it takes are charged to the free count. */
  function Put(g: Geometry, d: Disk, n: nat, bytes: Block): Disk
    requires g.blkSize > 0 && PtrsPerNode(g.blkSize) > 0 && n < |d.files|
  {
    var cap := PtrsPerNode(g.blkSize);
    Disk(d.files[n := d.files[n].(bytes := bytes)],
         d.free + Cost(BlocksOf(g.blkSize, d, n), cap) - Cost(CeilDiv(|bytes|, g.blkSize), cap))
  }

  /** Growing file `n` to `size` bytes is possible: the new list is built before the old one is released. */
  predicate CanGrow(g: Geometry, d: Disk, n: nat, size: nat)
    requires g.blkSize > 0 && PtrsPerNode(g.blkSize) > 0 && n < |d.files|
  {
    var k, need := BlocksOf(g.blkSize, d, n), CeilDiv(size, g.blkSize);
    need <= k || (need <= MAX_FILE_DATA_BLOCKS && need - k + NodesFor(need, PtrsPerNode(g.blkSize)) <= d.free)
  }

  predicate CanCut(g: Geometry, d: Disk, n: nat, size: nat)
    requires g.blkSize > 0 && PtrsPerNode(g.blkSize) > 0 && n < |d.files|
  {
    var k, keep := BlocksOf(g.blkSize, d, n), CeilDiv(size, g.blkSize);
    keep >= k || NodesFor(keep, PtrsPerNode(g.blkSize)) <= d.free + (k - keep)
  }

  function Failed(err: Errno): Reply {
    Reply(err, [], 0)
  }

  /** One operation on byte strings. */
  function Apply(g: Geometry, d: Disk, op: Op): (Disk, Reply)
    requires g.blkSize > 0 && PtrsPerNode(g.blkSize) > 0
  {
    var max := MaxBytes(g.blkSize);
    match op
    case Read(n, off, len) =>
      if len == 0 || off < 0 || n >= |d.files| then (d, Failed(EINVAL))
      else if d.files[n].dir then (d, Failed(EISDIR))
      else (d, Reply(Ok, ReadAt(d.files[n].bytes, Wrapped(off, g.blkSize), len), 0))
    case Write(n, off, data) =>
      if data == [] || off < 0 || n >= |d.files| then (d, Failed(EINVAL))
      else if d.files[n].dir then (d, Failed(EISDIR))
      else if off >= max then (d, Failed(EFBIG))
      else
        var len := Least(|data|, max - off);
        if !CanGrow(g, d, n, off + len) then (d, Failed(ENOSPC))
        else (Put(g, d, n, Overwritten(d.files[n].bytes, off, data[..len])), Reply(Ok, [], len))
    case Truncate(n, size) =>
      if size < 0 then (d, Failed(EINVAL))
      else if size > max then (d, Failed(EFBIG))
      else if n >= |d.files| then (d, Failed(EINVAL))
      else if d.files[n].dir then (d, Failed(EISDIR))
      else if !(if size < |d.files[n].bytes| then CanCut(g, d, n, size) else CanGrow(g, d, n, size))
        then (d, Failed(ENOSPC))
      else (Put(g, d, n, Resize(d.files[n].bytes, size)), Failed(Ok))
  }

  /** The operation leaves out no block it has to allocate before its first byte, and if it shrinks a file it finds room
      for the shorter list. */
  predicate Tame(g: Geometry, d: Disk, op: Op)
    requires g.blkSize > 0 && PtrsPerNode(g.blkSize) > 0
  {
    match op
    case Read(_, _, _) => true
    case Write(n, off, _) => Apply(g, d, op).1.err == Ok && n < |d.files| && off >= 0 ==>
      Quot(off, g.blkSize) <= BlocksOf(g.blkSize, d, n)
    case Truncate(n, size) => !(Apply(g, d, op).1.err == ENOSPC && n < |d.files| && size < |d.files[n].bytes|)
  }

  ghost predicate AllSized(g: Geometry, f: Fs) {
    forall n :: 0 <= n < g.inodeNum ==> SizeOk(g, f, n)
  }

  ghost predicate AllClear(f: Fs)
    requires |f.inodes| == |f.blocks|
  {
    forall n :: 0 <= n < |f.inodes| ==> TailClear(f, n)
  }

  ghost function DiskOf(f: Fs): (d: Disk)
    requires |f.inodes| == |f.blocks|
    ensures |d.files| == |f.inodes| && d.free == f.free
    ensures forall n :: 0 <= n < |f.inodes| ==> d.files[n] == File(BytesOf(f, n), IsDir(f.inodes[n]))
  {
    Disk(seq(|f.inodes|, n requires 0 <= n < |f.inodes| => File(BytesOf(f, n), IsDir(f.inodes[n]))), f.free)
  }

  /** The records and blocks of no inode but `n` differ. */
  ghost predicate Only(f: Fs, f': Fs, n: nat) {
    && n < |f.inodes| == |f'.inodes| == |f.blocks| == |f'.blocks|
    && f'.inodes == f.inodes[n := f'.inodes[n]] && f'.blocks == f.blocks[n := f'.blocks[n]]
    && IsDir(f'.inodes[n]) == IsDir(f.inodes[n])
  }

  /** What an operation on the contents of `n` leaves alone: every other file, the type, owner and links of `n`, and all
      of a directory but its times. */
  ghost predicate Handled(f: Fs, f': Fs, n: nat) {
    f' == f ||
    (&& Only(f, f', n) && f'.ibits == f.ibits
     && f'.inodes[n].mode == f.inodes[n].mode && f'.inodes[n].links == f.inodes[n].links
     && f'.inodes[n].uid == f.inodes[n].uid && f'.inodes[n].gid == f.inodes[n].gid
     && (IsDir(f.inodes[n]) ==> f'.blocks[n] == f.blocks[n] && f'.inodes[n].size == f.inodes[n].size))
  }

  lemma WroteHandled(g: Geometry, f: Fs, f': Fs, n: nat, off: int, data: Block, written: nat, now: nat,
                     stale: seq<Block>)
    requires FsSized(g, f) && g.blkSize > 0 && PtrsPerNode(g.blkSize) > 0 && WriteErr(g, f, n, off, |data|) == Ok
    requires written <= |data| && n < |f.inodes| && off >= 0 && Wrote(g, f, f', n, off, data[..written], now, stale)
    ensures Handled(f, f', n)
  {
    hide PatchOf, NodesFor, CeilDiv, Quot, Bit;
  }

  lemma TruncatedHandled(g: Geometry, f: Fs, f': Fs, n: nat, size: nat, now: nat, stale: seq<Block>)
    requires FsSized(g, f) && g.blkSize > 0 && PtrsPerNode(g.blkSize) > 0 && n < g.inodeNum && !IsDir(f.inodes[n])
    requires CutBack(g, f, f', n, size, now) || Lengthened(g, f, f', n, size, now, stale)
      || CutFailed(g, f, f', n, size) || f' == f
    ensures Handled(f, f', n)
  {
    hide PatchOf, NodesFor, CeilDiv, Quot, CutTo, Bit;
  }

  lemma OnlyAbs(f: Fs, f': Fs, n: nat)
    requires Only(f, f', n)
    ensures DiskOf(f').files == DiskOf(f).files[n := File(BytesOf(f', n), IsDir(f.inodes[n]))]
    ensures AllClear(f) && TailClear(f', n) ==> AllClear(f')
  {
    hide Flat;
    forall m | 0 <= m < |f.inodes| && m != n
      ensures BytesOf(f', m) == BytesOf(f, m) && (TailClear(f, m) ==> TailClear(f', m))
    {
    }
  }

  lemma OnlySized(g: Geometry, f: Fs, f': Fs, n: nat)
    requires Only(f, f', n) && AllSized(g, f) && SizeOk(g, f', n) && |f.inodes| == g.inodeNum
    ensures AllSized(g, f')
  {
    forall m | 0 <= m < g.inodeNum ensures SizeOk(g, f', m) {
      assert SizeOk(g, f, m);
    }
  }

  // ---------------------------------------------------------------- space

  /** Nothing leaks: on a volume in order the free blocks and the blocks the files take make up the data region. */
  lemma SpaceIsAll(v: Volume)
    requires Good(v)
    ensures View(v).free + Held(View(v).inodes, PtrsPerNode(v.geo.blkSize)) == v.geo.dataBlkNum
  {
    hide Owned, Volume.Valid, FreeCount, Held;
    GeoFacts(v);
    NothingLost(v.geo, v.vol, v.led);
  }

  // ---------------------------------------------------------------- steps

  /** What every operation keeps, and what a tame one does to the byte strings. */
  ghost predicate Stepped(g: Geometry, f: Fs, f': Fs, op: Op, r: Reply)
    requires g.blkSize > 0 && PtrsPerNode(g.blkSize) > 0 && |f.inodes| == |f.blocks| && |f'.inodes| == |f'.blocks|
  {
    && AllSized(g, f')
    && r.err == Apply(g, DiskOf(f), op).1.err
    && (AllClear(f) && Tame(g, DiskOf(f), op) ==> AllClear(f') && (DiskOf(f'), r) == Apply(g, DiskOf(f), op))
  }

  lemma BytesLength(g: Geometry, f: Fs, n: nat)
    requires FsSized(g, f) && n < g.inodeNum && SizeOk(g, f, n)
    ensures n < |f.inodes| == |f.blocks| && |BytesOf(f, n)| == f.inodes[n].size
      && BlocksOf(g.blkSize, DiskOf(f), n) == |f.blocks[n]|
  {
    hide Flat, CeilDiv;
    FsWhole(g, f, n);
    CeilDivBounds(f.inodes[n].size, g.blkSize);
  }

  /** An operation that changes no file. */
  lemma StillStepped(g: Geometry, f: Fs, f': Fs, op: Op, r: Reply)
    requires g.blkSize > 0 && PtrsPerNode(g.blkSize) > 0 && FsSized(g, f) && AllSized(g, f)
    requires f'.blocks == f.blocks && f'.free == f.free && |f'.inodes| == |f.inodes|
    requires forall n :: 0 <= n < |f.inodes| ==>
      f'.inodes[n].size == f.inodes[n].size && f'.inodes[n].mode == f.inodes[n].mode
    requires r.err == Apply(g, DiskOf(f), op).1.err
      && (Tame(g, DiskOf(f), op) ==> (DiskOf(f), r) == Apply(g, DiskOf(f), op))
    ensures Stepped(g, f, f', op, r)
  {
    hide Flat, NodesFor, CeilDiv, Apply, Tame;
    assert DiskOf(f').files == DiskOf(f).files;
    forall m | 0 <= m < g.inodeNum ensures SizeOk(g, f', m) {
      assert SizeOk(g, f, m);
    }
    forall m | 0 <= m < |f.inodes| ensures TailClear(f', m) == TailClear(f, m) {
    }
  }

  lemma WriteStep(g: Geometry, f: Fs, f': Fs, n: nat, off: nat, data: Block, now: nat, stale: seq<Block>, written: nat)
    requires g.blkSize > 0 && PtrsPerNode(g.blkSize) > 0 && FsSized(g, f) && FsSized(g, f') && AllSized(g, f)
      && n < g.inodeNum
    requires WriteErr(g, f, n, off, |data|) == Ok && written == Least(|data|, MaxBytes(g.blkSize) - off)
    requires Wrote(g, f, f', n, off, data[..written], now, stale) && SizeOk(g, f', n)
    ensures Stepped(g, f, f', Write(n, off, data), Reply(Ok, [], written))
  {
    hide Flat, NodesFor, CeilDiv, Quot, PatchOf, TailClear, BytesOf, AllSized, Apply, Tame, WriteErr;
    ErrorsAgree(g, f, Write(n, off, data));
    OnlySized(g, f, f', n);
    if AllClear(f) && Tame(g, DiskOf(f), Write(n, off, data)) {
      WriteTame(g, f, f', n, off, data, now, stale, written);
    }
  }

  /** A write that skips no block is the write on the string. */
  lemma WriteTame(g: Geometry, f: Fs, f': Fs, n: nat, off: nat, data: Block, now: nat, stale: seq<Block>, written: nat)
    requires g.blkSize > 0 && PtrsPerNode(g.blkSize) > 0 && FsSized(g, f) && FsSized(g, f') && AllSized(g, f)
      && n < g.inodeNum
    requires Apply(g, DiskOf(f), Write(n, off, data)).1.err == Ok && written == Least(|data|, MaxBytes(g.blkSize) - off)
    requires Wrote(g, f, f', n, off, data[..written], now, stale) && SizeOk(g, f', n)
    requires AllClear(f) && Tame(g, DiskOf(f), Write(n, off, data))
    ensures AllClear(f') && (DiskOf(f'), Reply(Ok, [], written)) == Apply(g, DiskOf(f), Write(n, off, data))
  {
    hide Flat, NodesFor, CeilDiv, Quot, PatchOf, TailClear, BytesOf, AllSized, Overwritten;
    SizedAt(g, f, n);
    BytesLength(g, f, n);
    BytesLength(g, f', n);
    OnlyAbs(f, f', n);
    NoSkip(g, f, n, off, stale);
    WroteBytes(g, f, f', n, off, data[..written], now, stale);
  }

  lemma SizedAt(g: Geometry, f: Fs, n: nat)
    requires AllSized(g, f) && n < g.inodeNum
    ensures SizeOk(g, f, n)
  {
  }

  lemma CutStep(g: Geometry, f: Fs, f': Fs, n: nat, size: nat, now: nat)
    requires g.blkSize > 0 && PtrsPerNode(g.blkSize) > 0 && FsSized(g, f) && FsSized(g, f') && AllSized(g, f)
      && n < g.inodeNum
    requires TruncErr(g, f, n, size) == Ok && size < f.inodes[n].size && CutBack(g, f, f', n, size, now)
      && SizeOk(g, f', n)
    ensures Stepped(g, f, f', Truncate(n, size), Failed(Ok))
  {
    hide Flat, NodesFor, CeilDiv, TailClear, BytesOf, AllSized, Resize, CutTo;
    SizedAt(g, f, n);
    BytesLength(g, f, n);
    BytesLength(g, f', n);
    OnlySized(g, f, f', n);
    OnlyAbs(f, f', n);
    CutLength(f.blocks[n], f'.blocks[n], g.blkSize, size);
    CutBytes(g, f, f', n, size, now);
  }

  lemma CutLength(blocks: seq<Block>, kept: seq<Block>, bs: nat, size: nat)
    requires CutTo(blocks, kept, bs, size)
    ensures |kept| == CeilDiv(size, bs)
  {
  }

  lemma LengthenStep(g: Geometry, f: Fs, f': Fs, n: nat, size: nat, now: nat, stale: seq<Block>)
    requires g.blkSize > 0 && PtrsPerNode(g.blkSize) > 0 && FsSized(g, f) && FsSized(g, f') && AllSized(g, f)
      && n < g.inodeNum
    requires TruncErr(g, f, n, size) == Ok && size > f.inodes[n].size && Lengthened(g, f, f', n, size, now, stale)
      && SizeOk(g, f', n)
    ensures Stepped(g, f, f', Truncate(n, size), Failed(Ok))
  {
    hide Flat, NodesFor, CeilDiv, Quot, PatchOf, TailClear, BytesOf, AllSized, Resize;
    SizedAt(g, f, n);
    BytesLength(g, f, n);
    BytesLength(g, f', n);
    OnlySized(g, f, f', n);
    OnlyAbs(f, f', n);
    LengthenedBytes(g, f, f', n, size, now, stale);
  }

  /** A shrink without room: the file keeps its size and its blocks. */
  lemma CutFailedStep(g: Geometry, f: Fs, f': Fs, n: nat, size: nat)
    requires g.blkSize > 0 && PtrsPerNode(g.blkSize) > 0 && FsSized(g, f) && AllSized(g, f) && n < g.inodeNum
      && |f'.inodes| == |f'.blocks|
    requires TruncErr(g, f, n, size) == ENOSPC && size < f.inodes[n].size && CutFailed(g, f, f', n, size)
      && SizeOk(g, f', n)
    ensures Stepped(g, f, f', Truncate(n, size), Failed(ENOSPC))
  {
    hide Flat, NodesFor, CeilDiv, TailClear, BytesOf, AllSized, Resize, CutTo;
    SizedAt(g, f, n);
    BytesLength(g, f, n);
    OnlySized(g, f, f', n);
  }

  /** The errors of the three operations, told from the strings and the free count. */
  lemma ErrorsAgree(g: Geometry, f: Fs, op: Op)
    requires g.blkSize > 0 && PtrsPerNode(g.blkSize) > 0 && FsSized(g, f) && AllSized(g, f)
    ensures op.Write? ==> Apply(g, DiskOf(f), op).1.err == WriteErr(g, f, op.n, op.off, |op.data|)
    ensures op.Truncate? ==> Apply(g, DiskOf(f), op).1.err == TruncErr(g, f, op.n, op.size)
  {
    hide Flat, NodesFor, CeilDiv, BytesOf, AllSized, Resize, Overwritten;
    if op.n < g.inodeNum {
      SizedAt(g, f, op.n);
      BytesLength(g, f, op.n);
    }
  }

  // ---------------------------------------------------------------- runs

  method DoRead(v: Volume, n: nat, off: int, len: nat, now: nat) returns (r: Reply)
    requires Good(v) && now < LIMIT64 && AllSized(v.geo, View(v))
    modifies v, v.io.Repr()
    ensures Good(v) && Stepped(v.geo, old(View(v)), View(v), Read(n, off, len), r) && Handled(old(View(v)), View(v), n)
  {
    hide Good, View, Flat, CeilDiv, Quot, NodesFor, AllClear, ReadAt, Stepped, BytesOf, OnDisk, Backs;
    ghost var f := View(v);
    var err, data := Pread(v, n, off, len, now);
    r := Reply(err, data, 0);
    StillStepped(v.geo, f, View(v), Read(n, off, len), r);
  }

  method DoWrite(v: Volume, n: nat, off: int, data: Block, now: nat) returns (r: Reply)
    requires Good(v) && now < LIMIT64 && AllSized(v.geo, View(v))
    modifies v, v.io.Repr()
    ensures Good(v) && Stepped(v.geo, old(View(v)), View(v), Write(n, off, data), r)
      && Handled(old(View(v)), View(v), n)
  {
    hide Good, View, Flat, CeilDiv, Quot, NodesFor, AllClear, Stepped, BytesOf, Wrote, WriteErr, Stale, FsSized, OnDisk,
      Backs;
    ghost var f := View(v);
    ghost var stale;
    var err, written;
    err, written, stale := Pwrite(v, n, off, data, now);
    r := Reply(err, [], written);
    ErrorsAgree(v.geo, f, Write(n, off, data));
    if err == Ok {
      WriteOkArgs(v.geo, f, n, off, data);
      WriteStep(v.geo, f, View(v), n, off, data, now, stale, written);
      WroteHandled(v.geo, f, View(v), n, off, data, written, now, stale);
    } else {
      FailedUnchanged(v.geo, f, Write(n, off, data));
      StillStepped(v.geo, f, View(v), Write(n, off, data), r);
    }
  }

  lemma WriteOkArgs(g: Geometry, f: Fs, n: nat, off: int, data: Block)
    requires g.blkSize > 0 && PtrsPerNode(g.blkSize) > 0 && FsSized(g, f) && WriteErr(g, f, n, off, |data|) == Ok
    ensures n < g.inodeNum && off >= 0
  {
  }

  lemma TruncOkArgs(g: Geometry, f: Fs, n: nat, size: int)
    requires g.blkSize > 0 && PtrsPerNode(g.blkSize) > 0 && FsSized(g, f)
    requires TruncErr(g, f, n, size) == Ok || TruncErr(g, f, n, size) == ENOSPC
    ensures n < g.inodeNum == |f.inodes| && size >= 0 && !IsDir(f.inodes[n])
  {
  }

  /** An operation that fails leaves the strings alone. */
  lemma FailedUnchanged(g: Geometry, f: Fs, op: Op)
    requires g.blkSize > 0 && PtrsPerNode(g.blkSize) > 0 && FsSized(g, f) && Apply(g, DiskOf(f), op).1.err != Ok
    ensures Apply(g, DiskOf(f), op) == (DiskOf(f), Failed(Apply(g, DiskOf(f), op).1.err))
  {
    hide NodesFor, CeilDiv, DiskOf, Overwritten, Resize, ReadAt, Quot, Rem;
  }

  lemma SameSize(g: Geometry, f: Fs, n: nat)
    requires g.blkSize > 0 && PtrsPerNode(g.blkSize) > 0 && FsSized(g, f) && AllSized(g, f)
    requires n < g.inodeNum && n < |f.inodes| && TruncErr(g, f, n, f.inodes[n].size) == Ok
    ensures Apply(g, DiskOf(f), Truncate(n, f.inodes[n].size)) == (DiskOf(f), Failed(Ok))
  {
    hide Flat, NodesFor, CeilDiv, AllSized, BytesOf;
    ErrorsAgree(g, f, Truncate(n, f.inodes[n].size));
    SizedAt(g, f, n);
    BytesLength(g, f, n);
    var b := BytesOf(f, n);
    assert b[..|b|] == b;
    assert DiskOf(f).files[n].(bytes := b) == DiskOf(f).files[n];
    assert DiskOf(f).files[n := DiskOf(f).files[n]] == DiskOf(f).files;
  }

  method DoTruncate(v: Volume, n: nat, size: int, now: nat) returns (r: Reply)
    requires Good(v) && now < LIMIT64 && AllSized(v.geo, View(v))
    modifies v, v.io.Repr()
    ensures Good(v) && Stepped(v.geo, old(View(v)), View(v), Truncate(n, size), r) && Handled(old(View(v)), View(v), n)
  {
    hide Good, View, Flat, CeilDiv, Quot, NodesFor, AllClear, Stepped, BytesOf, TruncErr, FsSized, CutBack, CutFailed,
      Lengthened, Apply, Tame, OnDisk, Backs;
    ghost var f := View(v);
    ghost var stale;
    var err;
    err, stale := FileOps.Truncate(v, n, size, now);
    r := Failed(err);
    ErrorsAgree(v.geo, f, Truncate(n, size));
    if err == Ok || err == ENOSPC {
      TruncOkArgs(v.geo, f, n, size);
      TruncatedHandled(v.geo, f, View(v), n, size, now, stale);
    }
    if err == Ok {
      if size < f.inodes[n].size {
        CutStep(v.geo, f, View(v), n, size, now);
      } else if size > f.inodes[n].size {
        LengthenStep(v.geo, f, View(v), n, size, now, stale);
      } else {
        SameSize(v.geo, f, n);
        StillStepped(v.geo, f, View(v), Truncate(n, size), r);
      }
    } else if err == ENOSPC && size < f.inodes[n].size {
      CutFailedStep(v.geo, f, View(v), n, size);
    } else {
      FailedUnchanged(v.geo, f, Truncate(n, size));
      StillStepped(v.geo, f, View(v), Truncate(n, size), r);
    }
  }

  method Do(v: Volume, op: Op, now: nat) returns (r: Reply)
    requires Good(v) && now < LIMIT64 && AllSized(v.geo, View(v))
    modifies v, v.io.Repr()
    ensures Good(v) && Stepped(v.geo, old(View(v)), View(v), op, r) && Handled(old(View(v)), View(v), op.n)
  {
    hide Good, View, Stepped, OnDisk, Backs, Handled;
    match op {
      case Read(n, off, len) => r := DoRead(v, n, off, len, now);
      case Write(n, off, data) => r := DoWrite(v, n, off, data, now);
      case Truncate(n, size) => r := DoTruncate(v, n, size, now);
    }
  }

  // ---------------------------------------------------------------- two calls

  /** mofs_write_core, then mofs_read_core: what was written is read back, also behind a gap. */
  method WriteThenRead(v: Volume, n: nat, off: int, data: Block, now: nat)
    returns (err: Errno, written: nat, got: Block)
    requires Good(v) && now < LIMIT64 && AllSized(v.geo, View(v))
    modifies v, v.io.Repr()
    ensures Good(v) && err == WriteErr(v.geo, old(View(v)), n, off, |data|)
    ensures err == Ok ==> 0 < written == Least(|data|, MaxBytes(v.geo.blkSize) - off) && got == data[..written]
  {
    hide Good, View, FsSized, Flat, NodesFor, CeilDiv, Quot, PatchOf, TailClear, BytesOf, AllSized, WriteErr, Wrote,
      OnDisk, Backs, ReadAt, Wrapped;
    got := [];
    ghost var f, stale := View(v), [];
    if n < v.geo.inodeNum {
      SizedAt(v.geo, f, n);
    }
    err, written, stale := Pwrite(v, n, off, data, now);
    if err == Ok {
      WriteOkArgs(v.geo, f, n, off, data);
      WroteFile(v.geo, f, View(v), n, off, data, written, now, stale);
      WroteShows(v.geo, f, View(v), n, off, data[..written], now, stale);
      WrapExact(off, v.geo.blkSize);
      var ignored;
      ignored, got := Pread(v, n, off, written, now);
    }
  }

  lemma WroteFile(g: Geometry, f: Fs, f': Fs, n: nat, off: int, data: Block, written: nat, now: nat, stale: seq<Block>)
    requires FsSized(g, f) && ValidBlkSize(g.blkSize) && PtrsPerNode(g.blkSize) > 0
      && WriteErr(g, f, n, off, |data|) == Ok
    requires n < |f.inodes| && 0 <= off && written == Least(|data|, MaxBytes(g.blkSize) - off)
    requires Wrote(g, f, f', n, off, data[..written], now, stale)
    ensures 0 < written && off < LIMIT32 && n < |f'.inodes| && !IsDir(f'.inodes[n])
  {
    hide NodesFor, CeilDiv, Quot, PatchOf, Bit;
  }

  /** Two calls of mofs_truncate_core, the second to no less than the first: zeros follow what the first kept. */
  method CutThenLengthen(v: Volume, n: nat, m: nat, size: nat, now: nat) returns (a: Reply, b: Reply)
    requires Good(v) && now < LIMIT64 && AllSized(v.geo, View(v)) && AllClear(View(v)) && m <= size
    modifies v, v.io.Repr()
    ensures Good(v)
    ensures a.err == Ok && b.err == Ok ==>
              && n < v.geo.inodeNum
              && var c := BytesOf(old(View(v)), n);
              BytesOf(View(v), n) == (if m <= |c| then c[..m] + Zeros(size - m) else c + Zeros(size - |c|))
  {
    hide Good, View, FsSized, Flat, NodesFor, CeilDiv, Quot, TailClear, AllSized, AllClear, Handled, Resize, OnDisk,
      Backs, BytesOf;
    ghost var f := View(v);
    a := Do(v, Truncate(n, m), now);
    ghost var f1 := View(v);
    b := Do(v, Truncate(n, size), now);
    if a.err == Ok && b.err == Ok {
      RewriteLaws(BytesOf(f, n), 0, [], [], m, size);
    }
  }
}
