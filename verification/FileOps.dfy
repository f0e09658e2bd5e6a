/** Positional read, positional write and truncate: the byte-string operations on regular files. */
module FileOps {
  import opened Errors
  import opened Bytes
  import opened Layout
  import opened ListNodes
  import opened Mapping
  import opened Volumes
  import opened Ownership
  import opened Allocator
  import opened FileBytes
  import opened FileData

  predicate IsDir(rec: Inode) {
    Bit(rec.mode, 14)
  }

  /** Only the blocks of inode `n` differ. */
  ghost predicate OnlyBlocks(f: Fs, f': Fs, n: nat) {
    && n < |f.blocks| == |f'.blocks| && |f'.blocks[n]| == |f.blocks[n]|
    && f' == f.(blocks := f.blocks[n := f'.blocks[n]])
  }

  lemma FsWhole(g: Geometry, f: Fs, n: nat)
    requires FsSized(g, f) && n < g.inodeNum
    ensures n < |f.blocks| == |f.inodes| == |f.ibits|
    ensures Whole(f.blocks[n], g.blkSize) && |Flat(f.blocks[n])| == |f.blocks[n]| * g.blkSize
    ensures f.inodes[n].nr == |f.blocks[n]| <= MAX_FILE_DATA_BLOCKS && Fits(f.inodes[n])
  {
    FlatLength(f.blocks[n], g.blkSize);
  }

  /** `buf` holds `req` blocks from block `start` on; those not below `current` as zeros. */
  ghost predicate Loaded(blocks: seq<Block>, bs: nat, start: nat, req: nat, current: nat, buf: Block) {
    && 0 <= start * bs && 0 <= req * bs && 0 <= current * bs <= |Flat(blocks)|
    && buf == Window(Flat(blocks), current * bs, start * bs, req * bs)
  }

  lemma LoadStart(blocks: seq<Block>, bs: nat, start: nat, current: nat)
    requires Whole(blocks, bs) && current <= |blocks|
    ensures Loaded(blocks, bs, start, 0, current, [])
  {
    hide Flat, Whole;
    FlatLength(blocks, bs);
    MulMono(current, |blocks|, bs);
    MulMono(0, current, bs);
    MulMono(0, start, bs);
  }

  lemma OneWindow(blocks: seq<Block>, bs: nat, k: nat, current: nat, p: nat, end: nat)
    requires Whole(blocks, bs) && current <= |blocks| && p == k * bs && end == current * bs <= |Flat(blocks)|
    ensures Window(Flat(blocks), end, p, bs) == if k < current then blocks[k] else Zeros(bs)
  {
    hide Flat, Window, Splice;
    if k < current {
      FlatUpdate(blocks, bs, k, blocks[k]);
      MulMono(k, current, bs);
    } else {
      MulMono(current, k, bs);
    }
    WindowZero(Flat(blocks), end, p, bs);
  }

  lemma LoadNext(blocks: seq<Block>, bs: nat, start: nat, i: nat, current: nat, buf: Block, d: Block)
    requires Whole(blocks, bs) && current <= |blocks| && Loaded(blocks, bs, start, i, current, buf)
    requires d == if start + i < current then blocks[start + i] else Zeros(bs)
    ensures Loaded(blocks, bs, start, i + 1, current, buf + d)
  {
    hide Flat, Whole, Window, Zeros;
    MulAdd(start, i, bs);
    MulAdd(i, 1, bs);
    OneWindow(blocks, bs, start + i, current, start * bs + i * bs, current * bs);
    WindowGrow(Flat(blocks), current * bs, start * bs, i * bs, bs);
  }

  /** The preload loop: blocks below `current` are read, the others stay zero. */
  method Preload(v: Volume, n: nat, start: nat, req: nat, current: nat) returns (err: Errno, buf: Block)
    requires Good(v) && n < v.geo.inodeNum && current <= |View(v).blocks[n]|
    modifies v.io.Repr()
    ensures Good(v) && View(v) == old(View(v)) && err == Ok
    ensures Loaded(View(v).blocks[n], v.geo.blkSize, start, req, current, buf)
  {
    hide Good, View, FsSized, Whole, Loaded, OnDisk, Backs;
    ghost var f := View(v);
    FsWhole(v.geo, f, n);
    err, buf := Ok, [];
    LoadStart(f.blocks[n], v.geo.blkSize, start, current);
    var i := 0;
    while i < req
      invariant Good(v) && View(v) == f && err == Ok && i <= req
      invariant Loaded(f.blocks[n], v.geo.blkSize, start, i, current, buf)
    {
      var d := Zeros(v.geo.blkSize);
      if start + i < current {
        err, d := ReadBlk(v, n, start + i);
      }
      LoadNext(f.blocks[n], v.geo.blkSize, start, i, current, buf, d);
      buf := buf + d;
      i := i + 1;
    }
  }

  /** The first `count` blocks of `buf` went to the blocks from `start` on. */
  ghost predicate Stored(blocks: seq<Block>, blocks': seq<Block>, bs: nat, start: nat, count: nat, buf: Block) {
    && |blocks'| == |blocks| && 0 <= start * bs && 0 <= count * bs <= |buf| && start * bs + count * bs <= |Flat(blocks)|
    && Flat(blocks') == Splice(Flat(blocks), start * bs, buf[..count * bs])
  }

  lemma StoreStart(blocks: seq<Block>, bs: nat, start: nat, buf: Block)
    requires Whole(blocks, bs) && start <= |blocks|
    ensures Stored(blocks, blocks, bs, start, 0, buf)
  {
    hide Flat, Whole;
    FlatLength(blocks, bs);
    MulMono(0, start, bs);
    MulMono(start, |blocks|, bs);
    assert buf[..0 * bs] == [];
  }

  lemma StoreNext(blocks: seq<Block>, blocks': seq<Block>, bs: nat, start: nat, i: nat, buf: Block)
    requires Whole(blocks, bs) && Whole(blocks', bs) && Stored(blocks, blocks', bs, start, i, buf)
    requires start + i < |blocks| && (i + 1) * bs <= |buf|
    ensures (i + 1) * bs == i * bs + bs && |buf[i * bs..(i + 1) * bs]| == bs
    ensures Stored(blocks, blocks'[start + i := buf[i * bs..(i + 1) * bs]], bs, start, i + 1, buf)
  {
    hide Flat, Whole, Splice;
    MulAdd(start, i, bs);
    MulAdd(i, 1, bs);
    var d := buf[i * bs..(i + 1) * bs];
    FlatUpdate(blocks', bs, start + i, d);
    FlatUpdate(blocks, bs, start + i, d);
    SpliceGrow(Flat(blocks), start * bs, buf[..i * bs], d);
    assert buf[..i * bs] + d == buf[..(i + 1) * bs];
  }

  /** write_file_data_block. */
  method WriteFileBlocks(v: Volume, n: nat, buf: Block, start: nat, req: nat) returns (err: Errno, written: nat)
    requires Good(v) && n < v.geo.inodeNum && |buf| == req * v.geo.blkSize
    modifies v, v.io.Repr()
    ensures Good(v) && MapsAre(v, old(v.vol).bits, old(v.led))
    ensures req == 0 ==> err == Ok && written == 0 && View(v) == old(View(v))
    ensures req > 0 && start >= |old(View(v)).blocks[n]| ==> err == EINVAL && View(v) == old(View(v))
    ensures req > 0 && start < |old(View(v)).blocks[n]| ==>
              && err == Ok && written == Least(req, |old(View(v)).blocks[n]| - start)
              && OnlyBlocks(old(View(v)), View(v), n)
              && Stored(old(View(v)).blocks[n], View(v).blocks[n], v.geo.blkSize, start, written, buf)
  {
    hide Good, View, FsSized, Whole, Stored, OnDisk, Backs;
    written := 0;
    if req == 0 {
      return Ok, 0;
    }
    var rec;
    err, rec := GetInode(v, n);
    ghost var f := View(v);
    var bs := v.geo.blkSize;
    FsWhole(v.geo, f, n);
    if start >= rec.nr {
      return EINVAL, 0;
    }
    var count := Least(req, rec.nr - start);
    StoreStart(f.blocks[n], bs, start, buf);
    while written < count
      invariant Good(v) && err == Ok && written <= count && OnlyBlocks(f, View(v), n)
      invariant MapsAre(v, old(v.vol).bits, old(v.led))
      invariant Stored(f.blocks[n], View(v).blocks[n], bs, start, written, buf)
    {
      FsWhole(v.geo, View(v), n);
      MulMono(written + 1, req, bs);
      StoreNext(f.blocks[n], View(v).blocks[n], bs, start, written, buf);
      err := WriteBlk(v, n, start + written, buf[written * bs..(written + 1) * bs]);
      written := written + 1;
    }
  }

  /** `data` went to byte `off` of the file through the blocks [start, start + req). */
  ghost predicate PatchOf(blocks: seq<Block>, blocks': seq<Block>, bs: nat, size: nat, start: nat, req: nat, off: nat,
                          data: Block) {
    && bs > 0 && |blocks'| == |blocks| && 0 <= start * bs <= off && off + |data| <= (start + req) * bs <= |Flat(blocks)|
    && 0 <= CeilDiv(size, bs) * bs <= |Flat(blocks)|
    && Flat(blocks') == Patched(Flat(blocks), size, CeilDiv(size, bs) * bs, start * bs, (start + req) * bs, off, data)
  }

  lemma PatchDone(blocks: seq<Block>, blocks': seq<Block>, bs: nat, size: nat, start: nat, req: nat, off: nat,
                  data: Block, buf: Block)
    requires bs > 0 && Loaded(blocks, bs, start, req, CeilDiv(size, bs), buf) && start * bs <= off
      && off + |data| <= (start + req) * bs
    requires |buf| == (start + req) * bs - start * bs
    requires Stored(blocks, blocks', bs, start, req,
      Splice(ZeroGap(buf, size, start * bs, off), off - start * bs, data))
    ensures PatchOf(blocks, blocks', bs, size, start, req, off, data)
  {
    hide Flat, Window, Patched, Splice, ZeroGap, CeilDiv;
    CeilDivBounds(size, bs);
    MulAdd(start, req, bs);
    PatchedSteps(Flat(blocks), size, CeilDiv(size, bs) * bs, start * bs, (start + req) * bs, off, data);
  }

  /** Read-modify-write of the blocks [start, start + req): the tail of mofs_write_core, and zero_file_byte_range. */
  method Patch(v: Volume, n: nat, size: nat, start: nat, req: nat, off: nat, data: Block)
    returns (err: Errno, written: nat)
    requires Good(v) && n < v.geo.inodeNum && req > 0 && start + req <= |View(v).blocks[n]|
    requires CeilDiv(size, v.geo.blkSize) <= |View(v).blocks[n]|
    requires start * v.geo.blkSize <= off && off + |data| <= (start + req) * v.geo.blkSize
    modifies v, v.io.Repr()
    ensures Good(v) && err == Ok && written == req
    ensures OnlyBlocks(old(View(v)), View(v), n)
    ensures PatchOf(old(View(v)).blocks[n], View(v).blocks[n], v.geo.blkSize, size, start, req, off, data)
  {
    hide Good, View, FsSized, Whole, Loaded, Stored, PatchOf, Splice, ZeroGap, CeilDiv, OnDisk, Backs;
    var bs := v.geo.blkSize;
    var lo := start * bs;
    MulMono(0, start, bs);
    MulAdd(start, req, bs);
    FsWhole(v.geo, View(v), n);
    ghost var blocks := View(v).blocks[n];
    var buf;
    err, buf := Preload(v, n, start, req, CeilDiv(size, bs));
    LoadedLength(blocks, bs, start, req, CeilDiv(size, bs), buf);
    var full := Splice(ZeroGap(buf, size, lo, off), off - lo, data);
    err, written := WriteFileBlocks(v, n, full, start, req);
    PatchDone(blocks, View(v).blocks[n], bs, size, start, req, off, data, buf);
  }

  lemma LoadedLength(blocks: seq<Block>, bs: nat, start: nat, req: nat, current: nat, buf: Block)
    requires Loaded(blocks, bs, start, req, current, buf)
    ensures |buf| == req * bs
  {
  }

  // ---------------------------------------------------------------- write

  /** mofs_max_file_bytes. */
  function MaxBytes(bs: nat): nat {
    MAX_FILE_DATA_BLOCKS * bs
  }

  function Most(a: nat, b: nat): nat {
    if a >= b then a else b
  }

  /** A file maps exactly the blocks its size calls for. */
  ghost predicate SizeOk(g: Geometry, f: Fs, n: nat) {
    g.blkSize > 0 && n < |f.inodes| == |f.blocks| && |f.blocks[n]| == CeilDiv(f.inodes[n].size, g.blkSize)
  }

  lemma WriteSpan(off: nat, len: nat, bs: nat)
    requires bs > 0 && len > 0 && off + len <= MaxBytes(bs)
    ensures var start, end := Quot(off, bs), CeilDiv(off + len, bs);
            && start < end == start + CeilDiv(Rem(off, bs) + len, bs) <= MAX_FILE_DATA_BLOCKS
            && start * bs <= off && off + len <= end * bs
  {
    var start, pos := Quot(off, bs), Rem(off, bs);
    QuotRem(off, bs);
    CeilDivBounds(pos + len, bs);
    var req := CeilDiv(pos + len, bs);
    MulAdd(start, req, bs);
    MulAdd(start, req - 1, bs);
    CeilDivUnique(off + len, bs, start + req);
    if start + req > MAX_FILE_DATA_BLOCKS {
      MulMono(MAX_FILE_DATA_BLOCKS, start + req - 1, bs);
    }
  }

  /** Blocks a write of bytes [.., end) adds to a file of `k` blocks. */
  function Extra(end: nat, k: nat, bs: nat): nat
    requires bs > 0
  {
    if CeilDiv(end, bs) > k then CeilDiv(end, bs) - k else 0
  }

  /** A whole successful write of `data` at `off`. */
  ghost predicate Wrote(g: Geometry, f: Fs, f': Fs, n: nat, off: nat, data: Block, now: nat, stale: seq<Block>)
    requires g.blkSize > 0 && PtrsPerNode(g.blkSize) > 0 && n < |f.inodes| == |f.blocks|
  {
    var bs, cap, k, end := g.blkSize, PtrsPerNode(g.blkSize), |f.blocks[n]|, off + |data|;
    && |f'.inodes| == |f.inodes| && |f'.blocks| == |f.blocks| && f'.ibits == f.ibits
    && |stale| == Extra(end, k, bs) && CeilDiv(end, bs) > Quot(off, bs)
    && f'.inodes == f.inodes[n := Stamp(f.inodes[n].(size := Most(f.inodes[n].size, end), head := f'.inodes[n].head,
                                                     nr := k + |stale|), Times(false, true, true), now)]
    && f'.blocks == f.blocks[n := f'.blocks[n]]
    && PatchOf(f.blocks[n] + stale, f'.blocks[n], bs, f.inodes[n].size, Quot(off, bs), CeilDiv(end, bs) - Quot(off, bs),
      off, data)
    && f'.free + |stale| + NodesFor(k + |stale|, cap) == f.free + NodesFor(k, cap)
  }

  /** Grow the mapping of inode `n` by `c` blocks, if `c` is not zero. */
  method Grow(v: Volume, n: nat, c: nat) returns (err: Errno, ghost stale: seq<Block>)
    requires Good(v) && n < v.geo.inodeNum && c + MAX_FILE_DATA_BLOCKS < LIMIT32
    modifies v, v.io.Repr()
    ensures Good(v)
    ensures err == if c == 0 || HasRoom(v.geo, old(View(v)), n, c) then Ok else ENOSPC
    ensures err != Ok ==> View(v) == old(View(v)) && MapsAre(v, old(v.vol).bits, old(v.led))
    ensures err == Ok ==> |stale| == c && Extended(v.geo, old(View(v)), View(v), n, stale)
    ensures err == Ok ==>
      c <= FreeCount(old(v.vol).bits) && |old(v.vol).bits| == |old(v.vol).data| && stale == Stale(old(v.vol), c)
  {
    hide Good, View, FreeCount, Extended, HasRoom, OnDisk, Backs;
    ghost var f := View(v);
    err, stale := Ok, [];
    if c > 0 {
      err, stale := Extend(v, n, c);
    } else {
      NoStale(v);
      ExtendedBy0(v.geo, f, n);
    }
  }

  lemma NoStale(v: Volume)
    requires Good(v)
    ensures 0 <= FreeCount(v.vol.bits) && |v.vol.bits| == |v.vol.data| && Stale(v.vol, 0) == []
  {
    hide Owned;
    GeoFacts(v);
  }

  lemma ExtendedBy0(g: Geometry, f: Fs, n: nat)
    requires FsSized(g, f) && n < |f.inodes| && PtrsPerNode(g.blkSize) > 0
    ensures Extended(g, f, f, n, [])
  {
    assert f.blocks[n] + [] == f.blocks[n];
  }

  /** What a write of `len` bytes at `off` returns. */
  ghost function WriteErr(g: Geometry, f: Fs, n: nat, off: int, len: nat): Errno
    requires FsSized(g, f) && g.blkSize > 0 && PtrsPerNode(g.blkSize) > 0
  {
    if len == 0 || off < 0 || n >= g.inodeNum then EINVAL
    else if IsDir(f.inodes[n]) then EISDIR
    else if off >= MaxBytes(g.blkSize) then EFBIG
    else
      var c := Extra(off + Least(len, MaxBytes(g.blkSize) - off), |f.blocks[n]|, g.blkSize);
      if c == 0 || HasRoom(g, f, n, c) then Ok else ENOSPC
  }

  lemma ExtraBound(end: nat, k: nat, bs: nat)
    requires bs > 0 && end <= MaxBytes(bs)
    ensures Extra(end, k, bs) <= MAX_FILE_DATA_BLOCKS
  {
    CeilDivMono(end, MaxBytes(bs), bs);
    CeilDivUnique(MaxBytes(bs), bs, MAX_FILE_DATA_BLOCKS);
  }

  /** mofs_write_core once the request is known to be in range. */
  method WriteAt(v: Volume, n: nat, rec0: Inode, off: nat, data: Block, now: nat)
    returns (err: Errno, ghost stale: seq<Block>)
    requires Good(v) && now < LIMIT64 && n < v.geo.inodeNum && SizeOk(v.geo, View(v), n) && rec0 == View(v).inodes[n]
    requires |data| > 0 && off + |data| <= MaxBytes(v.geo.blkSize)
    modifies v, v.io.Repr()
    ensures Good(v)
    ensures var c := Extra(off + |data|, |old(View(v)).blocks[n]|, v.geo.blkSize);
            && err == (if c == 0 || HasRoom(v.geo, old(View(v)), n, c) then Ok else ENOSPC)
    ensures err != Ok ==> View(v) == old(View(v)) && MapsAre(v, old(v.vol).bits, old(v.led))
    ensures err == Ok ==> Wrote(v.geo, old(View(v)), View(v), n, off, data, now, stale) && SizeOk(v.geo, View(v), n)
    ensures err == Ok ==> |stale| <= FreeCount(old(v.vol).bits) && |old(v.vol).bits| == |old(v.vol).data|
                          && stale == Stale(old(v.vol), |stale|)
  {
    hide Good, View, FreeCount, Extended, HasRoom, Wrote, PatchOf, FsSized, CeilDiv, Quot, Rem, OnlyBlocks, Fits,
      OnDisk, Backs;
    ghost var f0 := View(v);
    FsWhole(v.geo, f0, n);
    var bs := v.geo.blkSize;
    var start, req := Quot(off, bs), CeilDiv(Rem(off, bs) + |data|, bs);
    WriteSpan(off, |data|, bs);
    var current := CeilDiv(rec0.size, bs);
    var c := if start + req > current then start + req - current else 0;
    err, stale := Grow(v, n, c);
    if err != Ok {
      return;
    }
    ghost var f1 := View(v);
    GrownFile(v.geo, f0, f1, n, stale);
    var rec;
    err, rec := GetInode(v, n);
    ghost var wrote;
    err, wrote := Patch(v, n, rec.size, start, req, off, data);
    ghost var f2 := View(v);
    PatchedFile(f1, f2, n);
    FsWhole(v.geo, f2, n);
    StampFits(v.geo, rec, Most(rec.size, off + |data|), now);
    err := PutInode(v, n, Stamp(rec.(size := Most(rec.size, off + |data|)), Times(false, true, true), now));
    WroteDone(v.geo, f0, f1, f2, View(v), n, off, data, now, stale);
  }

  /** mofs_write_core: at most the bytes up to the largest file size are written. */
  method Pwrite(v: Volume, n: nat, off: int, data: Block, now: nat)
    returns (err: Errno, written: nat, ghost stale: seq<Block>)
    requires Good(v) && now < LIMIT64 && (n < v.geo.inodeNum ==> SizeOk(v.geo, View(v), n))
    modifies v, v.io.Repr()
    ensures Good(v)
    ensures err == WriteErr(v.geo, old(View(v)), n, off, |data|)
    ensures err != Ok ==> written == 0 && View(v) == old(View(v)) && MapsAre(v, old(v.vol).bits, old(v.led))
    ensures err == EFBIG ==> off >= 1024 * v.geo.blkSize
    ensures err == Ok ==> written == Least(|data|, 1024 * v.geo.blkSize - off)
    ensures err == Ok ==>
      Wrote(v.geo, old(View(v)), View(v), n, off, data[..written], now, stale) && SizeOk(v.geo, View(v), n)
    ensures err == Ok ==> |stale| <= FreeCount(old(v.vol).bits) && |old(v.vol).bits| == |old(v.vol).data|
                          && stale == Stale(old(v.vol), |stale|)
    ensures err == Ok ==> n < v.geo.inodeNum && ChangedAt(old(View(v)).inodes[n], View(v).inodes[n], now)
  {
    hide Good, View, FreeCount, HasRoom, Wrote, FsSized, CeilDiv, OnDisk, Backs, ChangedAt;
    written, stale := 0, [];
    if data == [] || off < 0 {
      return EINVAL, 0, [];
    }
    var rec;
    err, rec := GetInode(v, n);
    if err != Ok {
      return;
    }
    FsWhole(v.geo, View(v), n);
    if IsDir(rec) {
      return EISDIR, 0, [];
    }
    if off >= MaxBytes(v.geo.blkSize) {
      return EFBIG, 0, [];
    }
    var len := Least(|data|, MaxBytes(v.geo.blkSize) - off);
    err, stale := WriteAt(v, n, rec, off, data[..len], now);
    if err == Ok {
      written := len;
      WroteTimes(v.geo, old(View(v)), View(v), n, off, data[..len], now, stale);
    }
  }

  lemma WroteTimes(g: Geometry, f: Fs, f': Fs, n: nat, off: nat, data: Block, now: nat, stale: seq<Block>)
    requires g.blkSize > 0 && PtrsPerNode(g.blkSize) > 0 && n < |f.inodes| == |f.blocks|
      && Wrote(g, f, f', n, off, data, now, stale)
    ensures n < |f'.inodes| && ChangedAt(f.inodes[n], f'.inodes[n], now)
  {
    hide PatchOf, NodesFor, CeilDiv, Quot;
  }

  lemma StampFits(g: Geometry, rec: Inode, size: nat, now: nat)
    requires g.blkSize <= 65536 && Fits(rec) && (size == rec.size || size <= MaxBytes(g.blkSize)) && now < LIMIT64
    ensures Fits(Stamp(rec.(size := size), Times(false, true, true), now))
  {
  }

  lemma GrownFile(g: Geometry, f: Fs, f': Fs, n: nat, stale: seq<Block>)
    requires FsSized(g, f) && n < |f.inodes| == |f.blocks| && PtrsPerNode(g.blkSize) > 0 && Extended(g, f, f', n, stale)
    ensures n < |f'.inodes| == |f'.blocks| && f'.blocks[n] == f.blocks[n] + stale
    ensures f'.inodes[n] == f.inodes[n].(head := f'.inodes[n].head, nr := |f.blocks[n]| + |stale|)
  {
  }

  lemma PatchedFile(f: Fs, f': Fs, n: nat)
    requires OnlyBlocks(f, f', n)
    ensures f'.inodes == f.inodes && |f'.blocks| == |f.blocks| && |f'.blocks[n]| == |f.blocks[n]| && f'.free == f.free
  {
  }

  lemma WroteDone(g: Geometry, f0: Fs, f1: Fs, f2: Fs, f3: Fs, n: nat, off: nat, data: Block, now: nat,
                  stale: seq<Block>)
    requires g.blkSize > 0 && PtrsPerNode(g.blkSize) > 0 && SizeOk(g, f0, n) && |data| > 0
      && off + |data| <= MaxBytes(g.blkSize)
    requires |stale| == Extra(off + |data|, |f0.blocks[n]|, g.blkSize) && Extended(g, f0, f1, n, stale)
      && OnlyBlocks(f1, f2, n)
    requires CeilDiv(off + |data|, g.blkSize) > Quot(off, g.blkSize)
    requires PatchOf(f1.blocks[n], f2.blocks[n], g.blkSize, f0.inodes[n].size, Quot(off, g.blkSize),
                     CeilDiv(off + |data|, g.blkSize) - Quot(off, g.blkSize), off, data)
    requires var rec := f2.inodes[n].(size := Most(f0.inodes[n].size, off + |data|));
             f3 == f2.(inodes := f2.inodes[n := Stamp(rec, Times(false, true, true), now)])
    ensures Wrote(g, f0, f3, n, off, data, now, stale) && SizeOk(g, f3, n)
  {
    hide PatchOf, NodesFor, Quot, CeilDiv;
    CeilDivMono(Least(f0.inodes[n].size, off + |data|), Most(f0.inodes[n].size, off + |data|), g.blkSize);
  }

  // ---------------------------------------------------------------- read

  /** The bytes of a file: its blocks laid end to end, cut at its size. */
  ghost function BytesOf(f: Fs, n: nat): Block
    requires n < |f.inodes| == |f.blocks|
  {
    Flat(f.blocks[n])[..Least(f.inodes[n].size, |Flat(f.blocks[n])|)]
  }

  /** What a read of `len` bytes at `off` returns of the string `c`. */
  function ReadAt(c: Block, off: nat, len: nat): (r: Block)
    ensures |r| <= len
    ensures off + |r| <= |c| || r == []
  {
    if off >= |c| then [] else c[off..Least(off + len, |c|)]
  }

  /** The byte a read at `off` starts from: the block index goes through a 32-bit parameter. */
  function Wrapped(off: nat, bs: nat): nat
    requires bs > 0
  {
    (Quot(off, bs) % LIMIT32) * bs + Rem(off, bs)
  }

  /** The public read call admits 32-bit offsets only; for these, and up to the 2^32-th block, nothing wraps. */
  lemma WrapExact(off: nat, bs: nat)
    requires bs > 0
    ensures Wrapped(off, bs) == off <==> Quot(off, bs) < LIMIT32
    ensures off < LIMIT32 ==> Wrapped(off, bs) == off
  {
    hide Quot, Rem;
    QuotRem(off, bs);
    var q := Quot(off, bs);
    if q >= LIMIT32 {
      MulMono(q % LIMIT32, q, bs);
    } else if off < LIMIT32 {
      MulMono(0, q, bs);
    }
    if off < LIMIT32 && q >= LIMIT32 {
      QuotSmall(off, bs);
    }
  }

  lemma {:induction false} QuotSmall(n: nat, d: nat)
    requires d > 0
    ensures Quot(n, d) <= n
    decreases n
  {
    if n >= d {
      QuotSmall(n - d, d);
    }
  }

  /** A read further out finds the file's own bytes again: one at block 2^32 reads from its beginning. */
  lemma WrappedReadDiffers(c: Block, bs: nat, len: nat)
    requires bs > 0 && c != [] && len > 0
    ensures Wrapped(LIMIT32 * bs, bs) == 0
    ensures ReadAt(c, LIMIT32 * bs, len) != ReadAt(c, Wrapped(LIMIT32 * bs, bs), len) || |c| > LIMIT32 * bs
  {
    hide Quot, Rem;
    QuotRemUnique(LIMIT32 * bs, bs, LIMIT32, 0);
  }

  /** read_file_data_block: whole blocks and the bytes of a last partial block. */
  ghost predicate Fetched(blocks: seq<Block>, bs: nat, size: nat, start: nat, req: nat, buf: Block, whole: nat,
                          fraction: nat) {
    if start >= |blocks| then buf == [] && whole == 0 && fraction == 0
    else
      var hi := start + Least(req, |blocks| - start);
      && 0 <= start * bs <= hi * bs <= |Flat(blocks)|
      && buf == Flat(blocks)[start * bs..hi * bs]
      && whole * bs + fraction == Least(size, hi * bs) - start * bs
  }

  lemma FetchNext(blocks: seq<Block>, bs: nat, start: nat, i: nat, buf: Block)
    requires Whole(blocks, bs) && start + i < |blocks| && 0 <= start * bs <= (start + i) * bs <= |Flat(blocks)|
    requires buf == Flat(blocks)[start * bs..(start + i) * bs]
    ensures start * bs <= (start + i + 1) * bs <= |Flat(blocks)|
    ensures buf + blocks[start + i] == Flat(blocks)[start * bs..(start + i + 1) * bs]
  {
    hide Flat, Splice;
    FlatUpdate(blocks, bs, start + i, blocks[start + i]);
    MulAdd(start + i, 1, bs);
  }

  lemma LastPart(size: nat, bs: nat, k: nat, start: nat, count: nat)
    requires bs > 0 && k == CeilDiv(size, bs) && count > 0 && start + count <= k
    ensures Quot(size, bs) < start + count ==>
      (count - 1) * bs + Rem(size, bs) == Least(size, (start + count) * bs) - start * bs
    ensures Quot(size, bs) >= start + count ==> count * bs + 0 == Least(size, (start + count) * bs) - start * bs
  {
    hide Quot, Rem, CeilDiv;
    var q, hi := Quot(size, bs), start + count;
    QuotRem(size, bs);
    CeilDivBounds(size, bs);
    MulAdd(start, count, bs);
    MulAdd(count, -1, bs);
    if q < hi {
      assert q == hi - 1 by {
        if q + 1 < hi {
          MulMono(q + 1, k - 1, bs);
          MulAdd(q, 1, bs);
        }
      }
      MulAdd(hi, -1, bs);
    } else {
      MulMono(hi, q, bs);
    }
  }

  lemma FetchDone(blocks: seq<Block>, bs: nat, size: nat, start: nat, req: nat, buf: Block)
    requires bs > 0 && |blocks| == CeilDiv(size, bs) && start < |blocks| && req > 0
    requires var hi := start + Least(req, |blocks| - start);
      0 <= start * bs <= hi * bs <= |Flat(blocks)| && buf == Flat(blocks)[start * bs..hi * bs]
    ensures var count := Least(req, |blocks| - start);
            if Quot(size, bs) < start + count then Fetched(blocks, bs, size, start, req, buf, count - 1, Rem(size, bs))
            else Fetched(blocks, bs, size, start, req, buf, count, 0)
  {
    hide Flat, Quot, Rem, CeilDiv;
    LastPart(size, bs, |blocks|, start, Least(req, |blocks| - start));
  }

  method ReadFileBlocks(v: Volume, n: nat, start: nat, req: nat)
    returns (err: Errno, buf: Block, whole: nat, fraction: nat)
    requires Good(v) && n < v.geo.inodeNum && SizeOk(v.geo, View(v), n) && req > 0
    modifies v.io.Repr()
    ensures Good(v) && View(v) == old(View(v)) && err == Ok
    ensures Fetched(View(v).blocks[n], v.geo.blkSize, View(v).inodes[n].size, start, req, buf, whole, fraction)
  {
    hide Good, View, FsSized, Whole, CeilDiv, Quot, Rem, Flat, OnDisk, Backs;
    buf, whole, fraction := [], 0, 0;
    var rec;
    err, rec := GetInode(v, n);
    ghost var f := View(v);
    FsWhole(v.geo, f, n);
    var bs := v.geo.blkSize;
    var blks := CeilDiv(rec.size, bs);
    if start >= rec.nr || start >= blks {
      return;
    }
    var count := if start + req > blks then blks - start else req;
    MulMono(0, start, bs);
    MulMono(start, |f.blocks[n]|, bs);
    while whole < count
      invariant Good(v) && View(v) == f && err == Ok && whole <= count
      invariant 0 <= start * bs <= (start + whole) * bs <= |Flat(f.blocks[n])|
      invariant buf == Flat(f.blocks[n])[start * bs..(start + whole) * bs]
    {
      FetchNext(f.blocks[n], bs, start, whole, buf);
      var d;
      err, d := ReadBlk(v, n, start + whole);
      buf := buf + d;
      whole := whole + 1;
    }
    FetchDone(f.blocks[n], bs, rec.size, start, req, buf);
    if Quot(rec.size, bs) < start + whole {
      fraction := Rem(rec.size, bs);
      whole := whole - 1;
    }
  }

  lemma SliceOfSlice(b: Block, lo: nat, hi: nat, i: nat, j: nat)
    requires lo <= hi <= |b| && i <= j <= hi - lo
    ensures b[lo..hi][i..j] == b[lo + i..lo + j]
  {
    forall k | 0 <= k < j - i ensures b[lo..hi][i..j][k] == b[lo + i..lo + j][k] {
      assert b[lo..hi][i + k] == b[lo + i + k];
    }
  }

  lemma CopySlice(raw: Block, size: nat, lo: nat, hi: nat, pos: nat, len: nat, total: nat)
    requires lo <= hi <= |raw| && size <= |raw| && (lo + pos + len <= hi || size <= hi) && len > 0
    requires total == if size <= hi then size - lo else hi - lo
    ensures var got := Least(if total < pos then 0 else total - pos, len);
            && (got > 0 ==> pos + got <= hi - lo && raw[lo..hi][pos..pos + got] == ReadAt(raw[..size], lo + pos, len))
            && (got == 0 ==> ReadAt(raw[..size], lo + pos, len) == [])
  {
    var got := Least(if total < pos then 0 else total - pos, len);
    if got > 0 {
      SliceOfSlice(raw, lo, hi, pos, pos + got);
      SliceOfSlice(raw, 0, size, lo + pos, lo + pos + got);
    }
  }

  /** The blocks read cover the request, or else the rest of the file. */
  lemma SpanReach(size: nat, bs: nat, start: nat, need: nat)
    requires bs > 0 && start < CeilDiv(size, bs)
    ensures var hi := start + Least(CeilDiv(need, bs), CeilDiv(size, bs) - start);
            start * bs + need <= hi * bs || size <= hi * bs
  {
    hide CeilDiv;
    CeilDivBounds(size, bs);
    CeilDivBounds(need, bs);
    MulAdd(start, CeilDiv(need, bs), bs);
  }

  lemma PastBlocks(size: nat, bs: nat, start: nat)
    requires bs > 0 && start >= CeilDiv(size, bs)
    ensures size <= start * bs
  {
    hide CeilDiv;
    CeilDivBounds(size, bs);
    MulMono(CeilDiv(size, bs), start, bs);
  }

  lemma SizeInBlocks(blocks: seq<Block>, bs: nat, size: nat)
    requires bs > 0 && Whole(blocks, bs) && |blocks| == CeilDiv(size, bs)
    ensures size <= |Flat(blocks)|
  {
    hide Flat, Whole, CeilDiv;
    FlatLength(blocks, bs);
    CeilDivBounds(size, bs);
  }

  /** The copy out of the block buffer is the read of the byte string. */
  lemma CopyOut(blocks: seq<Block>, bs: nat, size: nat, start: nat, pos: nat, len: nat, buf: Block, whole: nat,
                fraction: nat)
    requires bs > 0 && Whole(blocks, bs) && |blocks| == CeilDiv(size, bs) && len > 0 && 0 <= start * bs
    requires Fetched(blocks, bs, size, start, CeilDiv(pos + len, bs), buf, whole, fraction)
    ensures 0 <= whole * bs && size <= |Flat(blocks)|
    ensures var got := Least(if whole * bs + fraction < pos then 0 else whole * bs + fraction - pos, len);
            && (got > 0 ==>
              pos + got <= |buf| && buf[pos..pos + got] == ReadAt(Flat(blocks)[..size], start * bs + pos, len))
            && (got == 0 ==> ReadAt(Flat(blocks)[..size], start * bs + pos, len) == [])
  {
    hide Flat, Whole, CeilDiv, ReadAt;
    SizeInBlocks(blocks, bs, size);
    MulMono(0, whole, bs);
    if start >= |blocks| {
      PastBlocks(size, bs, start);
      PastEnd(Flat(blocks)[..size], start * bs + pos, len);
    } else {
      SpanReach(size, bs, start, pos + len);
      var hi := start + Least(CeilDiv(pos + len, bs), |blocks| - start);
      CopySlice(Flat(blocks), size, start * bs, hi * bs, pos, len, whole * bs + fraction);
    }
  }

  lemma PastEnd(c: Block, off: nat, len: nat)
    requires off >= |c|
    ensures ReadAt(c, off, len) == []
  {
  }

  /** mofs_read_core. */
  method Pread(v: Volume, n: nat, off: int, len: nat, now: nat) returns (err: Errno, data: Block)
    requires Good(v) && now < LIMIT64 && (n < v.geo.inodeNum ==> SizeOk(v.geo, View(v), n))
    modifies v, v.io.Repr()
    ensures Good(v)
    ensures len == 0 || off < 0 || n >= v.geo.inodeNum ==> err == EINVAL && data == [] && View(v) == old(View(v))
    ensures len > 0 && off >= 0 && n < v.geo.inodeNum ==>
              var f := old(View(v));
              && (IsDir(f.inodes[n]) ==> err == EISDIR && data == [] && View(v) == f)
              && (!IsDir(f.inodes[n]) ==>
                    && err == Ok && data == ReadAt(BytesOf(f, n), Wrapped(off, v.geo.blkSize), len)
                    && View(v) == if data == [] then f
                      else f.(inodes := f.inodes[n := Stamp(f.inodes[n], Times(true, false, false), now)]))
    ensures data != [] ==> n < v.geo.inodeNum && AccessedAt(old(View(v)).inodes[n], View(v).inodes[n], now)
                           && SameButTimes(old(View(v)).inodes[n], View(v).inodes[n])
  {
    hide Good, View, FsSized, Whole, CeilDiv, Quot, Rem, Flat, Fetched, ReadAt, OnDisk, Backs;
    data := [];
    if len == 0 || off < 0 {
      return EINVAL, [];
    }
    var rec;
    err, rec := GetInode(v, n);
    if err != Ok {
      return;
    }
    ghost var f := View(v);
    FsWhole(v.geo, f, n);
    if IsDir(rec) {
      return EISDIR, [];
    }
    var bs := v.geo.blkSize;
    var start, pos := Quot(off, bs) % LIMIT32, Rem(off, bs);
    CeilDivBounds(pos + len, bs);
    MulMono(0, start, bs);
    var buf, whole, fraction;
    err, buf, whole, fraction := ReadFileBlocks(v, n, start, CeilDiv(pos + len, bs));
    CopyOut(f.blocks[n], bs, rec.size, start, pos, len, buf, whole, fraction);
    var total := whole * bs + fraction;
    var got := Least(if total < pos then 0 else total - pos, len);
    if got > 0 {
      data := buf[pos..pos + got];
      err := StampInode(v, n, Times(true, false, false), now);
    }
  }

  // ---------------------------------------------------------------- truncate

  /** The blocks left of `blocks` when its last kept block loses the bytes past `size`. */
  function TailZeroed(blocks: seq<Block>, bs: nat, size: nat): (r: seq<Block>)
    requires bs > 0 && CeilDiv(size, bs) <= |blocks|
    ensures |r| == |blocks|
  {
    var keep, tail := CeilDiv(size, bs), Rem(size, bs);
    if tail != 0 && keep > 0 && |blocks[keep - 1]| == bs
    then blocks[keep - 1 := Splice(blocks[keep - 1], tail, Zeros(bs - tail))] else blocks
  }

  lemma TailFlat(raw: Block, lo: nat, size: nat, hi: nat)
    requires lo <= size <= hi <= |raw|
    ensures Splice(raw, lo, Splice(raw[lo..hi], size - lo, Zeros(hi - size)))[..hi] == raw[..size] + Zeros(hi - size)
  {
  }

  lemma CutInside(blocks: seq<Block>, bs: nat, size: nat, last: nat)
    requires bs > 0 && Whole(blocks, bs) && last < |blocks| && last * bs <= size <= last * bs + bs
    ensures last * bs + bs <= |Flat(blocks)|
    ensures Flat(blocks[last := Splice(blocks[last], size - last * bs, Zeros(bs - (size - last * bs)))][..last + 1])
            == Flat(blocks)[..size] + Zeros(last * bs + bs - size)
  {
    hide Flat, Splice, Zeros;
    var d := Splice(blocks[last], size - last * bs, Zeros(bs - (size - last * bs)));
    var cut := blocks[last := d];
    FlatUpdate(blocks, bs, last, d);
    FlatSlice(cut, bs, 0, last + 1);
    assert cut[0..last + 1] == cut[..last + 1];
    MulAdd(last, 1, bs);
    TailFlat(Flat(blocks), last * bs, size, last * bs + bs);
  }

  lemma CutBlocks(blocks: seq<Block>, bs: nat, size: nat)
    requires bs > 0 && Whole(blocks, bs) && CeilDiv(size, bs) <= |blocks|
    ensures Whole(TailZeroed(blocks, bs, size), bs)
    ensures var keep := CeilDiv(size, bs);
            && 0 <= size <= keep * bs <= |Flat(blocks)|
            && Flat(TailZeroed(blocks, bs, size)[..keep]) == Flat(blocks)[..size] + Zeros(keep * bs - size)
  {
    hide Flat, CeilDiv, Quot, Rem, Splice, Zeros;
    var keep := CeilDiv(size, bs);
    KeepParts(size, bs);
    FlatSlice(blocks, bs, 0, keep);
    if Rem(size, bs) != 0 {
      CutInside(blocks, bs, size, keep - 1);
    } else {
      assert blocks[0..keep] == blocks[..keep];
      NoZeros(Flat(blocks)[..size]);
    }
  }

  lemma NoZeros(b: Block)
    ensures b + Zeros(0) == b
  {
  }

  lemma KeepParts(n: nat, d: nat)
    requires d > 0
    ensures Rem(n, d) == 0 ==> n == CeilDiv(n, d) * d
    ensures Rem(n, d) != 0 ==>
      CeilDiv(n, d) > 0 && n == (CeilDiv(n, d) - 1) * d + Rem(n, d) && CeilDiv(n, d) * d == (CeilDiv(n, d) - 1) * d + d
  {
    hide Quot, Rem, CeilDiv;
    var q := Quot(n, d);
    QuotRem(n, d);
    MulAdd(q, 1, d);
    if Rem(n, d) == 0 {
      if q > 0 {
        MulAdd(q, -1, d);
      }
      CeilDivUnique(n, d, q);
    } else {
      CeilDivUnique(n, d, q + 1);
    }
  }

  /** zero_partial_block_tail, when the new size ends inside a block. */
  method ZeroTail(v: Volume, n: nat, size: nat) returns (err: Errno)
    requires Good(v) && n < v.geo.inodeNum && CeilDiv(size, v.geo.blkSize) <= |View(v).blocks[n]|
    modifies v, v.io.Repr()
    ensures Good(v) && err == Ok && OnlyBlocks(old(View(v)), View(v), n) && MapsAre(v, old(v.vol).bits, old(v.led))
    ensures View(v).blocks[n] == TailZeroed(old(View(v)).blocks[n], v.geo.blkSize, size)
    ensures Backs(old(View(v)).blocks, old(OnDisk(v)), OnDisk(v), n, CeilDiv(size, v.geo.blkSize) - 1)
  {
    hide Good, View, FsSized, Flat, Splice, CeilDiv, Quot, Rem, Backs, OnDisk;
    err := Ok;
    FsWhole(v.geo, View(v), n);
    BacksSame(View(v).blocks, OnDisk(v), n, CeilDiv(size, v.geo.blkSize) - 1);
    var keep, tail := CeilDiv(size, v.geo.blkSize), Rem(size, v.geo.blkSize);
    if tail != 0 && keep > 0 {
      var d;
      err, d := ReadBlk(v, n, keep - 1);
      ghost var blocks, disk := View(v).blocks, OnDisk(v);
      err := WriteBlk(v, n, keep - 1, Splice(d, tail, Zeros(v.geo.blkSize - tail)));
      BacksThen(blocks, old(OnDisk(v)), disk, OnDisk(v), n, keep - 1);
    }
  }

  lemma BacksSame(blocks: seq<seq<Block>>, disk: seq<seq<Block>>, n: nat, k: int)
    requires |disk| == |blocks| && forall i :: 0 <= i < |disk| ==> |disk[i]| == |blocks[i]|
    ensures Backs(blocks, disk, disk, n, k)
  {
  }

  lemma BacksThen(blocks: seq<seq<Block>>, a: seq<seq<Block>>, b: seq<seq<Block>>, c: seq<seq<Block>>, n: nat, k: int)
    requires Backs(blocks, a, b, 0, -1) && Backs(blocks, b, c, n, k)
    ensures Backs(blocks, a, c, n, k)
  {
  }

  /** The record of inode `n` after its size became `size` and its mapping `nr` blocks. */
  ghost predicate Resized(f: Fs, f': Fs, n: nat, size: nat, nr: nat, now: nat) {
    && n < |f.inodes| == |f'.inodes| && n < |f.blocks| == |f'.blocks| && f'.ibits == f.ibits
    && f'.inodes == f.inodes[n := Stamp(f.inodes[n].(size := size, head := f'.inodes[n].head, nr := nr),
                                        Times(false, true, true), now)]
    && f'.blocks == f.blocks[n := f'.blocks[n]]
  }

  /** The bytes of a file cut to `size`: what was there, then zeros to the end of the last block. */
  ghost predicate CutTo(blocks: seq<Block>, kept: seq<Block>, bs: nat, size: nat) {
    && bs > 0 && |kept| == CeilDiv(size, bs) && size <= |kept| * bs && size <= |Flat(blocks)|
    && Flat(kept) == Flat(blocks)[..size] + Zeros(|kept| * bs - size)
  }

  ghost predicate CutBack(g: Geometry, f: Fs, f': Fs, n: nat, size: nat, now: nat)
    requires g.blkSize > 0 && PtrsPerNode(g.blkSize) > 0
  {
    var bs, cap := g.blkSize, PtrsPerNode(g.blkSize);
    && Resized(f, f', n, size, CeilDiv(size, bs), now)
    && CutTo(f.blocks[n], f'.blocks[n], bs, size)
    && f'.free + NodesFor(|f'.blocks[n]|, cap) + |f'.blocks[n]| == f.free + |f.blocks[n]| + NodesFor(|f.blocks[n]|, cap)
  }

  /** A shrink that found no room for the new list: the bytes below `size` are kept, the rest of their block is
      zeroed. */
  ghost predicate CutFailed(g: Geometry, f: Fs, f': Fs, n: nat, size: nat)
    requires g.blkSize > 0
  {
    && OnlyBlocks(f, f', n) && CeilDiv(size, g.blkSize) <= |f'.blocks[n]|
    && CutTo(f.blocks[n], f'.blocks[n][..CeilDiv(size, g.blkSize)], g.blkSize, size)
  }

  /** Exactly what such a shrink leaves: the kept blocks with the tail zeroed; the others as they were without a cache,
      and as the device has them with one. */
  ghost predicate CutLost(g: Geometry, f: Fs, f': Fs, disk: seq<seq<Block>>, n: nat, size: nat, cached: bool)
    requires g.blkSize > 0
  {
    && OnlyBlocks(f, f', n) && CeilDiv(size, g.blkSize) <= |f.blocks[n]| && n < |disk|
    && |disk[n]| == |f.blocks[n]| && Whole(disk[n], g.blkSize)
    && forall j :: 0 <= j < |f.blocks[n]| ==>
         f'.blocks[n][j] == if j < CeilDiv(size, g.blkSize) then TailZeroed(f.blocks[n], g.blkSize, size)[j]
                            else if cached then disk[n][j] else f.blocks[n][j]
  }

  lemma CutLostDone(g: Geometry, f0: Fs, f1: Fs, f2: Fs, disk: seq<seq<Block>>, n: nat, size: nat, cached: bool)
    requires g.blkSize > 0 && n < |f0.blocks| && CeilDiv(size, g.blkSize) <= |f0.blocks[n]|
    requires OnlyBlocks(f0, f1, n) && f1.blocks[n] == TailZeroed(f0.blocks[n], g.blkSize, size)
    requires Spoiled(f1, f2, n, CeilDiv(size, g.blkSize), |f0.blocks[n]| - CeilDiv(size, g.blkSize))
    requires ShowsDisk(f1, f2, disk, n, CeilDiv(size, g.blkSize), |f0.blocks[n]| - CeilDiv(size, g.blkSize), cached)
    requires Whole(disk[n], g.blkSize)
    ensures CutLost(g, f0, f2, disk, n, size, cached)
  {
    hide CeilDiv, Rem, Splice;
    var keep := CeilDiv(size, g.blkSize);
    forall j | 0 <= j < keep ensures f2.blocks[n][j] == f1.blocks[n][j] {
      assert f2.blocks[n][..keep][j] == f1.blocks[n][..keep][j];
    }
  }

  lemma BacksPast(f0: Fs, f1: Fs, a: seq<seq<Block>>, b: seq<seq<Block>>, c: seq<seq<Block>>, n: nat, bs: nat,
                  size: nat)
    requires bs > 0 && n < |f0.blocks| && CeilDiv(size, bs) <= |f0.blocks[n]|
    requires OnlyBlocks(f0, f1, n) && f1.blocks[n] == TailZeroed(f0.blocks[n], bs, size)
    requires Backs(f0.blocks, a, b, n, CeilDiv(size, bs) - 1) && Backs(f1.blocks, b, c, 0, -1)
    ensures Backs(f0.blocks, a, c, n, CeilDiv(size, bs) - 1)
  {
    hide CeilDiv, Rem, Splice;
  }

  ghost predicate CutHasRoom(g: Geometry, f: Fs, n: nat, size: nat)
    requires g.blkSize > 0 && PtrsPerNode(g.blkSize) > 0 && n < |f.blocks|
  {
    var keep, k := CeilDiv(size, g.blkSize), |f.blocks[n]|;
    keep >= k || NodesFor(keep, PtrsPerNode(g.blkSize)) <= f.free + (k - keep)
  }

  /** The shrinking half of truncate_inode. */
  method Shrink(v: Volume, n: nat, rec0: Inode, size: nat, now: nat) returns (err: Errno)
    requires Good(v) && now < LIMIT64 && n < v.geo.inodeNum && SizeOk(v.geo, View(v), n) && rec0 == View(v).inodes[n]
      && size < rec0.size
    modifies v, v.io.Repr()
    ensures Good(v)
    ensures err == if CutHasRoom(v.geo, old(View(v)), n, size) then Ok else ENOSPC
    ensures err == Ok ==> CutBack(v.geo, old(View(v)), View(v), n, size, now) && SizeOk(v.geo, View(v), n)
    ensures err != Ok ==> CutFailed(v.geo, old(View(v)), View(v), n, size) && SizeOk(v.geo, View(v), n)
    ensures err != Ok ==>
      CutLost(v.geo, old(View(v)), View(v), OnDisk(v), n, size, v.io.enabled) && MapsAre(v, old(v.vol).bits, old(v.led))
    ensures err != Ok ==> Backs(old(View(v)).blocks, old(OnDisk(v)), OnDisk(v), n, CeilDiv(size, v.geo.blkSize) - 1)
  {
    hide Good, View, FsSized, Flat, CeilDiv, Fits, OnlyBlocks, CutTo, Whole, TailZeroed, Reduced, Spoiled, CutFailed,
      CutBack, CutLost, ShowsDisk, Backs, OnDisk;
    ghost var f0 := View(v);
    FsWhole(v.geo, f0, n);
    var keep := CeilDiv(size, v.geo.blkSize);
    CeilDivMono(size, rec0.size, v.geo.blkSize);
    CutBlocks(f0.blocks[n], v.geo.blkSize, size);
    err := ZeroTail(v, n, size);
    ghost var f1, disk := View(v), OnDisk(v);
    PatchedFile(f0, f1, n);
    if keep < rec0.nr {
      err := Release(v, n, keep, rec0.nr - keep);
      if err != Ok {
        CutFailedDone(v.geo, f0, f1, View(v), n, size);
        CutLostDone(v.geo, f0, f1, View(v), OnDisk(v), n, size, v.io.enabled);
        BacksPast(f0, f1, old(OnDisk(v)), disk, OnDisk(v), n, v.geo.blkSize, size);
        return;
      }
    } else {
      ReducedBy0(v.geo, f1, n);
    }
    ghost var f2 := View(v);
    ReducedFile(v.geo, f1, f2, n, keep, |f1.blocks[n]| - keep);
    var rec;
    err, rec := GetInode(v, n);
    FsWhole(v.geo, f2, n);
    StampFits(v.geo, rec, size, now);
    err := PutInode(v, n, Stamp(rec.(size := size), Times(false, true, true), now));
    CutBackDone(v.geo, f0, f1, f2, View(v), n, size, now);
  }

  lemma ReducedBy0(g: Geometry, f: Fs, n: nat)
    requires FsSized(g, f) && n < |f.inodes| == |f.blocks| && PtrsPerNode(g.blkSize) > 0
    ensures Reduced(g, f, f, n, |f.blocks[n]|, 0)
  {
    var b := f.blocks[n];
    assert b[..|b|] + b[|b|..] == b;
  }

  lemma ReducedFile(g: Geometry, f: Fs, f': Fs, n: nat, start: nat, m: nat)
    requires n < |f.inodes| == |f.blocks| && PtrsPerNode(g.blkSize) > 0 && start + m == |f.blocks[n]|
      && Reduced(g, f, f', n, start, m)
    ensures n < |f'.inodes| == |f'.blocks| && f'.blocks[n] == f.blocks[n][..start]
    ensures f'.inodes[n] == f.inodes[n].(head := f'.inodes[n].head, nr := start)
  {
    assert f.blocks[n][start + m..] == [];
  }

  lemma CutFailedDone(g: Geometry, f0: Fs, f1: Fs, f2: Fs, n: nat, size: nat)
    requires g.blkSize > 0 && SizeOk(g, f0, n) && Whole(f0.blocks[n], g.blkSize)
      && CeilDiv(size, g.blkSize) <= |f0.blocks[n]|
    requires OnlyBlocks(f0, f1, n) && f1.blocks[n] == TailZeroed(f0.blocks[n], g.blkSize, size)
    requires Spoiled(f1, f2, n, CeilDiv(size, g.blkSize), |f0.blocks[n]| - CeilDiv(size, g.blkSize))
    ensures CutFailed(g, f0, f2, n, size) && SizeOk(g, f2, n)
  {
    hide CeilDiv, Flat, TailZeroed, Whole;
    CutBlocks(f0.blocks[n], g.blkSize, size);
  }

  lemma CutBackDone(g: Geometry, f0: Fs, f1: Fs, f2: Fs, f3: Fs, n: nat, size: nat, now: nat)
    requires g.blkSize > 0 && PtrsPerNode(g.blkSize) > 0 && SizeOk(g, f0, n) && Whole(f0.blocks[n], g.blkSize)
    requires CeilDiv(size, g.blkSize) <= |f0.blocks[n]|
    requires OnlyBlocks(f0, f1, n) && f1.blocks[n] == TailZeroed(f0.blocks[n], g.blkSize, size)
    requires Reduced(g, f1, f2, n, CeilDiv(size, g.blkSize), |f0.blocks[n]| - CeilDiv(size, g.blkSize))
    requires f3 == f2.(inodes := f2.inodes[n := Stamp(f2.inodes[n].(size := size), Times(false, true, true), now)])
    ensures CutBack(g, f0, f3, n, size, now) && SizeOk(g, f3, n)
  {
    hide CeilDiv, Flat, TailZeroed, Whole, NodesFor;
    CutBlocks(f0.blocks[n], g.blkSize, size);
    ReducedFile(g, f1, f2, n, CeilDiv(size, g.blkSize), |f0.blocks[n]| - CeilDiv(size, g.blkSize));
  }

  ghost predicate Lengthened(g: Geometry, f: Fs, f': Fs, n: nat, size: nat, now: nat, stale: seq<Block>)
    requires g.blkSize > 0 && PtrsPerNode(g.blkSize) > 0
  {
    && n < |f.inodes| && n < |f.blocks| && |stale| == Extra(size, |f.blocks[n]|, g.blkSize)
    && Resized(f, f', n, size, |f.blocks[n]| + |stale|, now)
    && var bs, cap, k, was := g.blkSize, PtrsPerNode(g.blkSize), |f.blocks[n]|, f.inodes[n].size;
    && Quot(was, bs) < CeilDiv(size, bs)
    && PatchOf(f.blocks[n] + stale, f'.blocks[n], bs, was, Quot(was, bs), CeilDiv(size, bs) - Quot(was, bs), size, [])
    && f'.free + |stale| + NodesFor(k + |stale|, cap) == f.free + NodesFor(k, cap)
  }

  lemma ZeroSpan(from: nat, to: nat, bs: nat)
    requires bs > 0 && from < to
    ensures Quot(to - 1, bs) + 1 == CeilDiv(to, bs) && Quot(from, bs) < CeilDiv(to, bs)
    ensures Quot(from, bs) * bs <= from && to <= CeilDiv(to, bs) * bs
  {
    hide Quot, Rem, CeilDiv;
    QuotRem(from, bs);
    QuotRem(to - 1, bs);
    MulAdd(Quot(to - 1, bs), 1, bs);
    CeilDivUnique(to, bs, Quot(to - 1, bs) + 1);
    CeilDivBounds(to, bs);
    QuotLt(from, bs, CeilDiv(to, bs));
  }

  lemma LengthenedDone(g: Geometry, f0: Fs, f1: Fs, f2: Fs, f3: Fs, n: nat, size: nat, now: nat, stale: seq<Block>)
    requires g.blkSize > 0 && PtrsPerNode(g.blkSize) > 0 && SizeOk(g, f0, n) && size > f0.inodes[n].size
    requires |stale| == Extra(size, |f0.blocks[n]|, g.blkSize) && Extended(g, f0, f1, n, stale) && OnlyBlocks(f1, f2, n)
    requires Quot(f0.inodes[n].size, g.blkSize) < CeilDiv(size, g.blkSize)
    requires PatchOf(f1.blocks[n], f2.blocks[n], g.blkSize, f0.inodes[n].size, Quot(f0.inodes[n].size, g.blkSize),
                     CeilDiv(size, g.blkSize) - Quot(f0.inodes[n].size, g.blkSize), size, [])
    requires f3 == f2.(inodes := f2.inodes[n := Stamp(f2.inodes[n].(size := size), Times(false, true, true), now)])
    ensures Lengthened(g, f0, f3, n, size, now, stale) && SizeOk(g, f3, n)
  {
    hide PatchOf, NodesFor, Quot, CeilDiv;
    CeilDivMono(f0.inodes[n].size, size, g.blkSize);
  }

  /** The growing half of truncate_inode. */
  method Lengthen(v: Volume, n: nat, rec0: Inode, size: nat, now: nat) returns (err: Errno, ghost stale: seq<Block>)
    requires Good(v) && now < LIMIT64 && n < v.geo.inodeNum && SizeOk(v.geo, View(v), n) && rec0 == View(v).inodes[n]
    requires rec0.size < size <= MaxBytes(v.geo.blkSize)
    modifies v, v.io.Repr()
    ensures Good(v)
    ensures var c := Extra(size, |old(View(v)).blocks[n]|, v.geo.blkSize);
            && err == (if c == 0 || HasRoom(v.geo, old(View(v)), n, c) then Ok else ENOSPC)
    ensures err == Ok ==> Lengthened(v.geo, old(View(v)), View(v), n, size, now, stale) && SizeOk(v.geo, View(v), n)
    ensures err != Ok ==> View(v) == old(View(v)) && MapsAre(v, old(v.vol).bits, old(v.led))
  {
    hide Good, View, FreeCount, Extended, HasRoom, PatchOf, FsSized, CeilDiv, Quot, Rem, OnlyBlocks, Fits, Lengthened,
      Stale, OnDisk, Backs;
    ghost var f0 := View(v);
    FsWhole(v.geo, f0, n);
    var bs := v.geo.blkSize;
    var needed := CeilDiv(size, bs);
    ExtraBound(size, |f0.blocks[n]|, bs);
    CeilDivMono(rec0.size, size, bs);
    err, stale := Grow(v, n, if needed > rec0.nr then needed - rec0.nr else 0);
    if err != Ok {
      return;
    }
    ghost var f1 := View(v);
    GrownFile(v.geo, f0, f1, n, stale);
    var rec;
    err, rec := GetInode(v, n);
    ZeroSpan(rec0.size, size, bs);
    var start := Quot(rec0.size, bs);
    ghost var wrote;
    err, wrote := Patch(v, n, rec0.size, start, Quot(size - 1, bs) - start + 1, size, []);
    ghost var f2 := View(v);
    PatchedFile(f1, f2, n);
    FsWhole(v.geo, f2, n);
    StampFits(v.geo, rec, size, now);
    err := PutInode(v, n, Stamp(rec.(size := size), Times(false, true, true), now));
    LengthenedDone(v.geo, f0, f1, f2, View(v), n, size, now, stale);
  }

  /** What a truncate to `size` returns. */
  ghost function TruncErr(g: Geometry, f: Fs, n: nat, size: int): Errno
    requires FsSized(g, f) && g.blkSize > 0 && PtrsPerNode(g.blkSize) > 0
  {
    if size < 0 then EINVAL
    else if size > MaxBytes(g.blkSize) then EFBIG
    else if n >= g.inodeNum then EINVAL
    else if IsDir(f.inodes[n]) then EISDIR
    else if size < f.inodes[n].size then (if CutHasRoom(g, f, n, size) then Ok else ENOSPC)
    else
      var c := Extra(size, |f.blocks[n]|, g.blkSize);
      if size == f.inodes[n].size || c == 0 || HasRoom(g, f, n, c) then Ok else ENOSPC
  }

  /** mofs_truncate_core. */
  method Truncate(v: Volume, n: nat, size: int, now: nat) returns (err: Errno, ghost stale: seq<Block>)
    requires Good(v) && now < LIMIT64 && (n < v.geo.inodeNum ==> SizeOk(v.geo, View(v), n))
    modifies v, v.io.Repr()
    ensures Good(v)
    ensures err == TruncErr(v.geo, old(View(v)), n, size) && (err == EFBIG <==> size > 1024 * v.geo.blkSize)
    ensures n < v.geo.inodeNum ==> SizeOk(v.geo, View(v), n)
    ensures err == Ok && size < old(View(v)).inodes[n].size ==> CutBack(v.geo, old(View(v)), View(v), n, size, now)
    ensures err == Ok && size == old(View(v)).inodes[n].size ==> View(v) == old(View(v))
    ensures err == Ok && size > old(View(v)).inodes[n].size ==>
      Lengthened(v.geo, old(View(v)), View(v), n, size, now, stale)
    ensures err == ENOSPC && size < old(View(v)).inodes[n].size ==>
              && CutFailed(v.geo, old(View(v)), View(v), n, size)
              && CutLost(v.geo, old(View(v)), View(v), OnDisk(v), n, size, v.io.enabled)
              && Backs(old(View(v)).blocks, old(OnDisk(v)), OnDisk(v), n, CeilDiv(size, v.geo.blkSize) - 1)
    ensures err != Ok && !(err == ENOSPC && size < old(View(v)).inodes[n].size) ==> View(v) == old(View(v))
    ensures err != Ok ==> MapsAre(v, old(v.vol).bits, old(v.led))
    ensures err == Ok && size != old(View(v)).inodes[n].size ==>
              ChangedAt(old(View(v)).inodes[n], View(v).inodes[n], now)
  {
    hide Good, View, FsSized, CeilDiv, HasRoom, CutHasRoom, CutBack, CutFailed, Lengthened, CutLost, Backs, OnDisk,
      ChangedAt;
    stale := [];
    if size < 0 {
      return EINVAL, [];
    }
    if size > MaxBytes(v.geo.blkSize) {
      return EFBIG, [];
    }
    var rec;
    err, rec := GetInode(v, n);
    if err != Ok {
      return;
    }
    FsWhole(v.geo, View(v), n);
    if IsDir(rec) {
      return EISDIR, [];
    }
    if size < rec.size {
      ghost var blocks, disk := View(v).blocks, OnDisk(v);
      err := Shrink(v, n, rec, size, now);
      if err != Ok {
        BacksThen(blocks, old(OnDisk(v)), disk, OnDisk(v), n, CeilDiv(size, v.geo.blkSize) - 1);
      } else {
        ResizedTimes(v.geo, old(View(v)), View(v), n, size, now, []);
      }
    } else if size > rec.size {
      err, stale := Lengthen(v, n, rec, size, now);
      if err == Ok {
        ResizedTimes(v.geo, old(View(v)), View(v), n, size, now, stale);
      }
    }
  }

  lemma ResizedTimes(g: Geometry, f: Fs, f': Fs, n: nat, size: nat, now: nat, stale: seq<Block>)
    requires g.blkSize > 0 && PtrsPerNode(g.blkSize) > 0
    requires CutBack(g, f, f', n, size, now) || Lengthened(g, f, f', n, size, now, stale)
    ensures n < |f.inodes| == |f'.inodes| && ChangedAt(f.inodes[n], f'.inodes[n], now)
  {
    hide CutTo, NodesFor, CeilDiv, Quot, PatchOf;
  }
}
