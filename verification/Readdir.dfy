/** Reading a directory entry by entry, while others change it. */
module DirScans {
  import opened Errors
  import opened Bytes
  import opened Layout
  import opened Volumes
  import opened Ownership
  import opened FileBytes
  import opened FileData
  import opened FileOps
  import opened Dirents
  import opened DirOps
  import opened Namespace
  import opened TreeShape
  import opened TreeOps
  import opened Sessions

  /** An open directory: its inode, the slot the next call starts from and the entry last read. */
  class DirHandle {
    const inode: nat
    var offset: nat
    var entry: Ent

    constructor (inode: nat)
      ensures this.inode == inode && offset == 0 && entry == NONE
    {
      this.inode := inode;
      offset := 0;
      entry := NONE;
    }
  }

  /** The first slot in use from `c` on, or the number of slots. */
  function NextLive(es: seq<Ent>, c: nat): nat
    decreases |es| - c
  {
    if c >= |es| then |es| else if Live(es[c]) then c else NextLive(es, c + 1)
  }

  lemma {:induction false} NextLiveIs(es: seq<Ent>, c: nat, e: nat)
    requires c <= e <= |es| && (forall i :: c <= i < e ==> !Live(es[i])) && (e == |es| || Live(es[e]))
    ensures NextLive(es, c) == e
    decreases e - c
  {
    if c < e {
      NextLiveIs(es, c + 1, e);
    }
  }

  lemma {:induction false} NextLiveFacts(es: seq<Ent>, c: nat)
    ensures NextLive(es, c) <= |es| && (c <= |es| ==> c <= NextLive(es, c))
    ensures NextLive(es, c) < |es| ==> Live(es[NextLive(es, c)])
    ensures forall i :: c <= i < NextLive(es, c) && i < |es| ==> !Live(es[i])
    decreases |es| - c
  {
    if c < |es| && !Live(es[c]) {
      NextLiveFacts(es, c + 1);
    }
  }

  ghost predicate NoneLive(es: seq<Ent>, from: nat, to: nat) {
    forall i :: from <= i < to && i < |es| ==> !Live(es[i])
  }

  /** The inner loop over one block. */
  method NextInBlock(b: Block, from: nat) returns (j: nat)
    ensures from <= j || j == from
    ensures j <= PerBlock(|b|) || j == from
    ensures NoneLive(Entries(b), from, j)
    ensures j < PerBlock(|b|) ==> Live(Entries(b)[j])
  {
    hide EntryOf, SlotBytes, Live;
    j := from;
    while j < PerBlock(|b|)
      invariant from <= j && (j <= PerBlock(|b|) || j == from) && NoneLive(Entries(b), from, j)
    {
      if Live(EntryOf(SlotBytes(b, j))) {
        return;
      }
      j := j + 1;
    }
  }

  method NextInBlockIn(ghost v: Volume, b: Block, from: nat) returns (j: nat)
    requires Good(v) && from < PerBlock(|b|)
    ensures Good(v) && View(v) == old(View(v))
    ensures from <= j <= PerBlock(|b|) && NoneLive(Entries(b), from, j) && (j < PerBlock(|b|) ==> Live(Entries(b)[j]))
  {
    hide Owned, FsOf, NoneLive;
    j := NextInBlock(b, from);
  }

  lemma BlockScanned(blocks: seq<Block>, bs: nat, c: nat, k: nat, j: nat, j': nat)
    requires Whole(blocks, bs) && k < |blocks| && j <= j' <= PerBlock(bs) && c <= k * PerBlock(bs) + j
    requires NoneLive(EntsOf(blocks), c, k * PerBlock(bs) + j) && |blocks[k]| == bs
      && NoneLive(Entries(blocks[k]), j, j')
    ensures 0 <= k * PerBlock(bs) + j' <= |EntsOf(blocks)| && NoneLive(EntsOf(blocks), c, k * PerBlock(bs) + j')
    ensures j' < PerBlock(bs) ==>
      k * PerBlock(bs) + j' < |EntsOf(blocks)| && EntsOf(blocks)[k * PerBlock(bs) + j'] == Entries(blocks[k])[j']
  {
    hide EntsOf, Entries, Live;
    EntsAt(blocks, bs, k, blocks[k]);
    var base, es := k * PerBlock(bs), EntsOf(blocks);
    forall i | c <= i < base + j' && i < |es| ensures !Live(es[i]) {
      if i >= base + j {
        assert es[base + (i - base)] == Entries(blocks[k])[i - base];
      }
    }
  }

  /** What a call of readdir does to its handle. */
  ghost predicate ReadNext(es: seq<Ent>, c: nat, c': nat, entry: Ent) {
    var e := NextLive(es, c);
    if e < |es| then entry == es[e] && c' == e + 1 else entry == NONE && c' == c
  }

  lemma ReadNextHit(es: seq<Ent>, c: nat, e: nat)
    requires c <= e < |es| && NoneLive(es, c, e) && Live(es[e])
    ensures ReadNext(es, c, e + 1, es[e])
  {
    NextLiveIs(es, c, e);
  }

  lemma ReadNextEnd(es: seq<Ent>, c: nat)
    requires NoneLive(es, c, |es|)
    ensures ReadNext(es, c, c, NONE)
  {
    hide Live;
    NextLiveFacts(es, c);
  }

  /** From slot `c` on, nothing in use was met before slot `j` of block `k`. */
  ghost predicate Scanned(blocks: seq<Block>, bs: nat, c: nat, k: nat, j: nat) {
    c <= k * PerBlock(bs) + j && NoneLive(EntsOf(blocks), c, k * PerBlock(bs) + j)
  }

  lemma ScanStart(blocks: seq<Block>, bs: nat, c: nat)
    requires PerBlock(bs) > 0
    ensures Scanned(blocks, bs, c, Quot(c, PerBlock(bs)), Rem(c, PerBlock(bs)))
  {
    hide Quot, Rem, EntsOf;
    QuotRem(c, PerBlock(bs));
  }

  lemma ScanNextBlock(blocks: seq<Block>, bs: nat, c: nat, k: nat)
    requires Scanned(blocks, bs, c, k, PerBlock(bs))
    ensures Scanned(blocks, bs, c, k + 1, 0)
  {
    hide EntsOf, NoneLive;
    MulAdd(k, 1, PerBlock(bs));
  }

  lemma ScanOver(blocks: seq<Block>, bs: nat, c: nat, k: nat, j: nat)
    requires Whole(blocks, bs) && Scanned(blocks, bs, c, k, j) && k >= |blocks|
    ensures ReadNext(EntsOf(blocks), c, c, NONE)
  {
    hide EntsOf, ReadNext;
    EntsLength(blocks, bs);
    MulMono(|blocks|, k, PerBlock(bs));
    ReadNextEnd(EntsOf(blocks), c);
  }

  /** One block of the search, from slot `j` on. */
  method SearchBlock(v: Volume, n: nat, c: nat, k: nat, j: nat) returns (err: Errno, j': nat, e: Ent)
    requires Good(v) && DirOk(v.geo, View(v), n) && k < |View(v).blocks[n]| && j < PerBlock(v.geo.blkSize)
    requires Scanned(View(v).blocks[n], v.geo.blkSize, c, k, j)
    modifies v.io.Repr()
    ensures Good(v) && View(v) == old(View(v)) && err == Ok && j' <= PerBlock(v.geo.blkSize)
    ensures Scanned(View(v).blocks[n], v.geo.blkSize, c, k, j')
    ensures j' < PerBlock(v.geo.blkSize) ==> ReadNext(EntsIn(View(v), n), c, k * PerBlock(v.geo.blkSize) + j' + 1, e)
  {
    hide Good, View, FsSized, Bit, EntsOf, Entries, Live, CeilDiv, Whole, ReadNext, NoneLive, EntryOf, SlotBytes,
      OnDisk, Backs;
    ghost var f := View(v);
    FsWhole(v.geo, f, n);
    var buf;
    err, buf := ReadDirBlock(v, n, k);
    j' := NextInBlockIn(v, buf, j);
    e := NONE;
    BlockScanned(f.blocks[n], v.geo.blkSize, c, k, j, j');
    if j' < PerBlock(v.geo.blkSize) {
      e := EntryOf(SlotBytes(buf, j'));
      SlotEntry(buf, j');
      ReadNextHit(EntsIn(f, n), c, k * PerBlock(v.geo.blkSize) + j');
    }
  }

  /** The search of mofs_readdir_core: from slot `c` on, block by block. */
  method SearchFrom(v: Volume, n: nat, c: nat) returns (err: Errno, c': nat, e: Ent)
    requires Good(v) && (n < v.geo.inodeNum && IsDir(View(v).inodes[n]) ==> DirOk(v.geo, View(v), n))
    modifies v.io.Repr()
    ensures Good(v) && View(v) == old(View(v))
    ensures err == if n >= v.geo.inodeNum then EINVAL else if !IsDir(View(v).inodes[n]) then ENOTDIR else Ok
    ensures err == Ok ==> n < v.geo.inodeNum && ReadNext(EntsIn(View(v), n), c, c', e)
  {
    hide Good, View, FsSized, EntsOf, CeilDiv, Whole, ReadNext, Quot, Rem, DirOk, IsDir, Scanned, PerBlock, OnDisk,
      Backs;
    c', e := c, NONE;
    ghost var f := View(v);
    var rec;
    err, rec := GetInode(v, n);
    if err != Ok {
      return;
    }
    FsWhole(v.geo, f, n);
    if !IsDir(rec) {
      return ENOTDIR, c, NONE;
    }
    DirSizeOk(v.geo, f, n);
    AppendIndex(0, v.geo.blkSize);
    var per := PerBlock(v.geo.blkSize);
    var k, j := Quot(c, per), Rem(c, per);
    ScanStart(f.blocks[n], v.geo.blkSize, c);
    var blocks := CeilDiv(rec.size, v.geo.blkSize);
    while k < blocks
      invariant Good(v) && View(v) == f && err == Ok && j < per && c' == c && e == NONE
      invariant Scanned(f.blocks[n], v.geo.blkSize, c, k, j)
    {
      var x;
      err, j, x := SearchBlock(v, n, c, k, j);
      if j < per {
        return Ok, k * per + j + 1, x;
      }
      ScanNextBlock(f.blocks[n], v.geo.blkSize, c, k);
      k, j := k + 1, 0;
    }
    ScanOver(f.blocks[n], v.geo.blkSize, c, k, j);
  }

  lemma SlotEntry(b: Block, j: nat)
    requires j < PerBlock(|b|)
    ensures Entries(b)[j] == EntryOf(SlotBytes(b, j))
  {
  }

  /** mofs_readdir_core: the next entry in use, from the slot of the handle on. */
  method Readdir(v: Volume, h: DirHandle) returns (err: Errno)
    requires Good(v) && h !in v.Repr()
      && (h.inode < v.geo.inodeNum && IsDir(View(v).inodes[h.inode]) ==> DirOk(v.geo, View(v), h.inode))
    modifies v.io.Repr(), h
    ensures Good(v) && View(v) == old(View(v))
    ensures err == if h.inode >= v.geo.inodeNum then EINVAL else if !IsDir(View(v).inodes[h.inode]) then ENOTDIR else Ok
    ensures err == Ok ==>
      h.inode < v.geo.inodeNum && ReadNext(EntsIn(View(v), h.inode), old(h.offset), h.offset, h.entry)
    ensures err != Ok ==> h.offset == old(h.offset) && h.entry == old(h.entry)
  {
    hide FsOf, FsSized, Owned, ReadNext, EntsOf, Bit;
    var c, e;
    err, c, e := SearchFrom(v, h.inode, h.offset);
    if err == Ok {
      h.offset, h.entry := c, e;
    }
  }

  // ---------------------------------------------------------------- whole scans

  /** A scan from the start to the end: at call `i` the directory is `dirs[i]`, and it answers with slot `got[i]`. */
  ghost predicate Scan(dirs: seq<seq<Ent>>, got: seq<nat>, n: nat) {
    && |dirs| == |got| + 1 && (forall i :: 0 <= i < |dirs| ==> |dirs[i]| == n)
    && (forall i :: 0 <= i < |got| ==> got[i] == NextLive(dirs[i], Cursor(got, i)) < n)
    && NextLive(dirs[|got|], Cursor(got, |got|)) == n
  }

  /** The cursor before call `i`. */
  ghost function Cursor(got: seq<nat>, i: nat): nat
    requires i <= |got|
  {
    if i == 0 then 0 else got[i - 1] + 1
  }

  /** A scan answers in slot order, and so with no slot twice. */
  lemma {:induction false} ScanOrdered(dirs: seq<seq<Ent>>, got: seq<nat>, n: nat, i: nat, j: nat)
    requires Scan(dirs, got, n) && i < j < |got|
    ensures got[i] < got[j]
    decreases j
  {
    hide NextLive;
    NextLiveFacts(dirs[j], Cursor(got, j));
    if i < j - 1 {
      ScanOrdered(dirs, got, n, i, j - 1);
    }
  }

  /** Up to call `i`, a slot that stays in use has been answered or lies ahead of the cursor. */
  lemma {:induction false} ScanAhead(dirs: seq<seq<Ent>>, got: seq<nat>, n: nat, s: nat, i: nat)
    requires Scan(dirs, got, n) && s < n && i <= |got| && (forall k :: 0 <= k < |dirs| ==> Live(dirs[k][s]))
    ensures s in got[..i] || Cursor(got, i) <= s
  {
    hide NextLive, Live;
    if i > 0 {
      ScanAhead(dirs, got, n, s, i - 1);
      NextLiveFacts(dirs[i - 1], Cursor(got, i - 1));
      assert Live(dirs[i - 1][s]);
      assert got[..i] == got[..i - 1] + [got[i - 1]];
    }
  }

  /** An entry that keeps its slot throughout is answered exactly once, whatever happens to the others between the
      calls. */
  lemma ScanComplete(dirs: seq<seq<Ent>>, got: seq<nat>, n: nat, s: nat)
    requires Scan(dirs, got, n) && s < n && (forall k :: 0 <= k < |dirs| ==> Live(dirs[k][s]))
    ensures exists k :: 0 <= k < |got| && got[k] == s
    ensures forall k, l :: 0 <= k < |got| && 0 <= l < |got| && got[k] == s && got[l] == s ==> k == l
  {
    ScanAhead(dirs, got, n, s, |got|);
    NextLiveFacts(dirs[|got|], Cursor(got, |got|));
    assert Live(dirs[|got|][s]);
    assert got[..|got|] == got;
    forall k, l | 0 <= k < |got| && 0 <= l < |got| && got[k] == s && got[l] == s ensures k == l {
      if k < l {
        ScanOrdered(dirs, got, n, k, l);
      } else if l < k {
        ScanOrdered(dirs, got, n, l, k);
      }
    }
  }

  // ---------------------------------------------------------------- scans and the calls that make them up

  /** A scan up to the cursor `c`. */
  ghost predicate Scanning(dirs: seq<seq<Ent>>, got: seq<nat>, n: nat, c: nat) {
    && |dirs| == |got| && c == Cursor(got, |got|) && (forall i :: 0 <= i < |dirs| ==> |dirs[i]| == n)
    && (forall i :: 0 <= i < |got| ==> got[i] == NextLive(dirs[i], Cursor(got, i)) < n)
  }

  lemma CursorOn(got: seq<nat>, e: nat, i: nat)
    requires i <= |got|
    ensures Cursor(got + [e], i) == Cursor(got, i)
  {
  }

  /** Each call of readdir takes the scan one slot on, or ends it. */
  lemma ScanGoesOn(dirs: seq<seq<Ent>>, got: seq<nat>, n: nat, c: nat, es: seq<Ent>, c': nat, entry: Ent)
    requires Scanning(dirs, got, n, c) && |es| == n && ReadNext(es, c, c', entry)
    ensures Live(entry) ==>
              && NextLive(es, c) < n && entry == es[NextLive(es, c)]
              && Scanning(dirs + [es], got + [NextLive(es, c)], n, c')
    ensures !Live(entry) ==> Scan(dirs + [es], got, n)
  {
    hide NextLive, Live;
    NextLiveFacts(es, c);
    NotLive();
    var d, e := dirs + [es], NextLive(es, c);
    if Live(entry) {
      forall i | 0 <= i < |d| ensures (got + [e])[i] == NextLive(d[i], Cursor(got + [e], i)) < n && |d[i]| == n {
        CursorOn(got, e, i);
        assert i < |dirs| ==> got[i] == NextLive(dirs[i], Cursor(got, i)) < n;
      }
    } else {
      forall i | 0 <= i < |dirs| ensures got[i] == NextLive(d[i], Cursor(got, i)) < n && |d[i]| == n {
        assert got[i] == NextLive(dirs[i], Cursor(got, i)) < n;
      }
    }
  }

  lemma NotLive()
    ensures !Live(NONE)
  {
  }

  /** `out` is what a scan answered. */
  ghost predicate Answers(dirs: seq<seq<Ent>>, got: seq<nat>, out: seq<Ent>) {
    |out| == |got| <= |dirs| && forall i :: 0 <= i < |out| ==> got[i] < |dirs[i]| && out[i] == dirs[i][got[i]]
  }

  lemma AnswersOn(dirs: seq<seq<Ent>>, got: seq<nat>, out: seq<Ent>, es: seq<Ent>, e: nat)
    requires Answers(dirs, got, out)
    ensures Answers(dirs + [es], got, out)
    ensures |dirs| == |got| && e < |es| ==> Answers(dirs + [es], got + [e], out + [es[e]])
  {
  }

  lemma ScanLengths(dirs: seq<seq<Ent>>, got: seq<nat>, n: nat, c: nat)
    ensures Scanning(dirs, got, n, c) ==> |dirs| == |got| && forall i :: 0 <= i < |dirs| ==> |dirs[i]| == n
    ensures Scan(dirs, got, n) ==> forall i :: 0 <= i < |dirs| ==> |dirs[i]| == n
  {
  }

  /** The slots of directory `n`: one block of them. */
  lemma OneBlock(g: Geometry, f: Fs, t: Nest, n: nat)
    requires FsSized(g, f) && ValidBlkSize(g.blkSize) && Shaped(g, f) && Tree(NsOf(f), t) && IsParent(g, f, n)
    ensures DirOk(g, f, n) && |EntsIn(f, n)| == PerBlock(g.blkSize)
  {
    hide EntsOf, Bit, TreeBut, ShapedAt, GraphNode;
    ParentIs(g, f, t, n);
    ShapedDir(g, f, n);
    FsWhole(g, f, n);
    EntsLength(f.blocks[n], g.blkSize);
  }

  /** Slot `s` is in use at every call. */
  ghost predicate KeepsSlot(dirs: seq<seq<Ent>>, s: nat) {
    forall k :: 0 <= k < |dirs| ==> s < |dirs[k]| && Live(dirs[k][s])
  }

  ghost predicate Once(got: seq<nat>, s: nat) {
    exists k :: 0 <= k < |got| && got[k] == s && forall l :: 0 <= l < |got| && got[l] == s ==> l == k
  }

  lemma ScanOnce(dirs: seq<seq<Ent>>, got: seq<nat>, n: nat)
    requires Scan(dirs, got, n)
    ensures forall s: nat :: KeepsSlot(dirs, s) ==> Once(got, s)
  {
    hide NextLive, Live;
    forall s: nat | KeepsSlot(dirs, s) ensures Once(got, s) {
      assert s < |dirs[0]|;
      ScanComplete(dirs, got, n, s);
    }
  }

  /** Read a directory entry by entry, with one command of anybody between any two calls. `dirs` is the directory at
      each call. A scan that comes to its end answers every entry that kept its slot exactly once. */
  method ScanAmid(v: Volume, h: DirHandle, u: User, cmds: seq<Cmd>, nows: seq<nat>, ghost t: Nest)
    returns (out: seq<Ent>, done: bool, ghost dirs: seq<seq<Ent>>, ghost got: seq<nat>)
    requires Sys(v, t) && h !in v.Repr() && h.offset == 0 && h.inode < v.geo.inodeNum
    requires u.uid < LIMIT32 && u.gid < LIMIT32 && |nows| == |cmds|
    requires (forall i :: 0 <= i < |nows| ==> nows[i] < LIMIT64)
      && (forall i :: 0 <= i < |cmds| ==> WellFormed(cmds[i]))
    modifies v, v.io.Repr(), h
    ensures Answers(dirs, got, out) && forall i :: 0 <= i < |dirs| ==> |dirs[i]| == PerBlock(v.geo.blkSize)
    ensures done ==> Scan(dirs, got, PerBlock(v.geo.blkSize))
    ensures done ==> forall s: nat :: KeepsSlot(dirs, s) ==> Once(got, s)
  {
    hide Good, View, FsSized, Shaped, TreeBut, EntsOf, NextLive, ReadNext, WellFormed, TameCmd, OnDisk, Backs, Live,
      Broken, Scan, Scanning, Answers, KeepsSlot, Once;
    out, done, dirs, got := [], false, [], [];
    var n := h.inode;
    ghost var t', per := t, PerBlock(v.geo.blkSize);
    ScanBegins(per);
    var i := 0;
    while true
      invariant i <= |cmds| && Sys(v, t') && Scanning(dirs, got, per, h.offset) && Answers(dirs, got, out)
      decreases |cmds| - i
    {
      ghost var es, c := EntsIn(View(v), n), h.offset;
      ScanLengths(dirs, got, per, c);
      if IsParent(v.geo, View(v), n) {
        OneBlock(v.geo, View(v), t', n);
      }
      var err := Readdir(v, h);
      if err != Ok {
        return;
      }
      ScanGoesOn(dirs, got, per, c, es, h.offset, h.entry);
      AnswersOn(dirs, got, out, es, NextLive(es, c));
      dirs := dirs + [es];
      if !Live(h.entry) {
        done := true;
        ScanOnce(dirs, got, per);
        return;
      }
      out, got := out + [h.entry], got + [NextLive(es, c)];
      if i == |cmds| {
        return;
      }
      var r, bad;
      r, bad, t' := DoCmd(v, u, cmds[i], nows[i], t');
      i := i + 1;
      if bad {
        ScanLengths(dirs, got, per, h.offset);
        return;
      }
    }
  }

  lemma ScanBegins(n: nat)
    ensures Scanning([], [], n, 0) && Answers([], [], [])
  {
  }
}
