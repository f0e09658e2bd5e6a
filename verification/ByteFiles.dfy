/** Files as byte strings: what read, write and truncate mean without blocks. */
module ByteFiles {
  import opened Bytes
  import opened Layout
  import opened ListNodes
  import opened Allocator
  import opened FileBytes
  import opened FileData
  import opened FileOps

  /** `data` over the string `c` at `off`; a gap between the end of `c` and `off` is zeros. */
  function Overwritten(c: Block, off: nat, data: Block): (r: Block)
    ensures |r| == Most(|c|, off + |data|)
    ensures forall i :: 0 <= i < |r| ==>
      r[i] == if off <= i < off + |data| then data[i - off] else if i < |c| then c[i] else 0
  {
    seq(Most(|c|, off + |data|), i requires 0 <= i < Most(|c|, off + |data|) =>
      if off <= i < off + |data| then data[i - off] else if i < |c| then c[i] else 0)
  }

  /** The string cut to `size`, or made longer with zeros. */
  function Resize(c: Block, size: nat): (r: Block)
    ensures |r| == size
  {
    if size <= |c| then c[..size] else c + Zeros(size - |c|)
  }

  ghost predicate ZeroIn(raw: Block, from: nat, to: nat) {
    forall i :: from <= i < to && i < |raw| ==> raw[i] == 0
  }

  /** Nothing but zeros behind the last byte of the file. */
  ghost predicate TailClear(f: Fs, n: nat)
    requires n < |f.inodes| == |f.blocks|
  {
    ZeroIn(Flat(f.blocks[n]), f.inodes[n].size, |Flat(f.blocks[n])|)
  }

  /** The strings behind Patched. */
  lemma PatchedString(raw: Block, size: nat, end: nat, lo: nat, hi: nat, off: nat, data: Block)
    requires size <= end <= |raw| && lo <= off && off + |data| <= hi <= |raw|
    ensures var p := Patched(raw, size, end, lo, hi, off, data);
            && Most(size, off + |data|) <= |p|
            && (p[..Most(size, off + |data|)] == Overwritten(raw[..size], off, data) <==> ZeroIn(raw, size, lo))
            && (|raw| == Most(end, hi) && ZeroIn(raw, size, end) ==> ZeroIn(p, Most(size, off + |data|), |p|))
  {
    var p, o := Patched(raw, size, end, lo, hi, off, data), Overwritten(raw[..size], off, data);
    if p[..|o|] == o {
      forall i | size <= i < lo && i < |raw| ensures raw[i] == 0 {
        assert p[..|o|][i] == o[i];
      }
    }
  }

  lemma PatchOfString(blocks: seq<Block>, blocks': seq<Block>, bs: nat, size: nat, start: nat, req: nat, off: nat,
                      data: Block)
    requires PatchOf(blocks, blocks', bs, size, start, req, off, data)
    requires |Flat(blocks)| == Most(CeilDiv(size, bs) * bs, (start + req) * bs)
    ensures 0 <= start * bs && size <= |Flat(blocks)| && Most(size, off + |data|) <= |Flat(blocks')|
    ensures Flat(blocks')[..Most(size, off + |data|)] == Overwritten(Flat(blocks)[..size], off, data)
            <==> ZeroIn(Flat(blocks), size, start * bs)
    ensures ZeroIn(Flat(blocks), size, CeilDiv(size, bs) * bs) ==>
      ZeroIn(Flat(blocks'), Most(size, off + |data|), |Flat(blocks')|)
  {
    hide Flat, Patched, Overwritten, ZeroIn, CeilDiv;
    CeilDivBounds(size, bs);
    PatchedString(Flat(blocks), size, CeilDiv(size, bs) * bs, start * bs, (start + req) * bs, off, data);
  }

  /** The bytes an earlier owner left in the blocks a write skips. */
  ghost predicate SkippedZero(g: Geometry, f: Fs, n: nat, off: nat, stale: seq<Block>)
    requires g.blkSize > 0 && n < |f.inodes| == |f.blocks|
  {
    0 <= Quot(off, g.blkSize) * g.blkSize
      && ZeroIn(Flat(f.blocks[n] + stale), f.inodes[n].size, Quot(off, g.blkSize) * g.blkSize)
  }

  /** A write is the overwrite of the byte string exactly if the bytes it skips over are zero already; it keeps the tail
      clear. */
  lemma WroteBytes(g: Geometry, f: Fs, f': Fs, n: nat, off: nat, data: Block, now: nat, stale: seq<Block>)
    requires FsSized(g, f) && FsSized(g, f') && g.blkSize > 0 && PtrsPerNode(g.blkSize) > 0 && SizeOk(g, f, n)
    requires Wrote(g, f, f', n, off, data, now, stale)
    ensures BytesOf(f', n) == Overwritten(BytesOf(f, n), off, data) <==> SkippedZero(g, f, n, off, stale)
    ensures TailClear(f, n) ==> TailClear(f', n)
  {
    hide Flat, PatchOf, Overwritten, ZeroIn, Quot, CeilDiv, NodesFor;
    var bs, size, k, end := g.blkSize, f.inodes[n].size, |f.blocks[n]|, CeilDiv(off + |data|, g.blkSize);
    FsWhole(g, f, n);
    FsWhole(g, f', n);
    CeilDivBounds(size, bs);
    PatchLength(f.blocks[n] + stale, f'.blocks[n], bs, size, Quot(off, bs), end - Quot(off, bs), off, data);
    RawGrown(f.blocks[n], stale, bs, f'.blocks[n], size);
    MulMono(Least(k, end), Most(k, end), bs);
    PatchOfString(f.blocks[n] + stale, f'.blocks[n], bs, size, Quot(off, bs), end - Quot(off, bs), off, data);
  }

  /** Also where a write leaves a gap: what was written stands where it was written, and no byte the file had is
      another. */
  lemma WroteShows(g: Geometry, f: Fs, f': Fs, n: nat, off: nat, data: Block, now: nat, stale: seq<Block>)
    requires FsSized(g, f) && FsSized(g, f') && g.blkSize > 0 && PtrsPerNode(g.blkSize) > 0 && SizeOk(g, f, n)
    requires Wrote(g, f, f', n, off, data, now, stale)
    ensures |BytesOf(f', n)| == Most(|BytesOf(f, n)|, off + |data|) && ReadAt(BytesOf(f', n), off, |data|) == data
    ensures forall i :: 0 <= i < |BytesOf(f, n)| && !(off <= i < off + |data|) ==> BytesOf(f', n)[i] == BytesOf(f, n)[i]
  {
    hide Flat, PatchOf, Quot, CeilDiv, NodesFor, ReadAt;
    var bs, size, end := g.blkSize, f.inodes[n].size, CeilDiv(off + |data|, g.blkSize);
    FsWhole(g, f, n);
    FsWhole(g, f', n);
    CeilDivBounds(size, bs);
    PatchLength(f.blocks[n] + stale, f'.blocks[n], bs, size, Quot(off, bs), end - Quot(off, bs), off, data);
    RawGrown(f.blocks[n], stale, bs, f'.blocks[n], size);
    MulMono(|f.blocks[n]|, |f.blocks[n]| + |stale|, bs);
    PatchShows(f.blocks[n] + stale, f'.blocks[n], bs, size, Quot(off, bs), end - Quot(off, bs), off, data);
    assert BytesOf(f, n) == Flat(f.blocks[n] + stale)[..size];
    assert BytesOf(f', n) == Flat(f'.blocks[n])[..Most(size, off + |data|)];
  }

  lemma PatchShows(blocks: seq<Block>, blocks': seq<Block>, bs: nat, size: nat, start: nat, req: nat, off: nat,
                   data: Block)
    requires PatchOf(blocks, blocks', bs, size, start, req, off, data) && size <= |Flat(blocks)|
    ensures var p, all := Flat(blocks'), Most(size, off + |data|);
            && all <= |p| == |Flat(blocks)| && ReadAt(p[..all], off, |data|) == data
            && forall i :: 0 <= i < size && !(off <= i < off + |data|) ==> p[i] == Flat(blocks)[..size][i]
  {
    hide Flat, CeilDiv, Patched, ReadAt;
    CeilDivBounds(size, bs);
    PatchedShows(Flat(blocks), size, CeilDiv(size, bs) * bs, start * bs, (start + req) * bs, off, data);
  }

  lemma PatchedShows(raw: Block, size: nat, end: nat, lo: nat, hi: nat, off: nat, data: Block)
    requires size <= end <= |raw| && lo <= off && off + |data| <= hi <= |raw|
    ensures var p, all := Patched(raw, size, end, lo, hi, off, data), Most(size, off + |data|);
            && all <= |p| == |raw| && ReadAt(p[..all], off, |data|) == data
            && forall i :: 0 <= i < size && !(off <= i < off + |data|) ==> p[i] == raw[..size][i]
  {
    var p := Patched(raw, size, end, lo, hi, off, data);
    assert p[off..off + |data|] == data;
  }

  lemma ZeroPrefix(a: Block, b: Block, from: nat)
    ensures ZeroIn(a, from, |a|) <==> ZeroIn(a + b, from, |a|)
  {
    if ZeroIn(a + b, from, |a|) {
      forall i | from <= i < |a| ensures a[i] == 0 {
        assert (a + b)[i] == a[i];
      }
    }
  }

  lemma PatchLength(blocks: seq<Block>, blocks': seq<Block>, bs: nat, size: nat, start: nat, req: nat, off: nat,
                    data: Block)
    requires PatchOf(blocks, blocks', bs, size, start, req, off, data)
    ensures |Flat(blocks')| == |Flat(blocks)| && |blocks'| == |blocks|
  {
  }

  lemma RawGrown(blocks: seq<Block>, stale: seq<Block>, bs: nat, blocks': seq<Block>, size: nat)
    requires Whole(blocks, bs) && Whole(blocks', bs) && |blocks'| == |blocks| + |stale|
      && |Flat(blocks')| == |Flat(blocks + stale)|
    requires size <= |Flat(blocks)|
    ensures |Flat(blocks + stale)| == (|blocks| + |stale|) * bs && |Flat(blocks)| == |blocks| * bs
    ensures Flat(blocks + stale)[..size] == Flat(blocks)[..size]
    ensures ZeroIn(Flat(blocks), size, |Flat(blocks)|) <==> ZeroIn(Flat(blocks + stale), size, |Flat(blocks)|)
  {
    hide Flat, Whole;
    FlatAppend(blocks, stale);
    ZeroPrefix(Flat(blocks), Flat(stale), size);
    FlatLength(blocks, bs);
    FlatLength(blocks', bs);
  }

  /** A write that skips no whole block finds only cleared bytes: the gap lies in the last block of the file. */
  lemma NoSkip(g: Geometry, f: Fs, n: nat, off: nat, stale: seq<Block>)
    requires FsSized(g, f) && g.blkSize > 0 && SizeOk(g, f, n) && TailClear(f, n)
      && Quot(off, g.blkSize) <= |f.blocks[n]|
    ensures SkippedZero(g, f, n, off, stale)
  {
    hide Flat, Quot, CeilDiv;
    FsWhole(g, f, n);
    FlatAppend(f.blocks[n], stale);
    ZeroPrefix(Flat(f.blocks[n]), Flat(stale), f.inodes[n].size);
    MulMono(Quot(off, g.blkSize), |f.blocks[n]|, g.blkSize);
    MulMono(0, Quot(off, g.blkSize), g.blkSize);
  }

  /** The bytes between the end of the file and the first block written, as far as the file has blocks, are zero. */
  ghost predicate GapClear(g: Geometry, f: Fs, n: nat, off: nat)
    requires g.blkSize > 0 && n < |f.inodes| == |f.blocks|
  {
    && Quot(off, g.blkSize) <= |f.blocks[n]|
    && 0 <= Quot(off, g.blkSize) * g.blkSize
    && ZeroIn(Flat(f.blocks[n]), f.inodes[n].size, Quot(off, g.blkSize) * g.blkSize)
  }

  lemma GapIsSkipped(g: Geometry, f: Fs, n: nat, off: nat, stale: seq<Block>)
    requires FsSized(g, f) && g.blkSize > 0 && n < g.inodeNum && Quot(off, g.blkSize) <= |f.blocks[n]|
    ensures SkippedZero(g, f, n, off, stale) <==> GapClear(g, f, n, off)
  {
    hide Flat, Quot;
    var bs, k, q := g.blkSize, |f.blocks[n]|, Quot(off, g.blkSize);
    FsWhole(g, f, n);
    FlatAppend(f.blocks[n], stale);
    MulMono(q, k, bs);
    MulMono(0, q, bs);
    ZeroFront(Flat(f.blocks[n]), Flat(stale), f.inodes[n].size, q * bs);
  }

  lemma ZeroFront(a: Block, b: Block, from: nat, to: nat)
    requires to <= |a|
    ensures ZeroIn(a, from, to) <==> ZeroIn(a + b, from, to)
  {
    if ZeroIn(a + b, from, to) {
      forall i | from <= i < to ensures a[i] == 0 {
        assert (a + b)[i] == a[i];
      }
    }
  }

  /** Whatever the new blocks hold, a write is zero-filled exactly if it starts no further out than the block after the
      last and the file has zeros behind its end up to there; if it has zeros behind its end at all, the place
      decides. */
  lemma GapExact(g: Geometry, f: Fs, n: nat, off: nat, c: nat)
    requires FsSized(g, f) && g.blkSize > 0 && SizeOk(g, f, n)
    requires n < g.inodeNum && |f.blocks[n]| + c > Quot(off, g.blkSize)
    ensures (forall stale :: Whole(stale, g.blkSize) && |stale| == c ==> SkippedZero(g, f, n, off, stale))
            <==> GapClear(g, f, n, off)
    ensures TailClear(f, n) ==> (GapClear(g, f, n, off) <==> Quot(off, g.blkSize) <= |f.blocks[n]|)
  {
    hide Flat, Quot, CeilDiv;
    var bs, k := g.blkSize, |f.blocks[n]|;
    var stale := seq(c, _ => Sevens(bs));
    FsWhole(g, f, n);
    FlatAppend(f.blocks[n], stale);
    FlatLength(stale, bs);
    CeilDivBounds(f.inodes[n].size, bs);
    if Quot(off, bs) <= k {
      forall s | Whole(s, bs) && |s| == c ensures SkippedZero(g, f, n, off, s) <==> GapClear(g, f, n, off) {
        GapIsSkipped(g, f, n, off, s);
      }
      assert Whole(stale, bs) && |stale| == c;
      if TailClear(f, n) {
        NoSkip(g, f, n, off, stale);
      }
    } else {
      FlatUpdate(stale, bs, 0, Sevens(bs));
      MulMono(k, Quot(off, bs), bs);
      assert Flat(f.blocks[n] + stale)[k * bs] == Flat(stale)[0] == Sevens(bs)[0];
      assert Whole(stale, bs) && |stale| == c && !SkippedZero(g, f, n, off, stale);
    }
  }

  /** A file with something behind its end shows it after a write that starts with the block after its last. */
  lemma TailShows(g: Geometry, f: Fs, n: nat, stale: seq<Block>)
    requires FsSized(g, f) && g.blkSize > 0 && n < g.inodeNum && !TailClear(f, n)
    ensures 0 <= |f.blocks[n]| * g.blkSize && !SkippedZero(g, f, n, |f.blocks[n]| * g.blkSize, stale)
  {
    hide Flat, Quot;
    var bs, k := g.blkSize, |f.blocks[n]|;
    FsWhole(g, f, n);
    QuotRemUnique(k * bs, bs, k, 0);
    GapIsSkipped(g, f, n, k * bs, stale);
  }

  function Sevens(n: nat): (b: Block)
    ensures |b| == n && forall i :: 0 <= i < n ==> b[i] == 7
  {
    seq(n, _ => 7)
  }

  /** Shrinking a file cuts its string. */
  lemma CutBytes(g: Geometry, f: Fs, f': Fs, n: nat, size: nat, now: nat)
    requires g.blkSize > 0 && PtrsPerNode(g.blkSize) > 0 && SizeOk(g, f, n) && size < f.inodes[n].size
    requires CutBack(g, f, f', n, size, now) && FsSized(g, f)
    ensures BytesOf(f', n) == Resize(BytesOf(f, n), size) && TailClear(f', n)
  {
    hide Flat, CeilDiv, NodesFor;
    FsWhole(g, f, n);
    CeilDivBounds(f.inodes[n].size, g.blkSize);
    CeilDivBounds(size, g.blkSize);
  }

  /** A shrink that failed keeps the bytes below the new size and the length. */
  lemma CutFailedBytes(g: Geometry, f: Fs, f': Fs, n: nat, size: nat)
    requires g.blkSize > 0 && SizeOk(g, f, n) && size < f.inodes[n].size && CutFailed(g, f, f', n, size)
      && FsSized(g, f)
      && FsSized(g, f')
    ensures |BytesOf(f', n)| == |BytesOf(f, n)| == f.inodes[n].size && BytesOf(f', n)[..size] == BytesOf(f, n)[..size]
  {
    hide Flat, CeilDiv;
    var keep, b := CeilDiv(size, g.blkSize), f'.blocks[n];
    FsWhole(g, f, n);
    FsWhole(g, f', n);
    CeilDivBounds(f.inodes[n].size, g.blkSize);
    FlatAppend(b[..keep], b[keep..]);
    assert b == b[..keep] + b[keep..];
  }

  /** The bytes of `a` and `b` from `from` up to `to` are the same. */
  ghost predicate Agree(a: Block, b: Block, from: nat, to: nat) {
    forall i :: from <= i < to && i < |a| && i < |b| ==> a[i] == b[i]
  }

  lemma LostString(raw: Block, rest: Block, size: nat, hi: nat, end: nat)
    requires size <= hi <= |raw| == |rest| && size <= end <= |raw|
    ensures (raw[..size] + Zeros(hi - size) + rest[hi..])[..end] == raw[..end]
            <==> ZeroIn(raw[..end], size, hi) && Agree(rest, raw[..end], hi, end)
  {
    var l := raw[..size] + Zeros(hi - size) + rest[hi..];
    forall i | 0 <= i < |raw| ensures l[i] == if i < size then raw[i] else if i < hi then 0 else rest[i] {
    }
    if l[..end] == raw[..end] {
      forall i | size <= i < end ensures l[i] == raw[i] {
        assert l[..end][i] == raw[..end][i];
      }
    }
  }

  lemma LostFlat(g: Geometry, f: Fs, f': Fs, disk: seq<seq<Block>>, n: nat, size: nat, cached: bool)
    requires g.blkSize > 0 && FsSized(g, f) && n < g.inodeNum && CutLost(g, f, f', disk, n, size, cached)
    ensures |Flat(disk[n])| == |Flat(f.blocks[n])|
      && size <= CeilDiv(size, g.blkSize) * g.blkSize <= |Flat(f.blocks[n])|
    ensures var hi := CeilDiv(size, g.blkSize) * g.blkSize;
            Flat(f'.blocks[n]) == Flat(f.blocks[n])[..size] + Zeros(hi - size)
                                  + (if cached then Flat(disk[n]) else Flat(f.blocks[n]))[hi..]
  {
    hide Flat, CeilDiv, TailZeroed, Zeros;
    var bs, keep, was := g.blkSize, CeilDiv(size, g.blkSize), f.blocks[n];
    var rest := if cached then disk[n] else was;
    FsWhole(g, f, n);
    FlatLength(disk[n], bs);
    CutBlocks(was, bs, size);
    FlatSlice(rest, bs, keep, |rest|);
    var kept := TailZeroed(was, bs, size)[..keep];
    assert rest[keep..|rest|] == rest[keep..];
    assert f'.blocks[n] == kept + rest[keep..];
    FlatAppend(kept, rest[keep..]);
  }

  /** A failed shrink keeps the string exactly if the tail it cleared was zero and, with a cache, the blocks it was to
      release showed what the device holds of them. */
  lemma CutLostExact(g: Geometry, f: Fs, f': Fs, disk: seq<seq<Block>>, n: nat, size: nat, cached: bool)
    requires g.blkSize > 0 && SizeOk(g, f, n) && FsSized(g, f) && n < g.inodeNum && size < f.inodes[n].size
    requires CutLost(g, f, f', disk, n, size, cached)
    ensures var hi := CeilDiv(size, g.blkSize) * g.blkSize;
            BytesOf(f', n) == BytesOf(f, n) <==>
              && ZeroIn(BytesOf(f, n), size, hi)
              && (cached ==> Agree(Flat(disk[n]), BytesOf(f, n), hi, f.inodes[n].size))
  {
    hide Flat, CeilDiv, TailZeroed, Zeros, ZeroIn, Agree;
    FsWhole(g, f, n);
    CeilDivBounds(f.inodes[n].size, g.blkSize);
    LostFlat(g, f, f', disk, n, size, cached);
    var raw, hi := Flat(f.blocks[n]), CeilDiv(size, g.blkSize) * g.blkSize;
    LostString(raw, if cached then Flat(disk[n]) else raw, size, hi, f.inodes[n].size);
    SelfAgree(raw, raw, hi, f.inodes[n].size);
  }

  /** What a failed shrink leaves behind the end of the file: with a cache the last block is as the device has it, also
      there. */
  lemma CutTailExact(g: Geometry, f: Fs, f': Fs, disk: seq<seq<Block>>, n: nat, size: nat, cached: bool)
    requires g.blkSize > 0 && SizeOk(g, f, n) && FsSized(g, f) && n < g.inodeNum && size < f.inodes[n].size
    requires CutLost(g, f, f', disk, n, size, cached)
    ensures var raw := if cached then Flat(disk[n]) else Flat(f.blocks[n]);
            TailClear(f', n) <==> ZeroIn(raw, Most(f.inodes[n].size, CeilDiv(size, g.blkSize) * g.blkSize), |raw|)
  {
    hide Flat, CeilDiv, TailZeroed;
    LostFlat(g, f, f', disk, n, size, cached);
    var raw, hi := if cached then Flat(disk[n]) else Flat(f.blocks[n]), CeilDiv(size, g.blkSize) * g.blkSize;
    LostTail(Flat(f.blocks[n]), raw, size, hi, f.inodes[n].size);
  }

  lemma LostTail(raw: Block, rest: Block, size: nat, hi: nat, end: nat)
    requires size <= hi <= |raw| == |rest| && size <= end
    ensures ZeroIn(raw[..size] + Zeros(hi - size) + rest[hi..], end, |raw|) <==> ZeroIn(rest, Most(end, hi), |rest|)
  {
    var l := raw[..size] + Zeros(hi - size) + rest[hi..];
    forall i | 0 <= i < |raw| ensures l[i] == if i < size then raw[i] else if i < hi then 0 else rest[i] {
    }
    if ZeroIn(l, end, |raw|) {
      forall i | Most(end, hi) <= i < |rest| ensures rest[i] == 0 {
        assert l[i] == rest[i];
      }
    }
  }

  lemma SelfAgree(a: Block, b: Block, from: nat, to: nat)
    requires to <= |a| == |b| && from <= |a| && a[from..] == b[from..]
    ensures Agree(a, b[..to], from, to)
  {
    forall i | from <= i < to ensures a[i] == b[i] {
      assert a[i] == a[from..][i - from] && b[i] == b[from..][i - from];
    }
  }

  lemma SameTail(a: seq<Block>, b: seq<Block>, bs: nat, k: nat)
    requires Whole(a, bs) && Whole(b, bs) && k <= |a| == |b| && a[k..] == b[k..]
    ensures 0 <= k * bs <= |Flat(a)| == |Flat(b)| && Flat(a)[k * bs..] == Flat(b)[k * bs..]
  {
    hide Flat;
    FlatLength(a, bs);
    FlatLength(b, bs);
    MulMono(k, |a|, bs);
    TailOf(a, bs, k);
    TailOf(b, bs, k);
  }

  lemma ZeroTails(a: Block, b: Block, from: nat, end: nat)
    requires from <= |a| == |b| && a[from..] == b[from..]
    ensures ZeroIn(b, end, |b|) ==> ZeroIn(a, Most(end, from), |a|)
  {
    forall i | from <= i < |a| ensures a[i] == b[i] {
      assert a[i] == a[from..][i - from] && b[i] == b[from..][i - from];
    }
  }

  lemma TailOf(a: seq<Block>, bs: nat, k: nat)
    requires Whole(a, bs) && k <= |a|
    ensures 0 <= k * bs <= |Flat(a)| && Flat(a)[k * bs..] == Flat(a[k..])
  {
    hide Flat;
    assert a == a[..k] + a[k..];
    FlatAppend(a[..k], a[k..]);
    FlatLength(a[..k], bs);
  }

  /** What the caller can see to: after a flush, or without a cache, the cleared tail alone decides. */
  lemma FlushedCutExact(g: Geometry, f: Fs, f': Fs, was: seq<seq<Block>>, disk: seq<seq<Block>>, n: nat, size: nat,
                        cached: bool)
    requires g.blkSize > 0 && SizeOk(g, f, n) && FsSized(g, f) && n < g.inodeNum && size < f.inodes[n].size
    requires CutLost(g, f, f', disk, n, size, cached) && Backs(f.blocks, was, disk, n, CeilDiv(size, g.blkSize) - 1)
    requires !cached || was[n] == f.blocks[n]
    ensures BytesOf(f', n) == BytesOf(f, n) <==> ZeroIn(BytesOf(f, n), size, CeilDiv(size, g.blkSize) * g.blkSize)
    ensures TailClear(f, n) ==> TailClear(f', n)
  {
    hide Flat, CeilDiv, TailZeroed, Zeros, Agree;
    CutLostExact(g, f, f', disk, n, size, cached);
    CutTailExact(g, f, f', disk, n, size, cached);
    if cached {
      var bs, keep, k := g.blkSize, CeilDiv(size, g.blkSize), |f.blocks[n]|;
      FsWhole(g, f, n);
      CeilDivBounds(f.inodes[n].size, bs);
      FlatLength(f.blocks[n], bs);
      assert disk[n][keep..] == f.blocks[n][keep..];
      SameTail(disk[n], f.blocks[n], bs, keep);
      SelfAgree(Flat(disk[n]), Flat(f.blocks[n]), keep * bs, f.inodes[n].size);
      ZeroTails(Flat(disk[n]), Flat(f.blocks[n]), keep * bs, f.inodes[n].size);
    }
  }

  /** Lengthening a file appends zeros, whatever the new blocks held. */
  lemma LengthenedBytes(g: Geometry, f: Fs, f': Fs, n: nat, size: nat, now: nat, stale: seq<Block>)
    requires FsSized(g, f) && FsSized(g, f') && g.blkSize > 0 && PtrsPerNode(g.blkSize) > 0 && SizeOk(g, f, n)
      && size > f.inodes[n].size
    requires Lengthened(g, f, f', n, size, now, stale)
    ensures BytesOf(f', n) == Resize(BytesOf(f, n), size)
    ensures TailClear(f, n) ==> TailClear(f', n)
  {
    hide Flat, PatchOf, Overwritten, ZeroIn, Quot, CeilDiv, NodesFor;
    var bs, was, k, end := g.blkSize, f.inodes[n].size, |f.blocks[n]|, CeilDiv(size, g.blkSize);
    FsWhole(g, f, n);
    FsWhole(g, f', n);
    CeilDivBounds(was, bs);
    ZeroSpan(was, size, bs);
    PatchLength(f.blocks[n] + stale, f'.blocks[n], bs, was, Quot(was, bs), end - Quot(was, bs), size, []);
    RawGrown(f.blocks[n], stale, bs, f'.blocks[n], was);
    MulMono(Least(k, end), Most(k, end), bs);
    PatchOfString(f.blocks[n] + stale, f'.blocks[n], bs, was, Quot(was, bs), end - Quot(was, bs), size, []);
    NoGap(Flat(f.blocks[n] + stale), was, Quot(was, bs) * bs);
    NoData(BytesOf(f, n), size);
  }

  lemma NoGap(raw: Block, from: nat, to: nat)
    requires to <= from
    ensures ZeroIn(raw, from, to)
  {
  }

  lemma NoData(c: Block, size: nat)
    requires |c| <= size
    ensures Overwritten(c, size, []) == Resize(c, size)
  {
  }

  /** What was written is read back, and a read that stays clear of it sees the old bytes. */
  lemma ReadBack(c: Block, off: nat, data: Block, at: nat, len: nat)
    ensures ReadAt(Overwritten(c, off, data), off, |data|) == data
    ensures at + len <= off && at + len <= |c| ==> ReadAt(Overwritten(c, off, data), at, len) == ReadAt(c, at, len)
    ensures off + |data| <= at && off + |data| <= |c| ==>
      ReadAt(Overwritten(c, off, data), at, len) == ReadAt(c, at, len)
  {
    var o := Overwritten(c, off, data);
    if data != [] {
      assert o[off..off + |data|] == data;
    }
    if at + len <= off && at + len <= |c| && len > 0 {
      assert o[at..at + len] == c[at..at + len];
    }
    if off + |data| <= at < |c| {
      assert |o| == |c| && o[at..Least(at + len, |c|)] == c[at..Least(at + len, |c|)];
    }
  }

  /** Writing twice to one place leaves the second; cutting and lengthening again leaves zeros. */
  lemma RewriteLaws(c: Block, off: nat, a: Block, b: Block, m: nat, n: nat)
    requires |a| == |b| && m <= n
    ensures Overwritten(Overwritten(c, off, a), off, b) == Overwritten(c, off, b)
    ensures Resize(Resize(c, m), n) == if m <= |c| then c[..m] + Zeros(n - m) else c + Zeros(n - |c|)
  {
    assert Overwritten(Overwritten(c, off, a), off, b) == Overwritten(c, off, b);
    if n == m {
      assert Resize(c, m) + Zeros(0) == Resize(c, m);
    }
  }
}
