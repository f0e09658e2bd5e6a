/** A file as one string of bytes: its blocks laid end to end. */
module FileBytes {
  import opened Bytes

  function Flat(blocks: seq<Block>): Block {
    if blocks == [] then [] else blocks[0] + Flat(blocks[1..])
  }

  ghost predicate Whole(blocks: seq<Block>, bs: nat) {
    forall k :: 0 <= k < |blocks| ==> |blocks[k]| == bs
  }

  lemma {:induction false} FlatLength(blocks: seq<Block>, bs: nat)
    requires Whole(blocks, bs)
    ensures |Flat(blocks)| == |blocks| * bs
  {
    if blocks != [] {
      FlatLength(blocks[1..], bs);
      assert |blocks| * bs == (|blocks| - 1) * bs + bs;
    }
  }

  lemma {:induction false} FlatAppend(a: seq<Block>, b: seq<Block>)
    ensures Flat(a + b) == Flat(a) + Flat(b)
  {
    if a == [] {
      assert a + b == b;
    } else {
      assert (a + b)[1..] == a[1..] + b;
      FlatAppend(a[1..], b);
    }
  }

  lemma FlatOne(d: Block)
    ensures Flat([d]) == d
  {
    assert Flat([d]) == d + Flat([]);
  }

  /** A run of blocks is the matching run of bytes. */
  lemma FlatSlice(blocks: seq<Block>, bs: nat, i: nat, j: nat)
    requires Whole(blocks, bs) && i <= j <= |blocks|
    ensures i * bs <= j * bs <= |Flat(blocks)| == |blocks| * bs
    ensures Flat(blocks[i..j]) == Flat(blocks)[i * bs..j * bs]
  {
    var a, b, c := blocks[..i], blocks[i..j], blocks[j..];
    assert blocks == a + b + c;
    FlatAppend(a + b, c);
    FlatAppend(a, b);
    FlatLength(a, bs);
    FlatLength(b, bs);
    FlatLength(blocks, bs);
    MulAdd(i, j - i, bs);
    MulMono(j, |blocks|, bs);
  }

  lemma SpliceParts(f: Block, p: nat, g: Block, q: nat)
    requires q == p + |g| <= |f|
    ensures Splice(f, p, g) == f[0..p] + g + f[q..|f|]
  {
  }

  lemma FlatThree(a: seq<Block>, b: seq<Block>, c: seq<Block>)
    ensures Flat(a + b + c) == Flat(a) + Flat(b) + Flat(c)
  {
    FlatAppend(a + b, c);
    FlatAppend(a, b);
  }

  /** Replacing a run of blocks splices the bytes. */
  lemma FlatReplace(blocks: seq<Block>, bs: nat, i: nat, news: seq<Block>)
    requires Whole(blocks, bs) && Whole(news, bs) && i + |news| <= |blocks|
    ensures i * bs + |Flat(news)| <= |Flat(blocks)|
    ensures Flat(blocks[..i] + news + blocks[i + |news|..]) == Splice(Flat(blocks), i * bs, Flat(news))
  {
    hide Flat, Whole, Splice;
    var j := i + |news|;
    FlatSlice(blocks, bs, 0, i);
    FlatSlice(blocks, bs, j, |blocks|);
    FlatLength(news, bs);
    MulAdd(i, |news|, bs);
    assert blocks[0..i] == blocks[..i];
    assert blocks[j..|blocks|] == blocks[j..];
    FlatThree(blocks[..i], news, blocks[j..]);
    SpliceParts(Flat(blocks), i * bs, Flat(news), j * bs);
  }

  lemma FlatUpdate(blocks: seq<Block>, bs: nat, k: nat, d: Block)
    requires Whole(blocks, bs) && k < |blocks| && |d| == bs
    ensures k * bs + bs <= |Flat(blocks)| == |blocks| * bs
    ensures Flat(blocks[k := d]) == Splice(Flat(blocks), k * bs, d)
    ensures blocks[k] == Flat(blocks)[k * bs..k * bs + bs]
  {
    hide Flat, Splice;
    FlatReplace(blocks, bs, k, [d]);
    FlatOne(d);
    FlatOne(blocks[k]);
    FlatSlice(blocks, bs, k, k + 1);
    MulAdd(k, 1, bs);
    assert blocks[k := d] == blocks[..k] + [d] + blocks[k + 1..];
    assert blocks[k..k + 1] == [blocks[k]];
  }

  lemma SpliceGrow(b: Block, off: nat, p: Block, q: Block)
    requires off + |p| + |q| <= |b|
    ensures Splice(Splice(b, off, p), off + |p|, q) == Splice(b, off, p + q)
  {
  }

  /** The bytes [from, from + len) of a file whose first `end` bytes are mapped, zeros past that. */
  function Window(raw: Block, end: nat, from: nat, len: nat): (w: Block)
    requires end <= |raw|
    ensures |w| == len
    ensures forall j :: 0 <= j < len ==> w[j] == if from + j < end then raw[from + j] else 0
  {
    seq(len, j requires 0 <= j < len => if from + j < end then raw[from + j] else 0)
  }

  lemma WindowGrow(raw: Block, end: nat, from: nat, len: nat, more: nat)
    requires end <= |raw|
    ensures Window(raw, end, from, len + more) == Window(raw, end, from, len) + Window(raw, end, from + len, more)
  {
  }

  lemma WindowZero(raw: Block, end: nat, from: nat, len: nat)
    requires end <= |raw|
    ensures end <= from ==> Window(raw, end, from, len) == Zeros(len)
    ensures from + len <= end ==> Window(raw, end, from, len) == raw[from..from + len]
  {
  }

  /** The bytes of a file after `data` went to `off` through the block window [lo, hi): the gap after byte `size` is
      zeroed as far as the window reaches, and so are the bytes of the window past the `end` bytes that were mapped
      before. */
  function Patched(raw: Block, size: nat, end: nat, lo: nat, hi: nat, off: nat, data: Block): (r: Block)
    requires end <= |raw| && lo <= off && off + |data| <= hi <= |raw|
    ensures |r| == |raw|
    ensures forall i :: 0 <= i < |r| ==>
      r[i] == if off <= i < off + |data| then data[i - off]
              else if !(lo <= i < hi) then raw[i]
              else if size <= i < off || end <= i then 0
              else raw[i]
  {
    seq(|raw|, i requires 0 <= i < |raw| =>
      if off <= i < off + |data| then data[i - off]
      else if !(lo <= i < hi) then raw[i]
      else if size <= i < off || end <= i then 0
      else raw[i])
  }

  /** memset of the gap between byte `size` and byte `off` of the file in a buffer that starts at byte `lo`. */
  function ZeroGap(buf: Block, size: nat, lo: nat, off: nat): (r: Block)
    requires lo <= off <= lo + |buf|
    ensures |r| == |buf|
  {
    if size < off then
      var from := if size > lo then size else lo;
      Splice(buf, from - lo, Zeros(off - from))
    else buf
  }

  /** Preload, zero the gap, copy the data, write back. */
  lemma PatchedSteps(raw: Block, size: nat, end: nat, lo: nat, hi: nat, off: nat, data: Block)
    requires size <= end <= |raw| && lo <= off && off + |data| <= hi <= |raw|
    ensures Splice(raw, lo, Splice(ZeroGap(Window(raw, end, lo, hi - lo), size, lo, off), off - lo, data))
            == Patched(raw, size, end, lo, hi, off, data)
  {
  }

  /** Blocks of one size are told apart by the bytes they make. */
  lemma FlatInjective(a: seq<Block>, b: seq<Block>, bs: nat)
    requires Whole(a, bs) && Whole(b, bs) && |a| == |b| && Flat(a) == Flat(b)
    ensures a == b
  {
    hide Flat;
    forall k | 0 <= k < |a| ensures a[k] == b[k] {
      FlatUpdate(a, bs, k, a[k]);
      FlatUpdate(b, bs, k, b[k]);
    }
  }
}
