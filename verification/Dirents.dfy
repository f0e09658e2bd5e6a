/** Directory entries: 28 bytes of name, a 32-bit inode number, packed into blocks. */
module Dirents {
  import opened Bytes
  import opened Layout
  import opened FileBytes

  const ENTRY_SIZE: nat := 32
  const FILENAME_LEN: nat := 28

  datatype Ent = Ent(name: Block, ino: nat)

  const NONE: Ent := Ent([], 0)

  function Dot(): Block { [46] }

  function DotDot(): Block { [46, 46] }

  predicate IsDots(name: Block) {
    name == Dot() || name == DotDot()
  }

  /** A C string: no zero byte in it. */
  predicate CString(name: Block) {
    forall i :: 0 <= i < |name| ==> name[i] != 0
  }

  /** An entry in use: neither a tombstone nor a slot never written. */
  predicate Live(e: Ent) {
    e.ino != 0 && e.name != []
  }

  /** The bytes before the first zero byte. */
  function CStr(b: Block): Block {
    if b == [] || b[0] == 0 then [] else [b[0]] + CStr(b[1..])
  }

  lemma {:induction false} CStrOfPadded(name: Block, pad: Block)
    requires CString(name) && (pad == [] || pad[0] == 0)
    ensures CStr(name + pad) == name
  {
    if name == [] {
      assert name + pad == pad;
    } else {
      CStrOfPadded(name[1..], pad);
      assert (name + pad)[1..] == name[1..] + pad;
      assert name == [name[0]] + name[1..];
    }
  }

  function EntryBytes(e: Ent): (b: Block)
    requires |e.name| < FILENAME_LEN
    ensures |b| == ENTRY_SIZE
  {
    e.name + Zeros(FILENAME_LEN - |e.name|) + Le(e.ino, 4)
  }

  function EntryOf(b: Block): Ent
    requires |b| == ENTRY_SIZE
  {
    Ent(CStr(b[..FILENAME_LEN]), U32(b, FILENAME_LEN))
  }

  /** Reading an entry back gives the name and the number that were stored. */
  lemma EntryRoundTrip(e: Ent)
    requires CString(e.name) && |e.name| < FILENAME_LEN && e.ino < LIMIT32
    ensures EntryOf(EntryBytes(e)) == e
  {
    hide CStr;
    var b := EntryBytes(e);
    assert b[..FILENAME_LEN] == e.name + Zeros(FILENAME_LEN - |e.name|);
    assert b[FILENAME_LEN..FILENAME_LEN + 4] == Le(e.ino, 4);
    CStrOfPadded(e.name, Zeros(FILENAME_LEN - |e.name|));
    WordSizes();
    FromLeOfLe(e.ino, 4);
  }

  lemma ZeroEntry()
    ensures EntryBytes(NONE) == Zeros(ENTRY_SIZE)
  {
    assert Le(0, 4) == [0, 0, 0, 0] by {
      assert Le(0, 1) == [0] + Le(0, 0);
      assert Le(0, 2) == [0] + Le(0, 1);
      assert Le(0, 3) == [0] + Le(0, 2);
    }
    assert EntryBytes(NONE) == [] + Zeros(28) + [0, 0, 0, 0];
  }

  /** Entries a block of `bs` bytes holds. */
  function PerBlock(bs: nat): nat {
    bs / ENTRY_SIZE
  }

  function SlotBytes(b: Block, j: nat): (s: Block)
    requires j < PerBlock(|b|)
    ensures |s| == ENTRY_SIZE
  {
    b[ENTRY_SIZE * j..ENTRY_SIZE * j + ENTRY_SIZE]
  }

  function Entries(b: Block): (es: seq<Ent>)
    ensures |es| == PerBlock(|b|)
    ensures forall j :: 0 <= j < |es| ==> es[j] == EntryOf(SlotBytes(b, j))
  {
    seq(PerBlock(|b|), j requires 0 <= j < PerBlock(|b|) => EntryOf(SlotBytes(b, j)))
  }

  function PutSlot(b: Block, j: nat, e: Ent): (r: Block)
    requires j < PerBlock(|b|) && |e.name| < FILENAME_LEN
    ensures |r| == |b|
  {
    Splice(b, ENTRY_SIZE * j, EntryBytes(e))
  }

  /** Writing one slot changes that entry and no other. */
  lemma PutSlotEntries(b: Block, j: nat, e: Ent)
    requires j < PerBlock(|b|) && CString(e.name) && |e.name| < FILENAME_LEN && e.ino < LIMIT32
    ensures Entries(PutSlot(b, j, e)) == Entries(b)[j := e]
  {
    hide EntryBytes, EntryOf;
    EntryRoundTrip(e);
    forall i | 0 <= i < PerBlock(|b|)
      ensures SlotBytes(PutSlot(b, j, e), i) == if i == j then EntryBytes(e) else SlotBytes(b, i)
    {
      SpliceSlices(b, ENTRY_SIZE * j, EntryBytes(e), ENTRY_SIZE * i, ENTRY_SIZE * i + ENTRY_SIZE);
    }
  }

  lemma ZeroEntries(n: nat)
    ensures Entries(Zeros(n)) == seq(PerBlock(n), _ => NONE)
  {
    ZeroEntry();
    EntryRoundTrip(NONE);
    forall j | 0 <= j < PerBlock(n) ensures SlotBytes(Zeros(n), j) == Zeros(ENTRY_SIZE) {
    }
  }

  /** The entries of a directory, block after block. */
  function EntsOf(blocks: seq<Block>): seq<Ent> {
    if blocks == [] then [] else EntsOf(blocks[..|blocks| - 1]) + Entries(blocks[|blocks| - 1])
  }

  lemma {:induction false} EntsPrefix(blocks: seq<Block>, k: nat)
    requires k < |blocks|
    ensures EntsOf(blocks[..k + 1]) == EntsOf(blocks[..k]) + Entries(blocks[k])
    ensures EntsOf(blocks[..k + 1]) <= EntsOf(blocks)
    decreases |blocks|
  {
    hide Entries;
    assert blocks[..k + 1][..k] == blocks[..k];
    if k + 1 < |blocks| {
      var most := blocks[..|blocks| - 1];
      EntsPrefix(most, k);
      assert most[..k + 1] == blocks[..k + 1] && most[..k] == blocks[..k];
    } else {
      assert blocks[..k + 1] == blocks;
    }
  }

  lemma {:induction false} EntsLength(blocks: seq<Block>, bs: nat)
    requires Whole(blocks, bs)
    ensures |EntsOf(blocks)| == |blocks| * PerBlock(bs)
  {
    if blocks != [] {
      EntsLength(blocks[..|blocks| - 1], bs);
      MulAdd(|blocks| - 1, 1, PerBlock(bs));
    }
  }

  lemma {:induction false} EntsAppend(a: seq<Block>, b: seq<Block>)
    ensures EntsOf(a + b) == EntsOf(a) + EntsOf(b)
    decreases |b|
  {
    hide Entries;
    if b == [] {
      assert a + b == a;
    } else {
      EntsAppend(a, b[..|b| - 1]);
      assert (a + b)[..|a + b| - 1] == a + b[..|b| - 1];
    }
  }

  lemma EntsThree(a: seq<Block>, x: Block, c: seq<Block>)
    ensures EntsOf(a + [x] + c) == EntsOf(a) + Entries(x) + EntsOf(c)
  {
    hide Entries;
    EntsAppend(a + [x], c);
    assert (a + [x])[..|a|] == a;
  }

  lemma Middle(a: seq<Ent>, x: seq<Ent>, c: seq<Ent>)
    ensures (a + x + c)[..|a|] == a && (a + x + c)[|a| + |x|..] == c
    ensures forall j :: 0 <= j < |x| ==> (a + x + c)[|a| + j] == x[j]
  {
  }

  /** The entry in slot `j` of block `k`, and what replacing that block does to the directory. */
  lemma EntsAt(blocks: seq<Block>, bs: nat, k: nat, b: Block)
    requires Whole(blocks, bs) && k < |blocks| && |b| == bs
    ensures 0 <= k * PerBlock(bs) && k * PerBlock(bs) + PerBlock(bs) <= |EntsOf(blocks)|
    ensures forall j :: 0 <= j < PerBlock(bs) ==> EntsOf(blocks)[k * PerBlock(bs) + j] == Entries(blocks[k])[j]
    ensures EntsOf(blocks[k := b])
      == EntsOf(blocks)[..k * PerBlock(bs)] + Entries(b) + EntsOf(blocks)[k * PerBlock(bs) + PerBlock(bs)..]
  {
    hide Entries, EntsOf;
    var a, c := blocks[..k], blocks[k + 1..];
    assert blocks == a + [blocks[k]] + c && blocks[k := b] == a + [b] + c;
    EntsThree(a, blocks[k], c);
    EntsThree(a, b, c);
    EntsLength(a, bs);
    MulMono(0, k, PerBlock(bs));
    Middle(EntsOf(a), Entries(blocks[k]), EntsOf(c));
  }

  /** Writing slot `j` of block `k` changes one entry of the directory. */
  lemma EntsPut(blocks: seq<Block>, bs: nat, k: nat, j: nat, e: Ent)
    requires Whole(blocks, bs) && k < |blocks| && j < PerBlock(bs)
    requires CString(e.name) && |e.name| < FILENAME_LEN && e.ino < LIMIT32
    ensures 0 <= k * PerBlock(bs) + j < |EntsOf(blocks)|
    ensures EntsOf(blocks)[k * PerBlock(bs) + j] == EntryOf(SlotBytes(blocks[k], j))
    ensures EntsOf(blocks[k := PutSlot(blocks[k], j, e)]) == EntsOf(blocks)[k * PerBlock(bs) + j := e]
  {
    hide EntsOf, PutSlot, EntryOf, SlotBytes;
    PutSlotEntries(blocks[k], j, e);
    EntsAt(blocks, bs, k, PutSlot(blocks[k], j, e));
  }

  /** Storing an inode number into slot `j` leaves its name alone. */
  function PutIno(b: Block, j: nat, ino: nat): (r: Block)
    requires j < PerBlock(|b|)
    ensures |r| == |b|
  {
    Splice(b, ENTRY_SIZE * j + FILENAME_LEN, Le(ino, 4))
  }

  lemma PutInoEntries(b: Block, j: nat, ino: nat)
    requires j < PerBlock(|b|) && ino < LIMIT32
    ensures Entries(PutIno(b, j, ino)) == Entries(b)[j := Ent(Entries(b)[j].name, ino)]
  {
    hide CStr, FromLe, Le;
    var r, at := PutIno(b, j, ino), ENTRY_SIZE * j + FILENAME_LEN;
    WordSizes();
    FromLeOfLe(ino, 4);
    forall i | 0 <= i < PerBlock(|b|)
      ensures EntryOf(SlotBytes(r, i)) == if i == j then Ent(EntryOf(SlotBytes(b, j)).name, ino)
        else EntryOf(SlotBytes(b, i))
    {
      if i == j {
        assert SlotBytes(r, i)[..FILENAME_LEN] == SlotBytes(b, i)[..FILENAME_LEN];
        assert SlotBytes(r, i)[FILENAME_LEN..FILENAME_LEN + 4] == Le(ino, 4);
      } else {
        SpliceSlices(b, at, Le(ino, 4), ENTRY_SIZE * i, ENTRY_SIZE * i + ENTRY_SIZE);
      }
    }
  }

  /** A directory of one block is that block's entries. */
  lemma EntsOne(b: Block)
    ensures EntsOf([b]) == Entries(b)
  {
    EntsThree([], b, []);
    assert [] + [b] + [] == [b];
  }
}
