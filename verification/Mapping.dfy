/** Ghost bookkeeping of who owns each data block. */
module Mapping {
  /** Owner of a data block: nobody, the k-th list node or the k-th data block of an inode. */
  datatype Tag = Free | NodeOf(ino: nat, k: nat) | DataOf(ino: nat, k: nat)

  /** Per inode its list-node blocks and its data blocks, as data-region indices, and per block its owner. */
  datatype Ledger = Ledger(nodes: seq<seq<nat>>, ptrs: seq<seq<nat>>, tag: seq<Tag>)

  /** The clear indices from `lo` up to `n`, in increasing order. */
  ghost function Clear(bits: seq<bool>, lo: nat, n: nat): (q: seq<nat>)
    requires n <= |bits|
  {
    if n == 0 then []
    else Clear(bits, lo, n - 1) + if n - 1 >= lo && !bits[n - 1] then [n - 1] else []
  }

  /** Clear lists exactly the clear indices, each once, lowest first. */
  lemma {:induction false} ClearFacts(bits: seq<bool>, lo: nat, n: nat)
    requires n <= |bits|
    ensures forall k :: 0 <= k < |Clear(bits, lo, n)| ==>
      lo <= Clear(bits, lo, n)[k] < n && !bits[Clear(bits, lo, n)[k]]
    ensures forall i :: lo <= i < n && !bits[i] ==> i in Clear(bits, lo, n)
    ensures forall k, l :: 0 <= k < l < |Clear(bits, lo, n)| ==> Clear(bits, lo, n)[k] < Clear(bits, lo, n)[l]
  {
    if n > 0 {
      ClearFacts(bits, lo, n - 1);
    }
  }

  lemma {:induction false} ClearPrefix(bits: seq<bool>, lo: nat, m: nat, n: nat)
    requires m <= n <= |bits|
    ensures Clear(bits, lo, m) <= Clear(bits, lo, n)
  {
    if m < n {
      ClearPrefix(bits, lo, m, n - 1);
    }
  }

  lemma ClearEmpty(bits: seq<bool>, lo: nat)
    ensures Clear(bits, lo, 0) == []
  {
  }

  /** The bitmap after setting every index of `list` to `on`. */
  ghost function SetAll(bits: seq<bool>, list: seq<nat>, on: bool): (r: seq<bool>)
    ensures |r| == |bits|
    ensures forall i :: 0 <= i < |bits| ==> r[i] == if i in list then on else bits[i]
  {
    seq(|bits|, i requires 0 <= i < |bits| => if i in list then on else bits[i])
  }

  lemma SetAllStep(bits: seq<bool>, list: seq<nat>, k: nat, on: bool)
    requires k < |list| && list[k] < |bits|
    ensures SetAll(bits, list[..k], on)[list[k] := on] == SetAll(bits, list[..k + 1], on)
  {
    assert list[..k + 1] == list[..k] + [list[k]];
  }

  ghost predicate Distinct(list: seq<nat>) {
    forall i, j :: 0 <= i < j < |list| ==> list[i] != list[j]
  }

  ghost predicate AllBelow(list: seq<nat>, n: nat) {
    forall k :: 0 <= k < |list| ==> list[k] < n
  }

  /** Number of clear bits: the free blocks of the volume. */
  ghost function FreeCount(bits: seq<bool>): nat {
    |Clear(bits, 0, |bits|)|
  }

  lemma {:induction false} ClearUpdate(bits: seq<bool>, i: nat, on: bool, n: nat)
    requires i < |bits| && n <= |bits| && bits[i] != on
    ensures |Clear(bits[i := on], 0, n)| == |Clear(bits, 0, n)| + (if i >= n then 0 else if on then -1 else 1)
  {
    if n > 0 {
      ClearUpdate(bits, i, on, n - 1);
      if i == n - 1 {
        ClearSame(bits, bits[i := on], n - 1);
      }
    }
  }

  lemma {:induction false} ClearSame(bits: seq<bool>, other: seq<bool>, n: nat)
    requires n <= |bits| == |other| && forall i :: 0 <= i < n ==> bits[i] == other[i]
    ensures Clear(bits, 0, n) == Clear(other, 0, n)
  {
    if n > 0 {
      ClearSame(bits, other, n - 1);
    }
  }

  /** Setting `k` distinct clear bits takes `k` from the free count; clearing set bits gives them back. */
  lemma {:induction false} SetAllCount(bits: seq<bool>, list: seq<nat>, on: bool)
    requires Distinct(list) && AllBelow(list, |bits|)
    requires forall k :: 0 <= k < |list| ==> bits[list[k]] != on
    ensures FreeCount(SetAll(bits, list, on)) == FreeCount(bits) + (if on then -|list| else |list|)
    decreases |list|
  {
    hide Clear;
    var n := |list|;
    if n == 0 {
      assert SetAll(bits, list, on) == bits;
    } else {
      SetAllCount(bits, list[..n - 1], on);
      SetAllStep(bits, list, n - 1, on);
      assert list[..n] == list;
      ClearUpdate(SetAll(bits, list[..n - 1], on), list[n - 1], on, |bits|);
    }
  }

  /** The `want` lowest free blocks: what a successful scan hands out. */
  ghost function Lowest(bits: seq<bool>, want: nat): (d: seq<nat>)
    requires want <= FreeCount(bits)
    ensures |d| == want
  {
    Clear(bits, 0, |bits|)[..want]
  }

  lemma LowestFree(bits: seq<bool>, want: nat)
    requires want <= FreeCount(bits)
    ensures Taken(bits, Lowest(bits, want))
  {
    ClearFacts(bits, 0, |bits|);
  }

  ghost predicate Taken(bits: seq<bool>, list: seq<nat>) {
    Distinct(list) && AllBelow(list, |bits|) && forall k :: 0 <= k < |list| ==> !bits[list[k]]
  }

  ghost predicate InUse(bits: seq<bool>, list: seq<nat>) {
    Distinct(list) && AllBelow(list, |bits|) && forall k :: 0 <= k < |list| ==> bits[list[k]]
  }
}
