/**
 * The block device below the cache.  A transfer can complete, stop short or
 * fail; `plan` decides which, one verdict per transfer.
 */
module BlockDevice {
  import opened Errors
  import opened Bytes

  type Failure = e: Errno | e != Ok witness EIO

  datatype Verdict = Done | Short(n: nat) | Fail(err: Failure, torn: nat)

  function Min(a: nat, b: nat): nat {
    if a <= b then a else b
  }

  /** What a block holds after only the first `k` bytes of `next` reached it. */
  function Torn(was: Block, next: Block, k: nat): (r: Block)
    requires k <= |was| == |next|
    ensures |r| == |was|
  {
    next[..k] + was[k..]
  }

  class Device {
    const bs: nat
    const plan: nat -> Verdict
    var blocks: seq<Block>
    var tail: Block
    var clock: nat

    constructor (bs: nat, image: seq<Block>, tail: Block, plan: nat -> Verdict)
      requires |tail| < bs && forall b :: 0 <= b < |image| ==> |image[b]| == bs
      ensures Valid() && blocks == image && this.bs == bs && this.plan == plan
    {
      this.bs := bs;
      this.plan := plan;
      blocks := image;
      this.tail := tail;
      clock := 0;
    }

    ghost predicate Valid()
      reads this
    {
      && |tail| < bs
      && forall b :: 0 <= b < |blocks| ==> |blocks[b]| == bs
    }

    /** No transfer ever fails or stops short. */
    ghost predicate Healthy() {
      forall i: nat :: plan(i).Done?
    }

    /** The bytes a read at block `b` can deliver: less than a block past the end. */
    function Stored(b: nat): Block
      reads this
    {
      if b < |blocks| then blocks[b] else if b == |blocks| then tail else []
    }

    method ReadOne(b: nat) returns (err: Errno, got: Block)
      requires Valid()
      modifies this`clock
      ensures Valid()
      ensures err == Ok ==> got <= Stored(b) && |got| <= bs
      ensures err == Ok && |got| == bs ==> b < |blocks| && got == blocks[b]
      ensures Healthy() && b < |blocks| ==> err == Ok && |got| == bs
    {
      var verdict := plan(clock);
      clock := clock + 1;
      var all := Stored(b);
      match verdict
      case Done =>
        return Ok, all;
      case Short(n) =>
        return Ok, all[..Min(n, |all|)];
      case Fail(e, _) =>
        return e, [];
    }

    method WriteOne(b: nat, d: Block) returns (err: Errno, written: nat)
      requires Valid() && |d| == bs
      modifies this`blocks, this`tail, this`clock
      ensures Valid() && |blocks| == |old(blocks)|
      ensures forall c :: 0 <= c < |blocks| && c != b ==> blocks[c] == old(blocks)[c]
      ensures b < |blocks| ==> exists k :: 0 <= k <= bs && blocks[b] == Torn(old(blocks)[b], d, k)
      ensures err == Ok && written == bs ==> b < |blocks| && blocks[b] == d
      ensures Healthy() && b < |blocks| ==> err == Ok && written == bs
    {
      var verdict := plan(clock);
      clock := clock + 1;
      var room := |Stored(b)|;
      var k := match verdict case Done => room case Short(n) => Min(n, room) case Fail(_, torn) => Min(torn, room);
      if b < |blocks| {
        blocks := blocks[b := Torn(blocks[b], d, k)];
      } else if b == |blocks| {
        tail := Torn(tail, d[..|tail|], k);
      }
      err := if verdict.Fail? then verdict.err else Ok;
      written := if verdict.Fail? then 0 else k;
    }
  }
}
