/** Byte-addressed transfers over a disk that only moves whole sectors. */
module SectorIo {
  import opened Errors
  import opened Bytes

  function Lesser(a: nat, b: nat): nat {
    if a <= b then a else b
  }

  /** The disk driver: whole sectors only, and each access may fail. */
  class Disk {
    const ss: nat
    const plan: nat -> Errno
    var bytes: seq<byte>
    var clock: nat

    ghost predicate Valid()
      reads this
    {
      ss > 0 && exists n: nat :: |bytes| == n * ss
    }

    constructor (ss: nat, plan: nat -> Errno, bytes: seq<byte>, n: nat)
      requires ss > 0 && |bytes| == n * ss
      ensures Valid() && this.ss == ss && this.plan == plan && this.bytes == bytes && clock == 0
    {
      this.ss := ss;
      this.plan := plan;
      this.bytes := bytes;
      clock := 0;
    }

    /** disk_access_read. */
    method ReadSectors(i: nat, n: nat) returns (err: Errno, data: Block)
      requires Valid() && 0 <= i * ss <= i * ss + n * ss <= |bytes|
      modifies this`clock
      ensures Valid() && clock == old(clock) + 1 && err == plan(old(clock))
      ensures err == Ok ==> data == bytes[i * ss..i * ss + n * ss]
    {
      err, data := plan(clock), [];
      if err == Ok {
        data := bytes[i * ss..i * ss + n * ss];
      }
      clock := clock + 1;
    }

    /** disk_access_write. */
    method WriteSectors(i: nat, n: nat, data: Block) returns (err: Errno)
      requires Valid() && |data| == n * ss && 0 <= i * ss && i * ss + n * ss <= |bytes|
      modifies this
      ensures Valid() && clock == old(clock) + 1 && err == plan(old(clock))
      ensures err == Ok ==> bytes == Splice(old(bytes), i * ss, data)
      ensures err != Ok ==> bytes == old(bytes)
    {
      err := plan(clock);
      if err == Ok {
        bytes := Splice(bytes, i * ss, data);
      }
      clock := clock + 1;
    }

    /** disk_access_ioctl with DISK_IOCTL_CTRL_SYNC. */
    method Sync() returns (err: Errno)
      requires Valid()
      modifies this`clock
      ensures Valid() && clock == old(clock) + 1 && err == plan(old(clock))
    {
      err := plan(clock);
      clock := clock + 1;
    }
  }

  /** How many rounds are left at most: head, run of whole sectors, tail. */
  ghost function Rounds(cur: nat, remaining: nat, ss: nat): nat
    requires ss > 0
  {
    if remaining == 0 then 0 else if Rem(cur, ss) != 0 then 3 else if remaining >= ss then 2 else 1
  }

  /** What a transfer of `done` bytes at `off` does to the disk. */
  ghost predicate Stored(was: seq<byte>, now: seq<byte>, off: nat, done: nat, write: bool, data: Block) {
    && off + done <= |was| && |now| == |was|
    && (write ==> done <= |data| && now == Splice(was, off, data[..done]))
    && (!write ==> now == was)
  }

  /** Which bytes a transfer has moved so far. */
  ghost predicate Progress(was: seq<byte>, now: seq<byte>, off: nat, done: nat, write: bool, data: Block, out: Block) {
    Stored(was, now, off, done, write, data) && out == if write then [] else was[off..off + done]
  }

  lemma ProgressWrite(was: seq<byte>, now: seq<byte>, off: nat, done: nat, data: Block, chunk: nat)
    requires Progress(was, now, off, done, true, data, []) && off + done + chunk <= |was| && done + chunk <= |data|
    ensures Progress(was, Splice(now, off + done, data[done..done + chunk]), off, done + chunk, true, data, [])
  {
    var next := Splice(now, off + done, data[done..done + chunk]);
    assert next == Splice(was, off, data[..done + chunk]);
  }

  lemma ProgressRead(was: seq<byte>, off: nat, done: nat, data: Block, out: Block, chunk: nat)
    requires Progress(was, was, off, done, false, data, out) && off + done + chunk <= |was|
    ensures Progress(was, was, off, done + chunk, false, data, out + was[off + done..off + done + chunk])
  {
    assert was[off..off + done] + was[off + done..off + done + chunk] == was[off..off + done + chunk];
  }

  /** Writing back a sector with part of it replaced is writing that part. */
  lemma SectorPatch(b: seq<byte>, lo: nat, ss: nat, at: nat, part: Block)
    requires lo + ss <= |b| && at + |part| <= ss
    ensures Splice(b, lo, Splice(b[lo..lo + ss], at, part)) == Splice(b, lo + at, part)
  {
  }

  lemma PartOfSector(b: seq<byte>, lo: nat, ss: nat, at: nat, chunk: nat)
    requires lo + ss <= |b| && at + chunk <= ss
    ensures b[lo..lo + ss][at..at + chunk] == b[lo + at..lo + at + chunk]
  {
    var s := b[lo..lo + ss];
    var x, y := s[at..at + chunk], b[lo + at..lo + at + chunk];
    forall k | 0 <= k < chunk ensures x[k] == y[k] {
      assert s[at + k] == b[lo + at + k];
    }
  }

  /** Where the sector of byte `cur` lies; it is on the disk when `cur` is. */
  lemma SectorPlace(cur: nat, ss: nat, size: nat, n: nat)
    requires ss > 0 && size == n * ss && cur < size
    ensures var i := Quot(cur, ss);
            cur == i * ss + Rem(cur, ss) && 0 <= i * ss && i * ss + ss <= size && i < n
  {
    hide Quot, Rem;
    QuotRem(cur, ss);
    QuotLt(cur, ss, n);
    MulMono(Quot(cur, ss) + 1, n, ss);
    MulAdd(Quot(cur, ss), 1, ss);
  }

  /** After moving up to the next sector border, or by whole sectors, the place is aligned. */
  lemma Aligned(cur: nat, ss: nat, k: nat)
    requires ss > 0
    ensures Rem(cur, ss) != 0 ==> Rem(cur + (ss - Rem(cur, ss)), ss) == 0
    ensures Rem(cur, ss) == 0 ==> Rem(cur + k * ss, ss) == 0
  {
    hide Quot, Rem;
    QuotRem(cur, ss);
    var q := Quot(cur, ss);
    MulAdd(q, 1, ss);
    MulAdd(q, k, ss);
    MulMono(0, k, ss);
    if Rem(cur, ss) != 0 {
      QuotRemUnique(cur + (ss - Rem(cur, ss)), ss, q + 1, 0);
    } else {
      QuotRemUnique(cur + k * ss, ss, q + k, 0);
    }
  }

  /** An open device: where the next transfer starts. */
  class Slot {
    const disk: Disk
    const sync: bool
    var offset: nat

    constructor (disk: Disk, sync: bool)
      ensures this.disk == disk && this.sync == sync && offset == 0
    {
      this.disk := disk;
      this.sync := sync;
      offset := 0;
    }

    /** One partial sector: read it, and for a write change the part and write it back. */
    method Part(cur: nat, chunk: nat, write: bool, part: Block) returns (err: Errno, got: Block)
      requires disk.Valid() && 0 < chunk && Rem(cur, disk.ss) + chunk <= disk.ss && cur + chunk <= |disk.bytes|
        && (write ==> |part| == chunk)
      modifies disk
      ensures disk.Valid() && |disk.bytes| == |old(disk.bytes)|
      ensures err == Ok && write ==> disk.bytes == Splice(old(disk.bytes), cur, part)
      ensures err != Ok || !write ==> disk.bytes == old(disk.bytes)
      ensures err == Ok && !write ==> got == disk.bytes[cur..cur + chunk]
    {
      hide Quot, Rem, Splice;
      var ss := disk.ss;
      var i, at := Quot(cur, ss), Rem(cur, ss);
      assert 1 * ss == ss;
      ghost var n: nat :| |disk.bytes| == n * ss;
      SectorPlace(cur, ss, |disk.bytes|, n);
      var sector;
      got := [];
      err, sector := disk.ReadSectors(i, 1);
      if err != Ok {
        return;
      }
      if write {
        SectorPatch(disk.bytes, i * ss, ss, at, part);
        err := disk.WriteSectors(i, 1, Splice(sector, at, part));
      } else {
        PartOfSector(disk.bytes, i * ss, ss, at, chunk);
        got := sector[at..at + chunk];
      }
    }

    /** A run of whole sectors. */
    method Whole(cur: nat, n: nat, write: bool, data: Block) returns (err: Errno, got: Block)
      requires disk.Valid() && Rem(cur, disk.ss) == 0 && cur + n * disk.ss <= |disk.bytes|
        && (write ==> |data| == n * disk.ss) && 0 <= n * disk.ss
      modifies disk
      ensures disk.Valid() && |disk.bytes| == |old(disk.bytes)|
      ensures err == Ok && write ==> disk.bytes == Splice(old(disk.bytes), cur, data)
      ensures err != Ok || !write ==> disk.bytes == old(disk.bytes)
      ensures err == Ok && !write ==> got == disk.bytes[cur..cur + n * disk.ss]
    {
      hide Quot, Rem, Splice;
      QuotRem(cur, disk.ss);
      got := [];
      if write {
        err := disk.WriteSectors(Quot(cur, disk.ss), n, data);
      } else {
        err, got := disk.ReadSectors(Quot(cur, disk.ss), n);
      }
    }

    /** One round of the transfer loop. */
    method Round(cur: nat, remaining: nat, write: bool, rest: Block) returns (err: Errno, chunk: nat, got: Block)
      requires disk.Valid() && 0 < remaining && cur + remaining <= |disk.bytes| && (write ==> |rest| == remaining)
      modifies disk
      ensures disk.Valid() && |disk.bytes| == |old(disk.bytes)| && 0 < chunk <= remaining
      ensures Rounds(cur + chunk, remaining - chunk, disk.ss) < Rounds(cur, remaining, disk.ss)
      ensures err == Ok && write ==> disk.bytes == Splice(old(disk.bytes), cur, rest[..chunk])
      ensures err != Ok || !write ==> disk.bytes == old(disk.bytes)
      ensures err == Ok && !write ==> got == disk.bytes[cur..cur + chunk]
    {
      hide Quot, Rem, Splice;
      var ss := disk.ss;
      RemBound(cur, ss);
      var at := Rem(cur, ss);
      chunk := Lesser(ss - at, remaining);
      if at == 0 && chunk == ss {
        var n := Quot(remaining, ss);
        var left := Quot(|disk.bytes|, ss) - Quot(cur, ss);
        RunOfSectors(remaining, ss);
        SectorsLeft(cur, remaining, |disk.bytes|, ss);
        n := Lesser(n, left);
        chunk := n * ss;
        Aligned(cur, ss, n);
        err, got := Whole(cur, n, write, if write then rest[..chunk] else []);
      } else {
        Aligned(cur, ss, 0);
        err, got := Part(cur, chunk, write, if write then rest[..chunk] else []);
      }
    }

    /** dev_transfer: a whole transfer is the transfer of a byte array, and takes at most three disk rounds. A failure
        has transferred the first `reached` bytes, all of them if it was the sync request that failed. */
    method Transfer(count: nat, write: bool, data: Block)
      returns (err: Errno, moved: nat, out: Block, ghost rounds: nat, ghost reached: nat)
      requires (disk.ss > 0 ==> disk.Valid()) && (write ==> |data| == count)
      modifies this, disk
      ensures (disk.ss > 0 ==> disk.Valid()) && rounds <= 3 && (disk.ss == 0 ==> err == EIO)
      ensures var size := |old(disk.bytes)|;
              var n := if old(offset) >= size then 0 else Lesser(count, size - old(offset));
              && reached <= n && moved == (if reached == n then n else 0) && offset == old(offset) + moved
              && Stored(old(disk.bytes), disk.bytes, Lesser(old(offset), size), reached, write, data)
              && (err == Ok ==> Progress(old(disk.bytes), disk.bytes, Lesser(old(offset), size), n, write, data, out))
              && (err != Ok && reached == n ==> disk.ss == 0 || (write && sync))
    {
      hide Quot, Rem, Splice, Progress, Stored;
      ghost var was := disk.bytes;
      var size, cur: nat := |disk.bytes|, offset;
      moved, out, rounds, reached := 0, [], 0, 0;
      NoProgress(was, Lesser(cur, size), write, data);
      ProgressParts(was, was, Lesser(cur, size), 0, write, data, out);
      if disk.ss == 0 {
        return EIO, 0, [], 0, 0;
      }
      if cur >= size || count == 0 {
        return Ok, 0, [], 0, 0;
      }
      var remaining: nat, done: nat := Lesser(count, size - cur), 0;
      ghost var total := remaining;
      RoundsBound(cur, remaining, disk.ss);
      while remaining > 0
        invariant disk.Valid() && cur == offset + done && done + remaining == total && offset == old(offset)
          && moved == 0
        invariant Progress(was, disk.bytes, offset, done, write, data, out)
          && rounds + Rounds(cur, remaining, disk.ss) <= 3
      {
        ProgressParts(was, disk.bytes, offset, done, write, data, out);
        var chunk, piece;
        ghost var now := disk.bytes;
        var rest := if write then data[done..done + remaining] else [];
        err, chunk, piece := Round(cur, remaining, write, rest);
        rounds := rounds + 1;
        if err != Ok {
          return err, 0, [], rounds, done;
        }
        if write {
          ProgressWrite(was, now, offset, done, data, chunk);
          assert rest[..chunk] == data[done..done + chunk];
        } else {
          ProgressRead(was, offset, done, data, out, chunk);
          out := out + piece;
        }
        done, remaining, cur := done + chunk, remaining - chunk, cur + chunk;
      }
      ProgressParts(was, disk.bytes, offset, done, write, data, out);
      offset, moved, reached, err := cur, done, done, Ok;
      if write && sync {
        err := disk.Sync();
      }
    }
  }

  lemma RoundsBound(cur: nat, remaining: nat, ss: nat)
    requires ss > 0
    ensures Rounds(cur, remaining, ss) <= 3
  {
  }

  /** The sectors from `cur` to the end of the disk are enough for what remains. */
  lemma SectorsLeft(cur: nat, remaining: nat, size: nat, ss: nat)
    requires ss > 0 && cur + remaining <= size && Rem(cur, ss) == 0
    ensures Quot(remaining, ss) <= Quot(size, ss) - Quot(cur, ss)
  {
    hide Quot, Rem;
    var a, b, c := Quot(cur, ss), Quot(remaining, ss), Quot(size, ss);
    QuotRem(cur, ss);
    QuotRem(remaining, ss);
    QuotRem(size, ss);
    MulAdd(a, b, ss);
    if a + b > c {
      MulMono(c + 1, a + b, ss);
      MulAdd(c, 1, ss);
    }
  }

  lemma NoProgress(was: seq<byte>, off: nat, write: bool, data: Block)
    requires off <= |was|
    ensures Progress(was, was, off, 0, write, data, [])
  {
    if write {
      assert Splice(was, off, data[..0]) == was;
    }
  }

  lemma ProgressParts(was: seq<byte>, now: seq<byte>, off: nat, done: nat, write: bool, data: Block, out: Block)
    requires Progress(was, now, off, done, write, data, out)
    ensures off + done <= |was| == |now| && (write ==> out == [] && done <= |data|) && (!write ==> now == was)
    ensures Stored(was, now, off, done, write, data)
  {
  }

  lemma RemBound(cur: nat, ss: nat)
    requires ss > 0
    ensures Rem(cur, ss) < ss
  {
  }

  lemma RunOfSectors(remaining: nat, ss: nat)
    requires ss > 0 && remaining >= ss
    ensures Quot(remaining, ss) >= 1 && Quot(remaining, ss) * ss <= remaining < Quot(remaining, ss) * ss + ss
  {
    hide Quot, Rem;
    QuotRem(remaining, ss);
    if Quot(remaining, ss) < 1 {
      MulMono(Quot(remaining, ss), 0, ss);
    }
  }
}
