/** Error codes of the port layer that the model returns. */
module Errors {
  datatype Errno =
    | Ok
    | EPERM
    | ENOENT
    | EIO
    | EACCES
    | EEXIST
    | ENOTDIR
    | EISDIR
    | EINVAL
    | EFBIG
    | ENOSPC
    | ENAMETOOLONG
    | ENOTEMPTY
}

/** Raw bytes, little-endian words and single bits inside a byte. */
module Bytes {
  type byte = x: int | 0 <= x < 256
  type Block = seq<byte>

  function Zeros(n: nat): (z: Block)
    ensures |z| == n
    ensures forall i :: 0 <= i < n ==> z[i] == 0
  {
    seq(n, _ => 0)
  }

  /** memcpy of `patch` into `b` at `off`. */
  function Splice(b: Block, off: nat, patch: Block): (r: Block)
    requires off + |patch| <= |b|
    ensures |r| == |b|
    ensures forall i :: 0 <= i < |b| ==> r[i] == if off <= i < off + |patch| then patch[i - off] else b[i]
  {
    b[..off] + patch + b[off + |patch|..]
  }

  lemma SpliceSlices(b: Block, off: nat, patch: Block, from: nat, to: nat)
    requires off + |patch| <= |b| && from <= to <= |b|
    ensures to <= off || off + |patch| <= from ==> Splice(b, off, patch)[from..to] == b[from..to]
    ensures from == off && to == off + |patch| ==> Splice(b, off, patch)[from..to] == patch
  {
  }

  function CeilDiv(n: nat, d: nat): nat
    requires d > 0
  {
    (n + d - 1) / d
  }

  lemma CeilDivBounds(n: nat, d: nat)
    requires d > 0
    ensures CeilDiv(n, d) * d >= n
    ensures n > 0 ==> (CeilDiv(n, d) - 1) * d < n && CeilDiv(n, d) > 0
    ensures n == 0 ==> CeilDiv(n, d) == 0
  {
    var q := (n + d - 1) / d;
    assert n + d - 1 == q * d + (n + d - 1) % d;
    if n > 0 {
      assert (q - 1) * d == q * d - d;
    }
  }

  lemma CeilDivUnique(n: nat, d: nat, q: nat)
    requires d > 0 && n <= q * d && (q == 0 || (q - 1) * d < n)
    ensures CeilDiv(n, d) == q
  {
    CeilDivBounds(n, d);
    var p := CeilDiv(n, d);
    if p < q {
      MulMono(p, q - 1, d);
    } else if q < p {
      MulMono(q, p - 1, d);
    }
  }

  lemma MulMono(a: int, b: int, d: nat)
    requires a <= b
    ensures a * d <= b * d
    ensures a < b ==> a * d + d <= b * d
  {
    if a < b {
      assert a * d + d == (a + 1) * d;
    }
  }

  lemma MulAdd(a: int, b: int, d: int)
    ensures (a + b) * d == a * d + b * d
  {
  }

  lemma CeilDivMono(m: nat, n: nat, d: nat)
    requires d > 0 && m <= n
    ensures CeilDiv(m, d) <= CeilDiv(n, d)
  {
    CeilDivBounds(m, d);
    CeilDivBounds(n, d);
    var p, q := CeilDiv(m, d), CeilDiv(n, d);
    if q < p {
      MulMono(q, p - 1, d);
    }
  }

  lemma CeilDivStep(n: nat, d: nat)
    requires d > 0
    ensures CeilDiv(n + d, d) == CeilDiv(n, d) + 1
  {
    CeilDivBounds(n, d);
    var q := CeilDiv(n, d);
    assert (q + 1) * d == q * d + d;
    if q > 0 {
      assert (q - 1) * d == q * d - d;
    }
    CeilDivUnique(n + d, d, q + 1);
  }

  /** The only way to split `n` into quotient and remainder by `d`. */
  lemma DivModUnique(n: nat, d: nat, q: nat, r: nat)
    requires d > 0 && r < d && n == q * d + r
    ensures n / d == q && n % d == r
  {
    var p := n / d;
    assert n == p * d + n % d;
    if p < q {
      MulMono(p, q, d);
    } else if q < p {
      MulMono(q, p, d);
    }
  }

  /** `n / d`, under a name of its own so that proofs meet division only where they ask for it (QuotRem). */
  function Quot(n: nat, d: nat): nat
    requires d > 0
    decreases n
  {
    if n < d then 0 else 1 + Quot(n - d, d)
  }

  /** `n % d`, see Quot. */
  function Rem(n: nat, d: nat): (r: nat)
    requires d > 0
    ensures r < d
    decreases n
  {
    if n < d then n else Rem(n - d, d)
  }

  lemma {:induction false} QuotRem(n: nat, d: nat)
    requires d > 0
    ensures n == Quot(n, d) * d + Rem(n, d)
    ensures Quot(n, d) == n / d && Rem(n, d) == n % d
    decreases n
  {
    if n >= d {
      QuotRem(n - d, d);
      assert (Quot(n - d, d) + 1) * d == Quot(n - d, d) * d + d;
    }
    DivModUnique(n, d, Quot(n, d), Rem(n, d));
  }

  lemma QuotRemUnique(n: nat, d: nat, q: nat, r: nat)
    requires d > 0 && r < d && n == q * d + r
    ensures Quot(n, d) == q && Rem(n, d) == r
  {
    QuotRem(n, d);
    DivModUnique(n, d, q, r);
  }

  lemma QuotLt(n: nat, d: nat, q: nat)
    requires d > 0 && n < q * d
    ensures Quot(n, d) < q
  {
    QuotRem(n, d);
    if Quot(n, d) >= q {
      MulMono(q, Quot(n, d), d);
    }
  }

  lemma QuotRemInjective(n: nat, m: nat, d: nat)
    requires d > 0 && Quot(n, d) == Quot(m, d) && Rem(n, d) == Rem(m, d)
    ensures n == m
  {
    QuotRem(n, d);
    QuotRem(m, d);
  }

  // ---------------------------------------------------------------- words

  function Pow256(n: nat): (p: nat)
    ensures p > 0
  {
    if n == 0 then 1 else 256 * Pow256(n - 1)
  }

  lemma WordSizes()
    ensures Pow256(2) == 0x1_0000
    ensures Pow256(4) == 0x1_0000_0000
    ensures Pow256(8) == 0x1_0000_0000_0000_0000
  {
    assert Pow256(1) == 256;
    assert Pow256(2) == 0x1_0000;
    assert Pow256(3) == 0x100_0000;
    assert Pow256(5) == 256 * Pow256(4);
    assert Pow256(6) == 256 * Pow256(5);
    assert Pow256(7) == 256 * Pow256(6);
  }

  /** `n` little-endian bytes of `v`. */
  function Le(v: nat, n: nat): (s: Block)
    ensures |s| == n
  {
    if n == 0 then [] else [v % 256] + Le(v / 256, n - 1)
  }

  function FromLe(s: Block): (v: nat)
  {
    if s == [] then 0 else s[0] + 256 * FromLe(s[1..])
  }

  lemma {:induction false} FromLeOfLe(v: nat, n: nat)
    requires v < Pow256(n)
    ensures FromLe(Le(v, n)) == v
  {
    if n > 0 {
      FromLeOfLe(v / 256, n - 1);
      assert Le(v, n)[1..] == Le(v / 256, n - 1);
    }
  }

  lemma {:induction false} LeOfFromLe(s: Block)
    ensures FromLe(s) < Pow256(|s|)
    ensures Le(FromLe(s), |s|) == s
  {
    if s != [] {
      LeOfFromLe(s[1..]);
      assert s == [s[0]] + s[1..];
      assert FromLe(s) / 256 == FromLe(s[1..]) && FromLe(s) % 256 == s[0];
    }
  }

  /** The 32-bit word stored at byte offset `off`. */
  function U32(b: Block, off: nat): nat
    requires off + 4 <= |b|
  {
    FromLe(b[off..off + 4])
  }

  function PutU32(b: Block, off: nat, v: nat): (r: Block)
    requires off + 4 <= |b|
    ensures |r| == |b|
  {
    Splice(b, off, Le(v, 4))
  }

  lemma PutU32At(b: Block, off: nat, v: nat, at: nat)
    requires off + 4 <= |b| && at + 4 <= |b| && v < 0x1_0000_0000
    requires at == off || at + 4 <= off || off + 4 <= at
    ensures U32(PutU32(b, off, v), at) == if at == off then v else U32(b, at)
  {
    WordSizes();
    FromLeOfLe(v, 4);
    SpliceSlices(b, off, Le(v, 4), at, at + 4);
  }

  // ----------------------------------------------------------------- bits

  function Pow2(n: nat): (p: nat)
    ensures p > 0
  {
    if n == 0 then 1 else 2 * Pow2(n - 1)
  }

  /** Bit `k` of `x`, that is `(x & (1U << k)) != 0U`. */
  predicate Bit(x: nat, k: nat) {
    if k == 0 then x % 2 == 1 else Bit(x / 2, k - 1)
  }

  /** `x |= 1U << k` when `on`, `x &= ~(1U << k)` otherwise. */
  function PutBit(x: nat, k: nat, on: bool): nat {
    if k == 0 then x - x % 2 + (if on then 1 else 0) else x % 2 + 2 * PutBit(x / 2, k - 1, on)
  }

  lemma {:induction false} PutBitAt(x: nat, k: nat, on: bool, j: nat)
    ensures Bit(PutBit(x, k, on), j) == if j == k then on else Bit(x, j)
  {
    var y := PutBit(x, k, on);
    if k == 0 {
      assert y / 2 == x / 2;
    } else {
      assert y / 2 == PutBit(x / 2, k - 1, on) && y % 2 == x % 2;
      if j > 0 {
        PutBitAt(x / 2, k - 1, on, j - 1);
      }
    }
  }

  lemma {:induction false} PutBitBound(x: nat, k: nat, on: bool, n: nat)
    requires x < Pow2(n) && k < n
    ensures PutBit(x, k, on) < Pow2(n)
  {
    if k > 0 {
      PutBitBound(x / 2, k - 1, on, n - 1);
    }
  }

  function SetByteBit(x: byte, k: nat, on: bool): byte
    requires k < 8
  {
    assert Pow2(8) == 256 by {
      assert Pow2(4) == 16;
      assert Pow2(6) == 2 * Pow2(5);
    }
    PutBitBound(x, k, on, 8);
    PutBit(x, k, on)
  }
}
