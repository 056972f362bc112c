/** Bytes, the machine integers the driver uses, and big-endian numerals. */
module Bytes {

  type byte = b: int | 0 <= b < 0x100
  type u16 = n: int | 0 <= n < 0x1_0000
  type u32 = n: int | 0 <= n < 0x1_0000_0000
  type u64 = n: int | 0 <= n < 0x1_0000_0000_0000_0000

  function Min(a: nat, b: nat): nat {
    if a <= b then a else b
  }

  function Max(a: nat, b: nat): nat {
    if a >= b then a else b
  }

  /** `w` occurs in `s` at position `p`. */
  ghost predicate At(s: seq<byte>, p: nat, w: seq<byte>) {
    p + |w| <= |s| && forall i | p <= i < p + |w| :: s[i] == w[i - p]
  }

  /** `s` from `p` up to `q` reads the same as `s'` does `d` places further on. */
  ghost predicate Same(s: seq<byte>, p: nat, q: nat, s': seq<byte>, d: int) {
    p <= q <= |s| && 0 <= p + d && q + d <= |s'| && forall i | p <= i < q :: s[i] == s'[i + d]
  }

  lemma AtSplit(s: seq<byte>, p: nat, u: seq<byte>, v: seq<byte>)
    requires At(s, p, u + v)
    ensures At(s, p, u) && At(s, p + |u|, v) && p + |u| + |v| <= |s|
  {
    forall i | p <= i < p + |u|
      ensures s[i] == u[i - p]
    {
      assert (u + v)[i - p] == u[i - p];
    }
    forall i | p + |u| <= i < p + |u| + |v|
      ensures s[i] == v[i - (p + |u|)]
    {
      assert (u + v)[i - p] == v[i - (p + |u|)];
    }
  }

  lemma AtSlice(s: seq<byte>, p: nat, w: seq<byte>)
    requires At(s, p, w)
    ensures p + |w| <= |s| && s[p..p + |w|] == w
  {
    var x := s[p..p + |w|];
    forall k | 0 <= k < |w|
      ensures x[k] == w[k]
    {
      assert x[k] == s[p + k];
    }
  }

  function Pow256(k: nat): (p: nat)
    ensures p > 0
  {
    if k == 0 then 1 else 256 * Pow256(k - 1)
  }

  /** The number the `n` bytes at `p` denote, most significant byte first. */
  function BeAt(s: seq<byte>, p: nat, n: nat): nat
    requires p + n <= |s|
  {
    if n == 0 then 0 else 256 * BeAt(s, p, n - 1) + s[p + n - 1]
  }

  lemma {:induction false} BeAtBound(s: seq<byte>, p: nat, n: nat)
    requires p + n <= |s|
    ensures BeAt(s, p, n) < Pow256(n)
  {
    if n > 0 {
      BeAtBound(s, p, n - 1);
    }
  }

  lemma {:induction false} BeAtSame(s: seq<byte>, p: nat, n: nat, s': seq<byte>, d: int)
    requires Same(s, p, p + n, s', d)
    ensures BeAt(s', p + d, n) == BeAt(s, p, n)
  {
    if n > 0 {
      BeAtSame(s, p, n - 1, s', d);
      assert s[p + n - 1] == s'[p + n - 1 + d];
    }
  }

  /** The low `k` bytes of `n`, most significant first. */
  function BeBytes(n: nat, k: nat): (bs: seq<byte>)
    ensures |bs| == k
  {
    if k == 0 then [] else BeBytes(n / 256, k - 1) + [n % 256]
  }

  /** Big-endian digits that were written read back as the number they came from. */
  lemma {:induction false} BeAtOfBytes(n: nat, k: nat, s: seq<byte>, p: nat)
    requires n < Pow256(k) && At(s, p, BeBytes(n, k))
    ensures BeAt(s, p, k) == n
  {
    if k > 0 {
      AtSplit(s, p, BeBytes(n / 256, k - 1), [n % 256]);
      BeAtOfBytes(n / 256, k - 1, s, p);
    }
  }

  /** `n >> (8 * i)`, one byte at a time. */
  function ShiftBytes(n: nat, i: nat): nat {
    if i == 0 then n else ShiftBytes(n / 256, i - 1)
  }

  /** The byte `(n >> (8 * i)) as u8` is the digit `i` places from the right. */
  lemma {:induction false} BeBytesDigit(n: nat, k: nat, i: nat)
    requires i < k
    ensures BeBytes(n, k)[k - 1 - i] == ShiftBytes(n, i) % 256
  {
    if i > 0 {
      BeBytesDigit(n / 256, k - 1, i - 1);
    }
  }

  /** Number of significant bits, `64 - leading_zeros`. */
  function BitLength(v: nat): nat {
    if v == 0 then 0 else 1 + BitLength(v / 2)
  }

  /** `(64 - leading_zeros + 7) / 8`. */
  function ByteLength(v: nat): nat {
    (BitLength(v) + 7) / 8
  }

  lemma {:induction false} BitLengthByByte(v: nat)
    requires v >= 256
    ensures BitLength(v) == 8 + BitLength(v / 256)
  {
    var a, b, c, d, e, f, g := v / 2, v / 4, v / 8, v / 16, v / 32, v / 64, v / 128;
    assert BitLength(v) == 1 + BitLength(a);
    assert a / 2 == b && BitLength(a) == 1 + BitLength(b);
    assert b / 2 == c && BitLength(b) == 1 + BitLength(c);
    assert c / 2 == d && BitLength(c) == 1 + BitLength(d);
    assert d / 2 == e && BitLength(d) == 1 + BitLength(e);
    assert e / 2 == f && BitLength(e) == 1 + BitLength(f);
    assert f / 2 == g && BitLength(f) == 1 + BitLength(g);
    assert g / 2 == v / 256 && BitLength(g) == 1 + BitLength(v / 256);
  }

  /** The computed length holds the value and no shorter length does. */
  lemma {:induction false} ByteLengthBounds(v: nat)
    requires v > 0
    ensures ByteLength(v) >= 1
    ensures Pow256(ByteLength(v) - 1) <= v < Pow256(ByteLength(v))
    decreases v
  {
    if v >= 256 {
      BitLengthByByte(v);
      ByteLengthBounds(v / 256);
      assert ByteLength(v) == 1 + ByteLength(v / 256);
    } else {
      BitLengthSmall(v);
      assert Pow256(1) == 256;
    }
  }

  lemma {:induction false} BitLengthSmall(v: nat)
    requires 0 < v < 256
    ensures 1 <= BitLength(v) <= 8
  {
    assert BitLength(v) == 1 + BitLength(v / 2);
    BitLengthMono(v / 2, 127);
    assert BitLength(127) == 7 by {
      assert BitLength(3) == 2;
      assert BitLength(15) == 4;
      assert BitLength(63) == 6;
    }
  }

  lemma {:induction false} BitLengthMono(a: nat, b: nat)
    requires a <= b
    ensures BitLength(a) <= BitLength(b)
  {
    if a > 0 {
      BitLengthMono(a / 2, b / 2);
    }
  }

  lemma {:induction false} Pow256Mono(a: nat, b: nat)
    requires a <= b
    ensures Pow256(a) <= Pow256(b)
    decreases b
  {
    if a < b {
      Pow256Mono(a, b - 1);
    }
  }

  /** Any numeral for `v` has at least `ByteLength(v)` digits. */
  lemma ByteLengthLeast(s: seq<byte>, p: nat, n: nat)
    requires p + n <= |s|
    ensures ByteLength(BeAt(s, p, n)) <= n
  {
    var v := BeAt(s, p, n);
    if v > 0 {
      BeAtBound(s, p, n);
      ByteLengthBelow(v, n);
    }
  }

  lemma ByteLengthBelow(v: nat, n: nat)
    requires v < Pow256(n)
    ensures ByteLength(v) <= n
  {
    if v > 0 {
      ByteLengthBounds(v);
      if n < ByteLength(v) {
        Pow256Mono(n, ByteLength(v) - 1);
      }
    }
  }

  /** A 64-bit value has at most eight significant bytes. */
  lemma ByteLengthOfU64(v: u64)
    ensures ByteLength(v) <= 8
  {
    Pow256Values();
    ByteLengthBelow(v, 8);
  }

  lemma Pow256Values()
    ensures Pow256(1) == 0x100
    ensures Pow256(2) == 0x1_0000
    ensures Pow256(3) == 0x100_0000
    ensures Pow256(4) == 0x1_0000_0000
    ensures Pow256(8) == 0x1_0000_0000_0000_0000
  {
    assert Pow256(2) == 256 * Pow256(1);
    assert Pow256(4) == 256 * Pow256(3) && Pow256(3) == 256 * Pow256(2);
    assert Pow256(6) == 256 * Pow256(5) && Pow256(5) == 256 * Pow256(4);
    assert Pow256(8) == 256 * Pow256(7) && Pow256(7) == 256 * Pow256(6);
  }
}
