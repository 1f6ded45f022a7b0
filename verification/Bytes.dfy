/** Bytes, 32-bit words and alignment: the arithmetic shared by every writer. */
module Bytes {

  type byte = x: int | 0 <= x < 256
  type uint32 = x: int | 0 <= x < 0x1_0000_0000

  const TWO_32: int := 0x1_0000_0000

  /** kPageSize */
  const PAGE_SIZE: nat := 4096

  /** Conversion to uint32_t: reduction modulo 2^32, also for negative values. */
  function U32(x: int): uint32
    decreases if x < 0 then TWO_32 - x else x
  {
    if x < 0 then U32(x + TWO_32) else if x < TWO_32 then x else U32(x - TWO_32)
  }

  lemma {:induction false} U32Mod(x: int)
    ensures U32(x) == x % 0x1_0000_0000
    decreases if x < 0 then TWO_32 - x else x
  {
    if x < 0 {
      U32Mod(x + TWO_32);
    } else if x >= TWO_32 {
      U32Mod(x - TWO_32);
    }
  }

  /** x is a multiple of n; counting down keeps the arithmetic linear. */
  predicate Aligned(x: nat, n: nat)
    requires n > 0
  {
    if x < n then x == 0 else Aligned(x - n, n)
  }

  /** RoundDown of runtime/utils.h for a power of two n: x with its low bits cleared. */
  function RoundDown(x: nat, n: nat): (r: nat)
    requires n > 0
    ensures Aligned(r, n) && r <= x < r + n
  {
    if x < n then 0 else n + RoundDown(x - n, n)
  }

  function RoundUp(x: nat, n: nat): (r: nat)
    requires n > 0
    ensures Aligned(r, n) && x <= r < x + n
  {
    RoundDown(x + n - 1, n)
  }

  /** The two counting definitions say what the remainder says. */
  lemma {:induction false} AlignedMod(x: nat, n: nat)
    requires n > 0
    ensures Aligned(x, n) <==> x % n == 0
    ensures RoundDown(x, n) == x - x % n
    decreases x
  {
    if x >= n {
      AlignedMod(x - n, n);
      ModStep(x, n);
    } else {
      DivModUnique(x, n, 0, x);
    }
  }

  lemma {:induction false} ModStep(x: nat, n: nat)
    requires 0 < n <= x
    ensures x % n == (x - n) % n
  {
    var q := (x - n) / n;
    assert x - n == n * q + (x - n) % n;
    assert n * (q + 1) == n * q + n;
    DivModUnique(x, n, q + 1, (x - n) % n);
  }

  lemma {:induction false} MulBounds(n: nat, k: int)
    requires n > 0
    ensures k >= 1 ==> n * k >= n
    ensures k <= -1 ==> n * k + n <= 0
    ensures k == 0 ==> n * k == 0
  {
    if k >= 1 {
      assert n * k == n + n * (k - 1);
    } else if k <= -1 {
      assert n * k + n == n * (k + 1);
    }
  }

  lemma {:induction false} DivModUnique(x: int, n: nat, q: int, r: nat)
    requires n > 0 && r < n && x == n * q + r
    ensures x % n == r && x / n == q
  {
    var q', r' := x / n, x % n;
    assert n * (q - q') == r' - r by {
      assert x == n * q' + r';
      assert n * (q - q') == n * q - n * q';
    }
    MulBounds(n, q - q');
  }

  /** Two different multiples of n are at least n apart, and multiples are closed under addition. */
  lemma {:induction false} MultiplesApart(a: nat, b: nat, n: nat)
    requires n > 0 && Aligned(a, n) && Aligned(b, n)
    ensures a < b ==> a + n <= b
    ensures Aligned(a + b, n)
    decreases a
  {
    if a >= n {
      if b >= n {
        MultiplesApart(a - n, b - n, n);
        assert a - n + (b - n) + n + n == a + b;
      }
    }
  }

  /** Adding a multiple changes nothing. */
  lemma {:induction false} AlignedSum(a: nat, b: nat, n: nat)
    requires n > 0 && Aligned(a, n)
    ensures Aligned(a + b, n) <==> Aligned(b, n)
    decreases a
  {
    if a > 0 {
      AlignedSum(a - n, b, n);
      assert Aligned(a + b, n) <==> Aligned(a - n + b, n);
    }
  }

  /** RoundUp returns the least multiple of n that is not below x. */
  lemma {:induction false} RoundUpLeast(x: nat, n: nat, m: nat)
    requires n > 0 && x <= m && Aligned(m, n)
    ensures RoundUp(x, n) <= m
  {
    if m < RoundUp(x, n) {
      MultiplesApart(m, RoundUp(x, n), n);
    }
  }

  /** A multiple of 8 or 16 is even. */
  lemma {:induction false} EvenMultiple(x: nat, n: nat)
    requires (n == 8 || n == 16) && Aligned(x, n)
    ensures x % 2 == 0
    decreases x
  {
    if x >= n {
      EvenMultiple(x - n, n);
    }
  }

  function Pow2(n: nat): (r: nat)
    ensures r > 0
  {
    if n == 0 then 1 else 2 * Pow2(n - 1)
  }

  lemma {:induction false} Pow2Eight()
    ensures Pow2(8) == 256
  {
    assert Pow2(4) == 16;
  }

  /** x & m */
  function And(x: nat, m: nat): nat
    decreases x
  {
    if x == 0 || m == 0 then 0
    else (if x % 2 == 1 && m % 2 == 1 then 1 else 0) + 2 * And(x / 2, m / 2)
  }

  lemma {:induction false} AndHalves(x: nat, m: nat)
    ensures And(x, 2 * m + 1) == x % 2 + 2 * And(x / 2, m)
  {
    assert (2 * m + 1) / 2 == m && (2 * m + 1) % 2 == 1;
  }

  function Indices(n: nat): (s: seq<nat>)
    ensures |s| == n && forall i :: 0 <= i < n ==> s[i] == i
  {
    seq(n, i => i)
  }

  function Zeros(n: nat): (z: seq<byte>)
    ensures |z| == n
  {
    seq(n, _ => 0)
  }

  /** Byte k of v, counting from the least significant one. */
  function ByteOf(v: nat, k: nat): byte {
    if k == 0 then v % 256 else ByteOf(v / 256, k - 1)
  }

  /** The low n bytes of v, least significant first. */
  function LittleEndian(v: nat, n: nat): (b: seq<byte>)
    ensures |b| == n
  {
    seq(n, k requires 0 <= k => ByteOf(v, k))
  }

  /** Little-endian image of a 32-bit word. */
  function Le32(v: uint32): (b: seq<byte>)
    ensures |b| == 4
  {
    LittleEndian(v, 4)
  }

  function Le16(v: nat): (b: seq<byte>)
    requires v < 65536
    ensures |b| == 2
  {
    LittleEndian(v, 2)
  }

  function Read32(s: seq<byte>, p: nat): uint32
    requires p + 4 <= |s|
  {
    s[p] as int + 256 * s[p + 1] as int + 65536 * s[p + 2] as int + 16777216 * s[p + 3] as int
  }

  function Read16(s: seq<byte>, p: nat): nat
    requires p + 2 <= |s|
  {
    s[p] as int + 256 * s[p + 1] as int
  }

  lemma {:induction false} Le32RoundTrip(v: uint32)
    ensures Read32(Le32(v), 0) == v
  {
    var v1 := v / 256;
    var v2 := v1 / 256;
    var v3 := v2 / 256;
    assert ByteOf(v, 1) == v1 % 256;
    assert ByteOf(v, 2) == ByteOf(v1, 1) == v2 % 256;
    assert ByteOf(v, 3) == ByteOf(v1, 2) == ByteOf(v2, 1) == v3 % 256;
  }

  lemma {:induction false} Le16RoundTrip(v: nat)
    requires v < 65536
    ensures Read16(Le16(v), 0) == v
  {
    assert ByteOf(v, 1) == v / 256 % 256;
  }

  /** Reading a word from inside a larger buffer only depends on the four bytes there. */
  lemma {:induction false} Read32Slice(s: seq<byte>, p: nat, v: uint32)
    requires p + 4 <= |s| && s[p..p + 4] == Le32(v)
    ensures Read32(s, p) == v
  {
    Le32RoundTrip(v);
    var w := s[p..p + 4];
    assert w[0] == s[p] && w[1] == s[p + 1] && w[2] == s[p + 2] && w[3] == s[p + 3];
  }

  /** An array of 32-bit words. */
  function Words(ws: seq<nat>): (b: seq<byte>)
    ensures |b| == 4 * |ws|
  {
    seq(4 * |ws|, k requires 0 <= k < 4 * |ws| => ByteOf(U32(ws[k / 4]), k % 4))
  }

  lemma {:induction false} WordsAt(ws: seq<nat>, i: nat)
    requires i < |ws|
    ensures Words(ws)[4 * i..4 * i + 4] == Le32(U32(ws[i]))
  {
    forall k | 0 <= k < 4 ensures Words(ws)[4 * i + k] == Le32(U32(ws[i]))[k] {
      assert (4 * i + k) / 4 == i && (4 * i + k) % 4 == k;
    }
  }
}
