/** Fixed-width integers, powers of two and big-endian byte strings.
  * Bit operations of the source on disjoint bit ranges are written as
  * arithmetic: `a | (b << k)` with `a < 2^k` is `a + b * 2^k`. */
module Bytes {
  type u8 = v: int | 0 <= v < 0x100
  type u16 = v: int | 0 <= v < 0x1_0000
  type u32 = v: int | 0 <= v < 0x1_0000_0000
  type u64 = v: int | 0 <= v < 0x1_0000_0000_0000_0000
  type i8 = v: int | -0x80 <= v < 0x80
  type i16 = v: int | -0x8000 <= v < 0x8000
  type i32 = v: int | -0x8000_0000 <= v < 0x8000_0000
  type i64 = v: int | -0x8000_0000_0000_0000 <= v < 0x8000_0000_0000_0000

  const TWO32 := 0x1_0000_0000
  const TWO64 := 0x1_0000_0000_0000_0000
  const MAX_I32: i32 := 0x7FFF_FFFF

  datatype Option<+T> = None | Some(value: T)

  // Truncating conversions: what a cast to the fixed-width type keeps. A value
  // of the type itself is unchanged.

  function AsU8(v: int): (r: u8)
    ensures 0 <= v < 0x100 ==> r == v
  {
    v % 0x100
  }

  function AsI8(v: int): (r: i8)
    ensures -0x80 <= v < 0x80 ==> r == v
    ensures AsU8(r) == AsU8(v)
  {
    var u := v % 0x100;
    if u < 0x80 then u else u - 0x100
  }

  function AsU16(v: int): (r: u16)
    ensures 0 <= v < 0x1_0000 ==> r == v
  {
    v % 0x1_0000
  }

  function AsI16(v: int): (r: i16)
    ensures -0x8000 <= v < 0x8000 ==> r == v
    ensures AsU16(r) == AsU16(v)
  {
    var u := v % 0x1_0000;
    if u < 0x8000 then u else u - 0x1_0000
  }

  function AsU32(v: int): (r: u32)
    ensures 0 <= v < TWO32 ==> r == v
  {
    v % TWO32
  }

  function AsI32(v: int): (r: i32)
    ensures -0x8000_0000 <= v < 0x8000_0000 ==> r == v
    ensures AsU32(r) == AsU32(v)
  {
    var u := v % TWO32;
    if u < 0x8000_0000 then u else u - TWO32
  }

  function AsU64(v: int): (r: u64)
    ensures 0 <= v < TWO64 ==> r == v
  {
    v % TWO64
  }

  function AsI64(v: int): (r: i64)
    ensures -0x8000_0000_0000_0000 <= v < 0x8000_0000_0000_0000 ==> r == v
    ensures AsU64(r) == AsU64(v)
  {
    var u := v % TWO64;
    if u < 0x8000_0000_0000_0000 then u else u - TWO64
  }

  function Pow2(n: nat): (p: nat)
    ensures p >= 1
  {
    if n == 0 then 1 else 2 * Pow2(n - 1)
  }

  lemma {:induction false} Pow2Add(a: nat, b: nat)
    ensures Pow2(a + b) == Pow2(a) * Pow2(b)
  {
    if a != 0 {
      Pow2Add(a - 1, b);
      DoubledFirst(Pow2(a - 1), Pow2(b));
    }
  }

  lemma DoubledFirst(x: nat, y: nat)
    ensures 2 * (x * y) == (2 * x) * y
  {
  }

  lemma {:induction false} Pow2Monotonic(a: nat, b: nat)
    requires a <= b
    ensures Pow2(a) <= Pow2(b)
  {
    Pow2Add(a, b - a);
    MulMonotonic(Pow2(a), 1, Pow2(b - a));
  }

  lemma Pow16()
    ensures Pow2(16) == 0x1_0000
  {
    assert Pow2(8) == 256;
    Pow2Add(8, 8);
  }

  lemma Pow32()
    ensures Pow2(32) == TWO32
  {
    Pow16();
    Pow2Add(16, 16);
  }

  lemma Pow64()
    ensures Pow2(64) == TWO64
  {
    Pow32();
    Pow2Add(32, 32);
  }

  lemma MulMonotonic(a: nat, x: int, y: int)
    requires x <= y
    ensures a * x <= a * y
  {
  }

  /** Quotient and remainder of `d + m * q` by `m` when `d` is a digit. */
  lemma DivModUnique(m: nat, q: int, d: nat)
    requires d < m
    ensures (d + m * q) / m == q
    ensures (d + m * q) % m == d
  {
    var n := d + m * q;
    assert n == m * (n / m) + n % m;
    assert m * (n / m - q) == d - n % m by { MulSub(m, n / m, q); }
    if n / m > q {
      MulMonotonic(m, 1, n / m - q);
    } else if n / m < q {
      MulMonotonic(m, n / m - q, -1);
    }
  }

  lemma MulSub(a: int, x: int, y: int)
    ensures a * (x - y) == a * x - a * y
  {
  }

  lemma DivNested(n: nat, a: nat, b: nat)
    requires a > 0 && b > 0
    ensures a * b > 0
    ensures n / (a * b) == (n / a) / b
  {
    MulMonotonic(a, 1, b);
    var q, r := n / a, n % a;
    var q2, r2 := q / b, q % b;
    assert n == a * q + r && q == b * q2 + r2;
    assert a * (b * q2 + r2) == (a * b) * q2 + a * r2;
    MulMonotonic(a, r2, b - 1);
    assert a * r2 + r < a * b;
    assert a * r2 + r >= 0;
    DivModUnique(a * b, q2, a * r2 + r);
  }

  function BigEndian(u: nat, k: nat): (s: seq<u8>)
    ensures |s| == k
  {
    if k == 0 then [] else BigEndian(u / 256, k - 1) + [u % 256]
  }

  function FromBigEndian(s: seq<u8>): (u: nat)
  {
    if s == [] then 0 else FromBigEndian(s[..|s| - 1]) * 256 + s[|s| - 1]
  }

  lemma {:induction false} BigEndianRoundTrip(u: nat, k: nat)
    requires u < Pow2(8 * k)
    ensures FromBigEndian(BigEndian(u, k)) == u
  {
    if k > 0 {
      Pow2Add(8 * (k - 1), 8);
      assert Pow2(8) == 256;
      assert u / 256 < Pow2(8 * (k - 1));
      BigEndianRoundTrip(u / 256, k - 1);
      var s := BigEndian(u, k);
      assert s[..|s| - 1] == BigEndian(u / 256, k - 1);
    }
  }

  lemma {:induction false} FromBigEndianBound(s: seq<u8>)
    ensures FromBigEndian(s) < Pow2(8 * |s|)
  {
    if s != [] {
      FromBigEndianBound(s[..|s| - 1]);
      Pow2Add(8 * (|s| - 1), 8);
      assert Pow2(8) == 256;
    }
  }
}
