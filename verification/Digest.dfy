/** The login hash as text: a signed big-endian integer in base 16. */
module Digest {
  import opened Bytes

  /** Two's complement: the first byte is signed, the rest count as they are. */
  function TwosComplement(b: seq<u8>): int {
    if b == [] then 0 else AsI8(b[0]) * Pow2(8 * (|b| - 1)) + FromBigEndian(b[1..])
  }

  function HexDigit(d: nat): char
    requires d < 16
  {
    if d < 10 then '0' + d as char else 'a' + (d - 10) as char
  }

  function HexNat(n: nat): (s: string)
    ensures s != []
  {
    if n < 16 then [HexDigit(n)] else HexNat(n / 16) + [HexDigit(n % 16)]
  }

  /** Base-16 text of an integer, as the big-integer library prints it. */
  function HexText(n: int): string {
    if n < 0 then "-" + HexNat(-n) else HexNat(n)
  }

  function DigitValue(c: char): nat {
    if '0' <= c <= '9' then (c - '0') as int else if 'a' <= c <= 'f' then (c - 'a') as int + 10 else 0
  }

  function NatValue(s: string): nat {
    if s == [] then 0 else 16 * NatValue(s[..|s| - 1]) + DigitValue(s[|s| - 1])
  }

  /** Optionally negative base-16 text read back. */
  function Value(s: string): int {
    if s != [] && s[0] == '-' then 0 - NatValue(s[1..]) else NatValue(s)
  }

  lemma DigitInverse(d: nat)
    requires d < 16
    ensures DigitValue(HexDigit(d)) == d && HexDigit(d) != '-' && (HexDigit(d) == '0' <==> d == 0)
  {
  }

  lemma {:induction false} HexNatValue(n: nat)
    ensures NatValue(HexNat(n)) == n
    ensures HexNat(n)[0] != '-' && (n > 0 ==> HexNat(n)[0] != '0')
  {
    DigitInverse(n % 16);
    hide HexDigit, DigitValue;
    var s := HexNat(n);
    if n >= 16 {
      HexNatValue(n / 16);
      assert s[..|s| - 1] == HexNat(n / 16);
    } else {
      DigitInverse(n);
      assert NatValue(s[..0]) == 0;
    }
  }

  /** The leading byte carries the highest weight. */
  lemma {:induction false} FromBigEndianHead(b: seq<u8>)
    requires b != []
    ensures FromBigEndian(b) == b[0] * Pow2(8 * (|b| - 1)) + FromBigEndian(b[1..])
  {
    var n := |b|;
    if n == 1 {
      assert b[..0] == [] && b[1..] == [];
    } else {
      var init := b[..n - 1];
      FromBigEndianHead(init);
      assert init[1..] == b[1..][..n - 2];
      assert Pow2(8) == 256;
      hide Pow2;
      Pow2Add(8 * (n - 2), 8);
      HeadAlgebra(b[0], Pow2(8 * (n - 2)), FromBigEndian(init[1..]));
    }
  }

  lemma HeadAlgebra(b: nat, p: nat, rest: nat)
    ensures (b * p + rest) * 256 == b * (p * 256) + rest * 256
  {
  }

  /** The digest: the unsigned value, less 2^(8n) when the top bit is set. */
  method MinecraftDigest(sum: seq<u8>) returns (text: string)
    ensures text == HexText(TwosComplement(sum))
  {
    var n: int := FromBigEndian(sum);
    if |sum| > 0 {
      FromBigEndianHead(sum);
      if sum[0] >= 0x80 {
        n := n - Pow2(8 * |sum|);
        SubtractTop(sum[0], Pow2(8 * (|sum| - 1)));
        Pow2Add(8, 8 * (|sum| - 1));
        assert Pow2(8) == 256;
      }
    }
    text := HexText(n);
  }

  lemma SubtractTop(b: u8, p: nat)
    requires b >= 0x80
    ensures b * p - 256 * p == AsI8(b) * p
  {
    assert AsI8(b) == b - 256;
  }

  lemma TwosComplementSign(b: seq<u8>)
    ensures TwosComplement(b) < 0 <==> b != [] && b[0] >= 0x80
  {
    if b != [] {
      FromBigEndianBound(b[1..]);
      if b[0] >= 0x80 {
        MulMonotonic(Pow2(8 * (|b| - 1)), AsI8(b[0]), -1);
      } else {
        MulMonotonic(Pow2(8 * (|b| - 1)), 0, AsI8(b[0]));
      }
    }
  }

  /** The signed value is the unsigned one up to multiples of 2^(8n), between minus half
    * of that and half of it. */
  lemma TwosComplementRange(b: seq<u8>)
    requires b != []
    ensures var half := 128 * Pow2(8 * (|b| - 1));
            && -half <= TwosComplement(b) < half
            && (TwosComplement(b) == FromBigEndian(b) || TwosComplement(b) == FromBigEndian(b) - 2 * half)
  {
    FromBigEndianBound(b[1..]);
    FromBigEndianHead(b);
    var p := Pow2(8 * (|b| - 1));
    if b[0] >= 0x80 {
      SubtractTop(b[0], p);
    }
    SignedTop(AsI8(b[0]), p, FromBigEndian(b[1..]));
  }

  lemma SignedTop(h: i8, p: nat, low: nat)
    requires low < p
    ensures -(128 * p) <= h * p + low < 128 * p
  {
    MulMonotonic(p, -128, h);
    MulMonotonic(p, h, 127);
  }

  /** Digits are the sixteen lower-case ones. */
  lemma HexDigits(d: nat)
    requires d < 16
    ensures HexDigit(d) == "0123456789abcdef"[d]
  {
  }

  lemma DigestVectors()
    ensures HexText(TwosComplement([0xFF])) == "-1" && HexText(TwosComplement([0x80])) == "-80"
    ensures HexText(TwosComplement([0x00, 0x0F])) == "f"
  {
    hide Pow2, HexNat, FromBigEndian;
    SmallTexts();
    SmallBytes();
    var b: seq<u8> := [0x00, 0x0F];
    assert b[1..] == [0x0F] && 0 * Pow2(8) == 0;
    var c: seq<u8>, d: seq<u8> := [0xFF], [0x80];
    assert c[1..] == [] && d[1..] == [];
    assert TwosComplement(c) == -1 && TwosComplement(d) == -0x80;
  }

  lemma SmallTexts()
    ensures HexNat(1) == "1" && HexNat(0x80) == "80" && HexNat(0x0F) == "f"
  {
    assert HexNat(8) == "8" && HexNat(0x80) == "8" + "0";
  }

  lemma SmallBytes()
    ensures FromBigEndian([]) == 0 && FromBigEndian([0x0F]) == 0x0F && Pow2(0) == 1
  {
  }

  /** The text reads back to the signed value, is negative exactly when the top
    * bit is set, and has no leading zero. */
  lemma DigestText(b: seq<u8>)
    ensures var t := HexText(TwosComplement(b));
            && Value(t) == TwosComplement(b)
            && (t[0] == '-' <==> b != [] && b[0] >= 0x80)
            && (t == "0" || (t[0] != '0' && (t[0] == '-' ==> |t| > 1 && t[1] != '0')))
  {
    var n := TwosComplement(b);
    TwosComplementSign(b);
    if n < 0 {
      HexNatValue(-n);
      assert HexText(n)[1..] == HexNat(-n);
    } else {
      HexNatValue(n);
    }
  }

  lemma {:induction false} FromBigEndianInjective(a: seq<u8>, b: seq<u8>)
    requires |a| == |b| && FromBigEndian(a) == FromBigEndian(b)
    ensures a == b
  {
    if a != [] {
      var n := |a| - 1;
      FromBigEndianInjective(a[..n], b[..n]);
      assert a == a[..n] + [a[n]] && b == b[..n] + [b[n]];
    }
  }

  /** Digests of equal length with the same text are the same bytes. */
  lemma DigestInjective(a: seq<u8>, b: seq<u8>)
    requires |a| == |b| && HexText(TwosComplement(a)) == HexText(TwosComplement(b))
    ensures a == b
  {
    DigestText(a);
    DigestText(b);
    TwosComplementSign(a);
    TwosComplementSign(b);
    if a != [] {
      FromBigEndianHead(a);
      FromBigEndianHead(b);
      var p := Pow2(8 * (|a| - 1));
      if a[0] >= 0x80 {
        SubtractTop(a[0], p);
        SubtractTop(b[0], p);
      }
      assert FromBigEndian(a) == FromBigEndian(b);
      FromBigEndianInjective(a, b);
    }
  }
}
