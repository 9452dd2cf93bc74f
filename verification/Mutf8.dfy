/** Java's modified UTF-8: text through UTF-16 code units, each unit in one to
  * three bytes, U+0000 in two. Text is a sequence of Unicode scalar values. */
module Mutf8 {
  import opened Bytes

  type Scalar = v: int | 0 <= v <= 0x10_FFFF && !(0xD800 <= v <= 0xDFFF)
  type Text = seq<Scalar>

  const REPLACEMENT: Scalar := 0xFFFD

  // ---- UTF-16 (RFC 2781, sections 2.1 and 2.2) ----

  function ScalarUnits(c: Scalar): seq<u16> {
    if c < 0x1_0000 then [c]
    else [0xD800 + (c - 0x1_0000) / 0x400, 0xDC00 + (c - 0x1_0000) % 0x400]
  }

  function Encode16(s: Text): seq<u16> {
    if s == [] then [] else ScalarUnits(s[0]) + Encode16(s[1..])
  }

  predicate HighSurrogate(u: u16) { 0xD800 <= u < 0xDC00 }
  predicate LowSurrogate(u: u16) { 0xDC00 <= u < 0xE000 }

  /** Unpaired surrogates become the replacement character. */
  function Decode16(us: seq<u16>): Text {
    if us == [] then []
    else if !HighSurrogate(us[0]) && !LowSurrogate(us[0]) then [us[0]] + Decode16(us[1..])
    else if HighSurrogate(us[0]) && |us| > 1 && LowSurrogate(us[1]) then
      [0x1_0000 + (us[0] - 0xD800) * 0x400 + (us[1] - 0xDC00)] + Decode16(us[2..])
    else [REPLACEMENT] + Decode16(us[1..])
  }

  lemma {:induction false} Utf16RoundTrip(s: Text)
    ensures Decode16(Encode16(s)) == s
  {
    if s != [] {
      Utf16RoundTrip(s[1..]);
      var us := Encode16(s);
      if s[0] < 0x1_0000 {
        assert us[1..] == Encode16(s[1..]);
      } else {
        assert us[0] == ScalarUnits(s[0])[0] && us[1] == ScalarUnits(s[0])[1];
        assert us[2..] == Encode16(s[1..]);
      }
    }
  }

  // ---- Code units as bytes ----

  function UnitBytes(c: u16): (b: seq<u8>)
    ensures 1 <= |b| <= 3 && 0 !in b
  {
    if 1 <= c <= 0x7F then [c]
    else if c <= 0x7FF then [0xC0 + c / 64, 0x80 + c % 64]
    else [0xE0 + c / 4096, 0x80 + (c / 64) % 64, 0x80 + c % 64]
  }

  function UnitsBytes(us: seq<u16>): seq<u8> {
    if us == [] then [] else UnitBytes(us[0]) + UnitsBytes(us[1..])
  }

  predicate Continuation(b: u8) { 0x80 <= b < 0xC0 }

  function Join2(a: int, b: int): u16 { a % 32 * 64 + b % 64 }
  function Join3(a: int, b: int, c: int): u16 { a % 16 * 4096 + b % 64 * 64 + c % 64 }

  /** The units of `b` after those already in `acc`; overlong forms are accepted. */
  function DecodeUnits(b: seq<u8>, acc: seq<u16>): Option<seq<u16>>
    decreases |b|
  {
    if b == [] then Some(acc)
    else if b[0] < 0x80 then DecodeUnits(b[1..], acc + [b[0]])
    else if 0xC0 <= b[0] < 0xE0 then
      if |b| < 2 || !Continuation(b[1]) then None
      else DecodeUnits(b[2..], acc + [Join2(b[0], b[1])])
    else if 0xE0 <= b[0] < 0xF0 then
      if |b| < 3 || !Continuation(b[1]) || !Continuation(b[2]) then None
      else DecodeUnits(b[3..], acc + [Join3(b[0], b[1], b[2])])
    else None
  }

  function EncodeMutf8(s: Text): seq<u8> { UnitsBytes(Encode16(s)) }

  function DecodeMutf8(b: seq<u8>): Option<Text> {
    match DecodeUnits(b, [])
    case None => None
    case Some(us) => Some(Decode16(us))
  }

  lemma JoinsInvert(c: u16)
    ensures c <= 0x7FF ==> Join2(0xC0 + c / 64, 0x80 + c % 64) == c
    ensures Join3(0xE0 + c / 4096, 0x80 + (c / 64) % 64, 0x80 + c % 64) == c
  {
    if c <= 0x7FF {
      DivModUnique(32, 6, c / 64);
    }
    DivModUnique(64, 2, c % 64);
    DivModUnique(64, 2, (c / 64) % 64);
    DivModUnique(16, 14, c / 4096);
    DivNested(c, 64, 64);
  }

  lemma UnitDecodes(c: u16, tail: seq<u8>, acc: seq<u16>)
    ensures DecodeUnits(UnitBytes(c) + tail, acc) == DecodeUnits(tail, acc + [c])
  {
    hide Join2, Join3, DecodeUnits;
    var e := UnitBytes(c);
    var b := e + tail;
    assert b[|e|..] == tail;
    assert forall i :: 0 <= i < |e| ==> b[i] == e[i];
    JoinsInvert(c);
    FrontDecoded(b, acc);
  }

  /** One step of the decoder, by the first byte. */
  lemma FrontDecoded(b: seq<u8>, acc: seq<u16>)
    requires b != []
    ensures b[0] < 0x80 ==> DecodeUnits(b, acc) == DecodeUnits(b[1..], acc + [b[0]])
    ensures 0xC0 <= b[0] < 0xE0 && |b| >= 2 && Continuation(b[1]) ==>
              DecodeUnits(b, acc) == DecodeUnits(b[2..], acc + [Join2(b[0], b[1])])
    ensures 0xE0 <= b[0] < 0xF0 && |b| >= 3 && Continuation(b[1]) && Continuation(b[2]) ==>
              DecodeUnits(b, acc) == DecodeUnits(b[3..], acc + [Join3(b[0], b[1], b[2])])
  {
    hide Join2, Join3;
  }

  lemma {:induction false} UnitsRoundTrip(us: seq<u16>, acc: seq<u16>)
    ensures DecodeUnits(UnitsBytes(us), acc) == Some(acc + us)
  {
    if us == [] {
      assert acc + us == acc;
    } else {
      UnitDecodes(us[0], UnitsBytes(us[1..]), acc);
      UnitsRoundTrip(us[1..], acc + [us[0]]);
      assert acc + [us[0]] + us[1..] == acc + us;
    }
  }

  lemma Mutf8RoundTrip(s: Text)
    ensures DecodeMutf8(EncodeMutf8(s)) == Some(s)
  {
    UnitsRoundTrip(Encode16(s), []);
    assert [] + Encode16(s) == Encode16(s);
    Utf16RoundTrip(s);
  }

  lemma Mutf8Injective(s: Text, t: Text)
    requires EncodeMutf8(s) == EncodeMutf8(t)
    ensures s == t
  {
    Mutf8RoundTrip(s);
    Mutf8RoundTrip(t);
  }

  lemma {:induction false} NoZeroByte(us: seq<u16>)
    ensures 0 !in UnitsBytes(us)
  {
    if us != [] {
      NoZeroByte(us[1..]);
    }
  }

  lemma Mutf8NeverZero(s: Text)
    ensures 0 !in EncodeMutf8(s)
  {
    NoZeroByte(Encode16(s));
  }

  /** Decoding is not injective: a character has overlong forms, and NUL a raw one, that read too. */
  lemma OverlongAccepted(c: u8, form: seq<u8>)
    requires c < 0x80
    requires form == [c] || form == [0xC0 + c / 64, 0x80 + c % 64] || form == [0xE0, 0x80 + c / 64, 0x80 + c % 64]
    ensures DecodeMutf8(form) == Some([c])
  {
    var us: seq<u16> := [c];
    assert DecodeUnits(form, []) == Some([] + us) by {
      JoinsInvert(c);
      assert form[|form|..] == [];
    }
    assert [] + us == us;
    assert Decode16(us) == [us[0]] + Decode16(us[1..]) == [c];
  }

  /** Nor are surrogates asked to be in pairs: one that stands alone is read as the
    * replacement character, which is written in other bytes. */
  lemma LoneSurrogateAccepted(u: u16)
    requires HighSurrogate(u) || LowSurrogate(u)
    ensures DecodeMutf8(UnitBytes(u)) == Some([0xFFFD])
    ensures EncodeMutf8([0xFFFD]) != UnitBytes(u)
  {
    hide UnitBytes, DecodeUnits;
    UnitDecodes(u, [], []);
    UnitDecodes(REPLACEMENT, [], []);
    NoUnits(u);
    NoUnits(REPLACEMENT);
    var us: seq<u16> := [u];
    assert us[1..] == [] && Decode16(us[1..]) == [];
    assert Decode16(us) == [REPLACEMENT] + [] == [REPLACEMENT];
    assert DecodeUnits(UnitBytes(u), []) == Some(us);
    var t: Text := [REPLACEMENT];
    assert t[1..] == [] && Encode16(t) == [REPLACEMENT] + [];
  }

  lemma NoUnits(u: u16)
    ensures DecodeUnits([], [] + [u]) == Some([u]) && UnitBytes(u) + [] == UnitBytes(u)
    ensures UnitsBytes([u]) == UnitBytes(u)
  {
    hide UnitBytes;
    assert [] + [u] == [u];
    assert [u][1..] == [] && UnitsBytes([]) == [];
    assert UnitBytes(u) + [] == UnitBytes(u);
  }

  // ---- Which accepted bytes the encoder writes ----

  /** How many bytes the unit at the front takes, by its first byte. */
  function HeadSize(b: seq<u8>): (n: nat)
    requires b != []
    ensures 1 <= n <= 3
  {
    if b[0] < 0x80 then 1 else if b[0] < 0xE0 then 2 else 3
  }

  function HeadUnit(b: seq<u8>): u16
    requires b != [] && HeadSize(b) <= |b|
  {
    if b[0] < 0x80 then b[0] else if b[0] < 0xE0 then Join2(b[0], b[1]) else Join3(b[0], b[1], b[2])
  }

  /** The front unit in its shortest form, U+0000 in its two-byte one. */
  predicate HeadShortest(b: seq<u8>)
    requires b != [] && HeadSize(b) <= |b|
  {
    var c := HeadUnit(b);
    if HeadSize(b) == 1 then c != 0 else if HeadSize(b) == 2 then c == 0 || c >= 0x80 else c >= 0x800
  }

  /** Every unit is in its shortest form. */
  predicate Shortest(b: seq<u8>)
    decreases |b|
  {
    b == [] || (HeadSize(b) <= |b| && HeadShortest(b) && Shortest(b[HeadSize(b)..]))
  }

  /** No surrogate stands alone. */
  predicate Paired(us: seq<u16>) {
    us == []
    || (if HighSurrogate(us[0]) then |us| > 1 && LowSurrogate(us[1]) && Paired(us[2..])
        else !LowSurrogate(us[0]) && Paired(us[1..]))
  }

  lemma {:induction false} DecodedAfter(b: seq<u8>, acc: seq<u16>)
    ensures DecodeUnits(b, acc).Some? <==> DecodeUnits(b, []).Some?
    ensures DecodeUnits(b, acc).Some? ==> DecodeUnits(b, acc).value == acc + DecodeUnits(b, []).value
    decreases |b|
  {
    if b == [] {
      assert acc + [] == acc;
    } else if HeadSize(b) <= |b| {
      var n, c := HeadSize(b), HeadUnit(b);
      DecodedAfter(b[n..], acc + [c]);
      DecodedAfter(b[n..], [c]);
      assert [] + [c] == [c];
      if DecodeUnits(b[n..], []).Some? {
        var us := DecodeUnits(b[n..], []).value;
        assert acc + [c] + us == acc + ([c] + us);
      }
    }
  }

  lemma DecodedHead(b: seq<u8>)
    requires b != [] && DecodeUnits(b, []).Some?
    ensures HeadSize(b) <= |b| && DecodeUnits(b[HeadSize(b)..], []).Some?
    ensures DecodeUnits(b, []).value == [HeadUnit(b)] + DecodeUnits(b[HeadSize(b)..], []).value
    ensures HeadSize(b) == 2 ==> 0xC0 <= b[0] < 0xE0 && Continuation(b[1])
    ensures HeadSize(b) == 3 ==> 0xE0 <= b[0] < 0xF0 && Continuation(b[1]) && Continuation(b[2])
  {
    assert [] + [HeadUnit(b)] == [HeadUnit(b)];
    DecodedAfter(b[HeadSize(b)..], [HeadUnit(b)]);
  }

  /** The front bytes are the encoder's exactly when they are shortest; otherwise
    * already the first byte differs. */
  lemma HeadBytes(b: seq<u8>)
    requires b != [] && HeadSize(b) <= |b|
    requires HeadSize(b) == 2 ==> 0xC0 <= b[0] < 0xE0 && Continuation(b[1])
    requires HeadSize(b) == 3 ==> 0xE0 <= b[0] < 0xF0 && Continuation(b[1]) && Continuation(b[2])
    ensures HeadShortest(b) ==> UnitBytes(HeadUnit(b)) == b[..HeadSize(b)]
    ensures !HeadShortest(b) ==> UnitBytes(HeadUnit(b))[0] != b[0]
  {
    hide UnitBytes, Join2, Join3;
    if HeadSize(b) == 1 {
      UnitOfOne(b[0]);
      assert b[..1] == [b[0]];
    } else if HeadSize(b) == 2 {
      UnitOfTwo(b[0], b[1]);
      assert b[..2] == [b[0], b[1]];
    } else {
      UnitOfThree(b[0], b[1], b[2]);
      assert b[..3] == [b[0], b[1], b[2]];
    }
  }

  lemma UnitOfOne(a: u8)
    requires a < 0x80
    ensures a != 0 ==> UnitBytes(a) == [a]
    ensures a == 0 ==> UnitBytes(a)[0] != a
  {
  }

  lemma UnitOfTwo(a: u8, b: u8)
    requires 0xC0 <= a < 0xE0 && 0x80 <= b < 0xC0
    ensures var c := Join2(a, b);
            && (c == 0 || c >= 0x80 ==> UnitBytes(c) == [a, b])
            && (!(c == 0 || c >= 0x80) ==> UnitBytes(c)[0] != a)
  {
    SplitTwo(a, b);
    hide Join2;
  }

  lemma UnitOfThree(a: u8, b: u8, c: u8)
    requires 0xE0 <= a < 0xF0 && 0x80 <= b < 0xC0 && 0x80 <= c < 0xC0
    ensures var u := Join3(a, b, c);
            (u >= 0x800 ==> UnitBytes(u) == [a, b, c]) && (u < 0x800 ==> UnitBytes(u)[0] != a)
  {
    hide Join3;
    SplitThree(a, b, c);
    FirstByte(Join3(a, b, c));
  }

  lemma FirstByte(c: u16)
    ensures c < 0x800 ==> UnitBytes(c)[0] < 0xE0
  {
  }

  lemma SplitTwo(a: int, b: int)
    requires 0xC0 <= a < 0xE0 && 0x80 <= b < 0xC0
    ensures Join2(a, b) <= 0x7FF && 0xC0 + Join2(a, b) / 64 == a && 0x80 + Join2(a, b) % 64 == b
  {
    DivModUnique(64, a - 0xC0, b - 0x80);
  }

  lemma SplitThree(a: int, b: int, c: int)
    requires 0xE0 <= a < 0xF0 && 0x80 <= b < 0xC0 && 0x80 <= c < 0xC0
    ensures var u := Join3(a, b, c);
            0xE0 + u / 4096 == a && 0x80 + (u / 64) % 64 == b && 0x80 + u % 64 == c
  {
    assert a % 16 == a - 0xE0 && b % 64 == b - 0x80 && c % 64 == c - 0x80;
    ThreeDigits(a - 0xE0, b - 0x80, c - 0x80);
  }

  lemma ThreeDigits(x: nat, y: nat, z: nat)
    requires y < 64 && z < 64
    ensures var u := x * 4096 + y * 64 + z; u / 4096 == x && (u / 64) % 64 == y && u % 64 == z
  {
    DivModUnique(64, x * 64 + y, z);
    DivModUnique(64, x, y);
    DivModUnique(4096, x, y * 64 + z);
  }

  lemma {:induction false} ShortestIff(b: seq<u8>)
    requires DecodeUnits(b, []).Some?
    ensures UnitsBytes(DecodeUnits(b, []).value) == b <==> Shortest(b)
    decreases |b|
  {
    hide UnitBytes, HeadUnit, HeadShortest, HeadSize;
    if b != [] {
      DecodedHead(b);
      HeadBytes(b);
      var n, c := HeadSize(b), HeadUnit(b);
      var us := DecodeUnits(b[n..], []).value;
      ShortestIff(b[n..]);
      assert ([c] + us)[1..] == us;
      FrontAndRest(b, n, UnitBytes(c), UnitsBytes(us), HeadShortest(b));
    }
  }

  lemma FrontAndRest(b: seq<u8>, n: nat, front: seq<u8>, rest: seq<u8>, same: bool)
    requires n <= |b| && b != [] && front != []
    requires same ==> front == b[..n]
    requires !same ==> front[0] != b[0]
    ensures front + rest == b <==> same && rest == b[n..]
  {
    if same {
      assert b == b[..n] + b[n..];
      if front + rest == b {
        assert rest == (front + rest)[n..];
      }
    } else {
      assert (front + rest)[0] == front[0];
    }
  }

  lemma {:induction false} PairedIff(us: seq<u16>)
    ensures Encode16(Decode16(us)) == us <==> Paired(us)
  {
    if us != [] {
      var s := Decode16(us);
      if HighSurrogate(us[0]) && |us| > 1 && LowSurrogate(us[1]) {
        PairedIff(us[2..]);
        assert s[1..] == Decode16(us[2..]);
        DivModUnique(0x400, us[0] - 0xD800, us[1] - 0xDC00);
        assert ScalarUnits(s[0]) == us[..2];
        FrontUnits(us, 2, ScalarUnits(s[0]), Encode16(s[1..]));
      } else {
        PairedIff(us[1..]);
        assert s[1..] == Decode16(us[1..]);
        FrontUnits(us, 1, ScalarUnits(s[0]), Encode16(s[1..]));
      }
    }
  }

  lemma FrontUnits(us: seq<u16>, n: nat, front: seq<u16>, rest: seq<u16>)
    requires 0 < n == |front| <= |us|
    ensures front + rest == us <==> front == us[..n] && rest == us[n..]
  {
    assert us == us[..n] + us[n..];
    if front + rest == us {
      assert front == (front + rest)[..n] && rest == (front + rest)[n..];
    }
  }

  /** Of all byte strings the decoder accepts, exactly those in shortest form
    * without a lone surrogate are the encoder's own; any other one changes when
    * it is written again. */
  lemma Mutf8CanonicalIff(b: seq<u8>)
    requires DecodeMutf8(b).Some?
    ensures EncodeMutf8(DecodeMutf8(b).value) == b <==> Shortest(b) && Paired(DecodeUnits(b, []).value)
  {
    hide DecodeUnits, UnitsBytes, Encode16, Decode16, Shortest, Paired;
    var us := DecodeUnits(b, []).value;
    var ws := Encode16(Decode16(us));
    ShortestIff(b);
    PairedIff(us);
    UnitsRoundTrip(ws, []);
    assert [] + ws == ws;
  }

  method Encode(s: Text) returns (out: seq<u8>)
    ensures out == EncodeMutf8(s)
  {
    var units := Encode16(s);
    out := [];
    for i := 0 to |units|
      invariant out + UnitsBytes(units[i..]) == UnitsBytes(units)
    {
      var c := units[i];
      var e: seq<u8>;
      if 1 <= c <= 0x7F {
        e := [c];
      } else if c == 0 || c <= 0x7FF {
        e := [0xC0 + c / 64, 0x80 + c % 64];
      } else {
        e := [0xE0 + c / 4096, 0x80 + (c / 64) % 64, 0x80 + c % 64];
      }
      assert e == UnitBytes(c);
      EncodeStep(units, i, out, e);
      out := out + e;
    }
  }

  lemma EncodeStep(units: seq<u16>, i: nat, out: seq<u8>, e: seq<u8>)
    requires i < |units| && e == UnitBytes(units[i])
    ensures out + UnitsBytes(units[i..]) == out + e + UnitsBytes(units[i + 1..])
  {
    hide UnitBytes;
    assert units[i..][1..] == units[i + 1..];
  }

  method Decode(b: seq<u8>) returns (r: Option<Text>)
    ensures r == DecodeMutf8(b)
  {
    var units: seq<u16>, i := [], 0;
    while i < |b|
      invariant i <= |b|
      invariant DecodeUnits(b[i..], units) == DecodeUnits(b, [])
    {
      var a := b[i];
      if a < 0x80 {
        units := units + [a];
        i := i + 1;
      } else if 0xC0 <= a < 0xE0 {
        if i + 1 >= |b| || !Continuation(b[i + 1]) {
          return None;
        }
        units := units + [Join2(a, b[i + 1])];
        i := i + 2;
      } else if 0xE0 <= a < 0xF0 {
        if i + 2 >= |b| || !Continuation(b[i + 1]) || !Continuation(b[i + 2]) {
          return None;
        }
        units := units + [Join3(a, b[i + 1], b[i + 2])];
        i := i + 3;
      } else {
        return None;
      }
    }
    return Some(Decode16(units));
  }
}
