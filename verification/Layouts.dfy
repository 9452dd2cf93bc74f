/** The wire formats written out: sizes, bit positions, type bytes and whole
  * encodings as plain numbers. */
module Layouts {
  import opened Bytes
  import opened Codec
  import opened Mutf8
  import opened Nbt

  // ---- Fixed-width numbers ----

  /** What a conversion keeps is the value up to multiples of the type's range. */
  lemma Truncations(v: int)
    ensures (v - AsU8(v)) % 0x100 == 0 && (v - AsI8(v)) % 0x100 == 0
    ensures (v - AsU16(v)) % 0x1_0000 == 0 && (v - AsI16(v)) % 0x1_0000 == 0
    ensures (v - AsU32(v)) % 0x1_0000_0000 == 0 && (v - AsI32(v)) % 0x1_0000_0000 == 0
    ensures (v - AsU64(v)) % 0x1_0000_0000_0000_0000 == 0 && (v - AsI64(v)) % 0x1_0000_0000_0000_0000 == 0
  {
    WholeRanges(v, 0x100);
    WholeRanges(v, 0x1_0000);
    WholeRanges(v, 0x1_0000_0000);
    WholeRanges(v, 0x1_0000_0000_0000_0000);
  }

  lemma WholeRanges(v: int, m: nat)
    requires m > 0
    ensures (v - v % m) % m == 0 && (v - (v % m - m)) % m == 0
  {
    assert v - v % m == 0 + m * (v / m) && v - (v % m - m) == 0 + m * (v / m + 1);
    DivModUnique(m, v / m, 0);
    DivModUnique(m, v / m + 1, 0);
  }

  /** Byte i of k, counted from the front, holds bits 8 * (k - 1 - i) and up. */
  lemma {:induction false} BigEndianByte(u: nat, k: nat, i: nat)
    requires i < k
    ensures BigEndian(u, k)[i] == u / Pow2(8 * (k - 1 - i)) % 256
  {
    if i < k - 1 {
      BigEndianByte(u / 256, k - 1, i);
      Pow2Add(8, 8 * (k - 2 - i));
      assert Pow2(8) == 256;
      hide Pow2, BigEndian;
      DivNested(u, 256, Pow2(8 * (k - 2 - i)));
    }
  }

  /** Two, four and eight bytes, of the value modulo the range of that size. */
  lemma FixedSizes(short: i16, int32: i32, long: i64, bits32: u32, bits64: u64)
    ensures ShortBytes(short) == BigEndian(short % 0x1_0000, 2)
    ensures IntBytes(int32) == BigEndian(int32 % 0x1_0000_0000, 4)
    ensures LongBytes(long) == BigEndian(long % 0x1_0000_0000_0000_0000, 8)
    ensures FloatBytes(bits32) == BigEndian(bits32, 4) && DoubleBytes(bits64) == BigEndian(bits64, 8)
  {
  }

  // ---- VarInts ----

  /** Group i holds bits 7 * i and up; only the last has its high bit clear. */
  lemma {:induction false} LebGroup(u: nat, i: nat)
    requires i < |Leb(u)|
    ensures Leb(u)[i] == u / Pow2(7 * i) % 128 + if i < |Leb(u)| - 1 then 128 else 0
  {
    if i > 0 {
      LebGroup(u / 128, i - 1);
      Pow2Add(7, 7 * (i - 1));
      assert Pow2(7) == 128;
      hide Pow2;
      DivNested(u, 128, Pow2(7 * (i - 1)));
    }
  }

  lemma VarIntVectors()
    ensures VarIntBytes(0) == [0x00] && VarIntBytes(127) == [0x7F] && VarIntBytes(128) == [0x80, 0x01]
    ensures VarIntBytes(25565) == [0xDD, 0xC7, 0x01] && VarIntBytes(-1) == [0xFF, 0xFF, 0xFF, 0xFF, 0x0F]
  {
    assert AsU32(-1) == 4294967295;
  }

  /** What stops a read: too few bytes, a negative length, a fifth byte that goes on. */
  lemma ReadErrors(s: seq<u8>, n: int, k: nat)
    ensures n < 0 ==> ParseRaw(s, n) == Err(NegativeLength)
    ensures n > |s| ==> ParseRaw(s, n) == Err(Truncated)
    ensures k > |s| ==> ParseUnsigned(s, k) == Err(Truncated)
    ensures ParseUByte([]) == Err(Truncated) && ParseVarInt([]) == Err(Truncated)
    ensures |s| >= 5 && (forall i :: 0 <= i < 5 ==> s[i] >= 128) ==> ParseVarInt(s) == Err(VarIntTooLong)
    ensures 1 <= |s| < 5 && (forall i :: 0 <= i < |s| ==> s[i] >= 128) ==> ParseVarInt(s) == Err(Truncated)
  {
    if forall i :: 0 <= i < |s| && i < 5 ==> s[i] >= 128 {
      GoesOn(s, 5, VarIntTooLong);
    }
  }

  lemma {:induction false} GoesOn(s: seq<u8>, k: nat, e: Error)
    requires forall i :: 0 <= i < |s| && i < k ==> s[i] >= 128
    ensures ParseLeb(s, k, e) == if |s| < k then Err(Truncated) else Err(e)
    decreases k
  {
    if k > 0 && s != [] {
      GoesOn(s[1..], k - 1, e);
    }
  }

  // ---- Positions ----

  /** From the high end: 26 bits of x, 26 of z, 12 of y. */
  lemma PositionFields(x: i32, y: i32, z: i32)
    ensures var u := PackPosition(x, y, z) % 0x1_0000_0000_0000_0000;
            && u / 0x40_0000_0000 == x % 0x400_0000
            && u / 0x1000 % 0x400_0000 == z % 0x400_0000
            && u % 0x1000 == y % 0x1000
  {
    var (X, Y, Z) := (x % 0x400_0000, y % 0x1000, z % 0x400_0000);
    var u := X * 0x40_0000_0000 + Z * 0x1000 + Y;
    assert PackPosition(x, y, z) % 0x1_0000_0000_0000_0000 == u;
    DivModUnique(0x40_0000_0000, X, Z * 0x1000 + Y);
    DivModUnique(0x1000, X * 0x400_0000 + Z, Y);
    DivModUnique(0x400_0000, X, Z);
  }

  // ---- Text ----

  /** One byte up to 127, two up to 2047 and for 0, else three, six bits in each but the first. */
  lemma UnitForms(c: u16)
    ensures var b := UnitBytes(c);
            if 1 <= c < 0x80 then b == [c]
            else if c < 0x800 then
              && |b| == 2 && 0xC0 <= b[0] < 0xE0 && 0x80 <= b[1] < 0xC0
              && c as int == 64 * (b[0] as int - 0xC0) + (b[1] as int - 0x80)
            else
              && |b| == 3 && 0xE0 <= b[0] < 0xF0 && 0x80 <= b[1] < 0xC0 && 0x80 <= b[2] < 0xC0
              && c as int == 4096 * (b[0] as int - 0xE0) + 64 * (b[1] as int - 0x80) + (b[2] as int - 0x80)
  {
  }

  /** One unit up to 65535, above a high and a low surrogate with ten bits each. */
  lemma ScalarForms(c: Scalar)
    ensures var us := ScalarUnits(c);
            if c < 0x1_0000 then us == [c]
            else
              && |us| == 2 && 0xD800 <= us[0] < 0xDC00 && 0xDC00 <= us[1] < 0xE000
              && c as int == 0x1_0000 + 1024 * (us[0] as int - 0xD800) + (us[1] as int - 0xDC00)
  {
  }

  // ---- NBT ----

  lemma TypeIds(t: Tag)
    ensures TypeId(t)
            == if t.TByte? then 1 else if t.TShort? then 2 else if t.TInt? then 3 else if t.TLong? then 4
               else if t.TFloat? then 5 else if t.TDouble? then 6 else if t.TByteArray? then 7
               else if t.TString? then 8 else if t.TList? then 9 else if t.TCompound? then 10
               else if t.TIntArray? then 11 else 12
  {
  }

  lemma SmallInts()
    ensures IntBytes(0) == [0x00, 0x00, 0x00, 0x00] && IntBytes(1) == [0x00, 0x00, 0x00, 0x01]
    ensures IntBytes(2) == [0x00, 0x00, 0x00, 0x02] && IntBytes(42) == [0x00, 0x00, 0x00, 0x2A]
    ensures IntBytes(-1) == [0xFF, 0xFF, 0xFF, 0xFF]
    ensures ShortBytes(1) == [0x00, 0x01] && ShortBytes(-1) == [0xFF, 0xFF]
    ensures LongBytes(1) == [0x00, 0x00, 0x00, 0x00, 0x00, 0x00, 0x00, 0x01]
  {
  }

  /** Letters are their own bytes. */
  lemma {:induction false} AsciiString(s: Text)
    requires |s| < 256 && forall i :: 0 <= i < |s| ==> 1 <= s[i] < 0x80
    ensures EncodeMutf8(s) == s && StringBytes(s) == [0x00, |s|] + s
  {
    AsciiEncoded(s);
    hide EncodeMutf8;
    assert BigEndian(|s|, 2) == BigEndian(|s| / 256, 1) + [|s| % 256] && BigEndian(0, 1) == [0];
  }

  lemma {:induction false} AsciiEncoded(s: Text)
    requires forall i :: 0 <= i < |s| ==> 1 <= s[i] < 0x80
    ensures EncodeMutf8(s) == s
  {
    if s != [] {
      AsciiEncoded(s[1..]);
      var us := Encode16(s);
      assert us == [s[0]] + Encode16(s[1..]) && us[1..] == Encode16(s[1..]);
      assert UnitBytes(s[0]) == [s[0]];
    }
  }

  const FOO: Text := [0x66, 0x6F, 0x6F]
  const HI: Text := [0x68, 0x69]
  const ROOT: Text := [0x72, 0x6F, 0x6F, 0x74]
  const X: Text := [0x78]

  lemma Strings()
    ensures StringBytes(FOO) == [0x00, 0x03, 0x66, 0x6F, 0x6F] && StringBytes(HI) == [0x00, 0x02, 0x68, 0x69]
    ensures StringBytes(ROOT) == [0x00, 0x04, 0x72, 0x6F, 0x6F, 0x74] && StringBytes(X) == [0x00, 0x01, 0x78]
  {
    hide StringBytes;
    AsciiString(FOO);
    AsciiString(HI);
    AsciiString(ROOT);
    AsciiString(X);
  }

  /** {foo: 42} and "hi" without a root name. */
  lemma NetworkVectors()
    ensures NetworkBytes(Some(TCompound([Entry(FOO, TInt(42))])))
            == [10] + ([3] + ([0x00, 0x03, 0x66, 0x6F, 0x6F] + [0x00, 0x00, 0x00, 0x2A]) + [0])
    ensures NetworkBytes(Some(TString(HI))) == [8] + [0x00, 0x02, 0x68, 0x69] && NetworkBytes(None) == [0]
  {
    hide StringBytes, IntBytes, PayloadBytes;
    SmallInts();
    Strings();
    OneEntry(Entry(FOO, TInt(42)));
    Leaves(42, 0, HI);
  }

  lemma Leaves(v: i32, b: i8, s: Text)
    ensures PayloadBytes(TInt(v)) == IntBytes(v) && PayloadBytes(TString(s)) == StringBytes(s)
    ensures PayloadBytes(TByte(b)) == [b % 256]
  {
    hide StringBytes, IntBytes;
  }

  /** {x: 1b} under the root name "root". */
  lemma DiskVectors()
    ensures DiskBytes(ROOT, Some(TCompound([Entry(X, TByte(1))])))
            == [10] + ([0x00, 0x04, 0x72, 0x6F, 0x6F, 0x74] + ([1] + ([0x00, 0x01, 0x78] + [1]) + [0]))
    ensures DiskBytes(ROOT, None) == [0]
  {
    hide StringBytes, PayloadBytes;
    Strings();
    OneEntry(Entry(X, TByte(1)));
    Leaves(0, 1, X);
  }

  lemma OneEntry(e: Entry)
    ensures PayloadBytes(TCompound([e])) == [TypeId(e.tag)] + (StringBytes(e.name) + PayloadBytes(e.tag)) + [0]
  {
    hide StringBytes, TypeId;
    assert [e][1..] == [] && EntriesBytes([]) == [];
    assert EntriesBytes([e]) == EntryBytes(e) + EntriesBytes([e][1..]);
  }

  lemma ArrayVectors()
    ensures PayloadBytes(TByteArray([7])) == [0x00, 0x00, 0x00, 0x01] + [7]
    ensures PayloadBytes(TIntArray([42, -1]))
            == [0x00, 0x00, 0x00, 0x02] + ([0x00, 0x00, 0x00, 0x2A] + ([0xFF, 0xFF, 0xFF, 0xFF] + []))
    ensures PayloadBytes(TLongArray([1]))
            == [0x00, 0x00, 0x00, 0x01] + ([0x00, 0x00, 0x00, 0x00, 0x00, 0x00, 0x00, 0x01] + [])
  {
    hide IntBytes, LongBytes, ElemsBytes, EntriesBytes, StringBytes, ShortBytes, FloatBytes, DoubleBytes;
    SmallInts();
    var v: seq<i32> := [42, -1];
    assert v[1..] == [-1] && v[1..][1..] == [];
    assert IntsBytes(v[1..]) == IntBytes(-1) + IntsBytes([]) == IntBytes(-1) + [];
    var w: seq<i64> := [1];
    assert w[1..] == [] && LongsBytes(w) == LongBytes(1) + [];
  }

  lemma ListVectors(et: u8)
    ensures PayloadBytes(TList(2, [TShort(1), TShort(-1)]))
            == [2] + ([0x00, 0x00, 0x00, 0x02] + ([0x00, 0x01] + ([0xFF, 0xFF] + [])))
    ensures PayloadBytes(TList(et, [])) == [0] + ([0x00, 0x00, 0x00, 0x00] + [])
  {
    hide IntBytes, ShortBytes, LongBytes, EntriesBytes, StringBytes, FloatBytes, DoubleBytes, IntsBytes;
    SmallInts();
    var es := [TShort(1), TShort(-1)];
    assert es[1..] == [TShort(-1)] && es[1..][1..] == [];
    assert ElemsBytes(es[1..]) == PayloadBytes(TShort(-1)) + ElemsBytes([]) == ShortBytes(-1) + [];
  }

  /** Types 0 and above 12 are refused, so are depths beyond 512 and negative counts. */
  lemma Refusals(s: seq<u8>, typ: u8, d: nat, n: i32, et: u8)
    requires n < 0
    ensures d > 512 ==> ParsePayload(s, typ, d) == Err(NbtTooDeep)
    ensures d <= 512 && (typ == 0 || typ > 12) ==> ParsePayload(s, typ, d) == Err(NbtUnknownTag(typ))
    ensures d <= 512 && typ in [7, 11, 12] ==> ParsePayload(IntBytes(n) + s, typ, d) == Err(NbtNegativeLength)
    ensures d <= 512 ==> ParsePayload([et] + (IntBytes(n) + s), 9, d) == Err(NbtNegativeLength)
  {
    hide IntBytes, ParseInt;
    IntRoundTrip(n, s);
    assert ([et] + (IntBytes(n) + s))[1..] == IntBytes(n) + s;
  }
}
