/** Primitive wire types: the byte-level meaning of every read and write, and
  * the cursor-based Reader and append-only Writer that implement them. */
module Codec {
  import opened Bytes

  datatype Error =
    | Truncated
    | NegativeLength
    | VarIntTooLong
    | VarLongTooLong
    | BadModifiedUtf8
    | NbtNegativeLength
    | NbtTooDeep
    | NbtUnknownTag(typ: u8)
    | PacketTooLarge
    | BadLength
    | BadZlib
    | SizeMismatch
    | Malformed

  /** The meaning of a read: a value and the bytes left over, or an error. */
  datatype Parsed<+T> = Ok(value: T, rest: seq<u8>) | Err(error: Error) {
    predicate IsFailure() { Err? }
    function PropagateFailure<U>(): Parsed<U>
      requires Err?
    {
      Err(error)
    }
    function Extract(): (T, seq<u8>)
      requires Ok?
    {
      (value, rest)
    }
  }

  const SHORT_SIZE: nat := 2
  const INT_SIZE: nat := 4
  const LONG_SIZE: nat := 8

  function ParseRaw(s: seq<u8>, n: int): Parsed<seq<u8>> {
    if n < 0 then Err(NegativeLength)
    else if n > |s| then Err(Truncated)
    else Ok(s[..n], s[n..])
  }

  function ParseUByte(s: seq<u8>): Parsed<u8> {
    if s == [] then Err(Truncated) else Ok(s[0], s[1..])
  }

  /** `k` big-endian bytes as an unsigned integer. */
  function ParseUnsigned(s: seq<u8>, k: nat): Parsed<nat> {
    if k > |s| then Err(Truncated) else Ok(FromBigEndian(s[..k]), s[k..])
  }

  function ParseByte(s: seq<u8>): Parsed<i8> {
    var (u, r) :- ParseUByte(s); Ok(AsI8(u), r)
  }

  function ParseShort(s: seq<u8>): Parsed<i16> {
    var (u, r) :- ParseUnsigned(s, SHORT_SIZE); Ok(AsI16(u), r)
  }

  function ParseUShort(s: seq<u8>): Parsed<u16> {
    var (u, r) :- ParseUnsigned(s, SHORT_SIZE); Ok(AsU16(u), r)
  }

  function ParseInt(s: seq<u8>): Parsed<i32> {
    var (u, r) :- ParseUnsigned(s, INT_SIZE); Ok(AsI32(u), r)
  }

  function ParseLong(s: seq<u8>): Parsed<i64> {
    var (u, r) :- ParseUnsigned(s, LONG_SIZE); Ok(AsI64(u), r)
  }

  // IEEE floats are kept as their raw bit patterns.
  function ParseFloat(s: seq<u8>): Parsed<u32> {
    var (u, r) :- ParseUnsigned(s, INT_SIZE); Ok(AsU32(u), r)
  }

  function ParseDouble(s: seq<u8>): Parsed<u64> {
    var (u, r) :- ParseUnsigned(s, LONG_SIZE); Ok(AsU64(u), r)
  }

  function ShortBytes(v: i16): seq<u8> { BigEndian(AsU16(v), SHORT_SIZE) }
  function UShortBytes(v: u16): seq<u8> { BigEndian(v, SHORT_SIZE) }
  function IntBytes(v: i32): seq<u8> { BigEndian(AsU32(v), INT_SIZE) }
  function LongBytes(v: i64): seq<u8> { BigEndian(AsU64(v), LONG_SIZE) }
  function FloatBytes(bits: u32): seq<u8> { BigEndian(bits, INT_SIZE) }
  function DoubleBytes(bits: u64): seq<u8> { BigEndian(bits, LONG_SIZE) }

  lemma UnsignedRoundTrip(u: nat, k: nat, rest: seq<u8>)
    requires u < Pow2(8 * k)
    ensures ParseUnsigned(BigEndian(u, k) + rest, k) == Ok(u, rest)
  {
    var s := BigEndian(u, k) + rest;
    assert s[..k] == BigEndian(u, k) && s[k..] == rest;
    BigEndianRoundTrip(u, k);
  }

  // Every fixed-width number reads back, leaving exactly what follows it.

  lemma ByteRoundTrip(v: i8, rest: seq<u8>)
    ensures ParseByte([AsU8(v)] + rest) == Ok(v, rest)
  {
    var s := [AsU8(v)] + rest;
    assert s[1..] == rest;
  }

  lemma ShortRoundTrip(v: i16, rest: seq<u8>)
    ensures ParseShort(ShortBytes(v) + rest) == Ok(v, rest)
  {
    var u := AsU16(v);
    assert AsI16(u) == v;
    Pow16();
    UnsignedRoundTrip(u, SHORT_SIZE, rest);
  }

  lemma UShortRoundTrip(v: u16, rest: seq<u8>)
    ensures ParseUShort(UShortBytes(v) + rest) == Ok(v, rest)
  {
    Pow16();
    UnsignedRoundTrip(v, SHORT_SIZE, rest);
  }

  lemma IntRoundTrip(v: i32, rest: seq<u8>)
    ensures ParseInt(IntBytes(v) + rest) == Ok(v, rest)
  {
    var u := AsU32(v);
    assert AsI32(u) == v;
    Pow32();
    UnsignedRoundTrip(u, INT_SIZE, rest);
  }

  lemma FloatRoundTrip(bits: u32, rest: seq<u8>)
    ensures ParseFloat(FloatBytes(bits) + rest) == Ok(bits, rest)
  {
    Pow32();
    UnsignedRoundTrip(bits, INT_SIZE, rest);
  }

  lemma LongRoundTrip(v: i64, rest: seq<u8>)
    ensures ParseLong(LongBytes(v) + rest) == Ok(v, rest)
  {
    var u := AsU64(v);
    assert AsI64(u) == v;
    Pow64();
    UnsignedRoundTrip(u, LONG_SIZE, rest);
  }

  lemma DoubleRoundTrip(bits: u64, rest: seq<u8>)
    ensures ParseDouble(DoubleBytes(bits) + rest) == Ok(bits, rest)
  {
    Pow64();
    UnsignedRoundTrip(bits, LONG_SIZE, rest);
  }

  // ---- VarInt and VarLong: unsigned LEB128, least significant group first ----

  function Leb(u: nat): (s: seq<u8>)
    ensures s != []
  {
    if u < 128 then [u] else [u % 128 + 128] + Leb(u / 128)
  }

  /** Reads at most `k` groups; `tooLong` when the k-th still has its continuation bit. */
  function ParseLeb(s: seq<u8>, k: nat, tooLong: Error): Parsed<nat> {
    if k == 0 then Err(tooLong)
    else if s == [] then Err(Truncated)
    else if s[0] < 128 then Ok(s[0], s[1..])
    else
      var (v, r) :- ParseLeb(s[1..], k - 1, tooLong); Ok(s[0] - 128 + 128 * v, r)
  }

  function VarIntBytes(v: i32): seq<u8> { Leb(AsU32(v)) }
  function VarLongBytes(v: i64): seq<u8> { Leb(AsU64(v)) }

  function ParseVarInt(s: seq<u8>): Parsed<i32> {
    var (v, r) :- ParseLeb(s, 5, VarIntTooLong); Ok(AsI32(v), r)
  }

  function ParseVarLong(s: seq<u8>): Parsed<i64> {
    var (v, r) :- ParseLeb(s, 10, VarLongTooLong); Ok(AsI64(v), r)
  }

  // ---- Groups ----

  /** Seven-bit groups, least significant first, whatever their continuation bits. */
  function GroupSum(s: seq<u8>): nat {
    if s == [] then 0 else s[0] % 128 + 128 * GroupSum(s[1..])
  }

  /** One whole encoding: every byte but the last has its continuation bit. */
  predicate Encoded(e: seq<u8>) {
    e != [] && e[|e| - 1] < 128 && forall i :: 0 <= i < |e| - 1 ==> e[i] >= 128
  }

  lemma {:induction false} GroupSumBound(s: seq<u8>)
    ensures GroupSum(s) < Pow2(7 * |s|)
  {
    if s != [] {
      GroupSumBound(s[1..]);
      SevenMore(|s| - 1);
    }
  }

  lemma SevenMore(n: nat)
    ensures Pow2(7 * (n + 1)) == 128 * Pow2(7 * n)
  {
    assert Pow2(7) == 128;
    hide Pow2;
    Pow2Add(7, 7 * n);
  }

  lemma {:induction false} GroupSumAppend(a: seq<u8>, b: seq<u8>)
    ensures GroupSum(a + b) == GroupSum(a) + Pow2(7 * |a|) * GroupSum(b)
  {
    if a == [] {
      assert a + b == b && Pow2(7 * |a|) == 1;
    } else {
      GroupSumAppend(a[1..], b);
      assert (a + b)[1..] == a[1..] + b && (a + b)[0] == a[0];
      SevenMore(|a| - 1);
      AppendAlgebra(a[0] % 128, GroupSum(a[1..]), Pow2(7 * (|a| - 1)), GroupSum(b));
    }
  }

  lemma AppendAlgebra(g: nat, x: nat, p: nat, y: nat)
    ensures g + 128 * (x + p * y) == g + 128 * x + (128 * p) * y
  {
  }

  /** A whole encoding is one last group, or a continued group before a whole encoding. */
  lemma EncodedCases(e: seq<u8>)
    requires Encoded(e)
    ensures e == [e[0]] + e[1..]
    ensures |e| == 1 ==> e[1..] == [] && e[0] < 128 && GroupSum(e) == e[0]
    ensures |e| > 1 ==> e[0] >= 128 && Encoded(e[1..]) && GroupSum(e) == e[0] - 128 + 128 * GroupSum(e[1..])
  {
    hide GroupSum, Encoded;
    EncodedShape(e);
    assert e == [e[0]] + e[1..];
    EncodedFront(e[0], e[1..]);
  }

  lemma EncodedShape(e: seq<u8>)
    requires Encoded(e)
    ensures |e| >= 1
    ensures |e| == 1 ==> e[0] < 128
    ensures |e| > 1 ==> e[0] >= 128 && Encoded(e[1..])
  {
  }

  lemma EncodedFront(g: u8, t: seq<u8>)
    ensures t == [] && g < 128 ==> Encoded([g] + t) && GroupSum([g] + t) == g
    ensures g >= 128 && Encoded(t) ==> Encoded([g] + t) && GroupSum([g] + t) == g - 128 + 128 * GroupSum(t)
  {
    var e := [g] + t;
    assert e[1..] == t;
  }

  lemma ParseLebStep(g: u8, t: seq<u8>, k: nat, e: Error)
    requires k > 0
    ensures var (p, q) := (ParseLeb([g] + t, k, e), ParseLeb(t, k - 1, e));
            && (g < 128 ==> p == Ok(g, t))
            && (g >= 128 && q.Ok? ==> p == Ok(g - 128 + 128 * q.value, q.rest))
            && (g >= 128 && q.Err? ==> p == q)
  {
    assert ([g] + t)[1..] == t;
  }

  lemma LebStep(u: nat)
    ensures Leb(u) == if u < 128 then [u] else [u % 128 + 128] + Leb(u / 128)
  {
  }

  lemma {:induction false} LebEncoded(u: nat)
    ensures Encoded(Leb(u)) && GroupSum(Leb(u)) == u
  {
    hide Leb, Encoded, GroupSum;
    LebStep(u);
    if u >= 128 {
      LebEncoded(u / 128);
      EncodedFront(u % 128 + 128, Leb(u / 128));
    } else {
      EncodedFront(u, []);
      assert [u] + [] == [u];
    }
  }

  lemma {:induction false} LebLength(u: nat, k: nat)
    requires k > 0 && u < Pow2(7 * k)
    ensures |Leb(u)| <= k
  {
    hide Leb, Pow2;
    LebStep(u);
    if u >= 128 {
      SevenMore(k - 1);
      if k == 1 {
        OneGroup();
      }
      LebLength(u / 128, k - 1);
    }
  }

  lemma OneGroup()
    ensures Pow2(7 * 0) == 1
  {
  }

  /** A whole encoding within the cap is read to the sum of its groups. */
  lemma {:induction false} EncodedParses(e: seq<u8>, rest: seq<u8>, k: nat, tooLong: Error)
    requires Encoded(e) && |e| <= k
    ensures ParseLeb(e + rest, k, tooLong) == Ok(GroupSum(e), rest)
    decreases |e|
  {
    hide ParseLeb, Encoded, GroupSum;
    EncodedCases(e);
    var t := e[1..];
    assert e + rest == [e[0]] + (t + rest);
    ParseLebStep(e[0], t + rest, k, tooLong);
    if |e| > 1 {
      EncodedParses(t, rest, k - 1, tooLong);
    } else {
      assert t + rest == rest;
    }
  }

  lemma ParseLebNeeds(s: seq<u8>, k: nat, e: Error)
    requires ParseLeb(s, k, e).Ok?
    ensures k > 0 && s != []
  {
  }

  /** Only whole encodings within the cap are read. */
  lemma {:induction false} ParseLebGroups(s: seq<u8>, k: nat, e: Error) returns (n: nat)
    requires ParseLeb(s, k, e).Ok?
    ensures 1 <= n <= k && n <= |s| && Encoded(s[..n])
    ensures ParseLeb(s, k, e) == Ok(GroupSum(s[..n]), s[n..])
    decreases k
  {
    hide ParseLeb, Encoded, GroupSum;
    ParseLebNeeds(s, k, e);
    var t := s[1..];
    assert s == [s[0]] + t;
    ParseLebStep(s[0], t, k, e);
    if s[0] < 128 {
      n := 1;
      EncodedFront(s[0], []);
      assert s[..1] == [s[0]] + [];
    } else {
      var m := ParseLebGroups(t, k - 1, e);
      n := m + 1;
      EncodedFront(s[0], t[..m]);
      assert s[..n] == [s[0]] + t[..m] && s[n..] == t[m..];
    }
  }

  lemma LebRoundTrip(u: nat, k: nat, rest: seq<u8>, e: Error)
    requires k > 0 && u < Pow2(7 * k)
    ensures |Leb(u)| <= k
    ensures ParseLeb(Leb(u) + rest, k, e) == Ok(u, rest)
  {
    hide Leb, ParseLeb, Pow2, Encoded, GroupSum;
    LebLength(u, k);
    LebEncoded(u);
    EncodedParses(Leb(u), rest, k, e);
  }

  lemma {:induction false} LebTooLong(u: nat, k: nat, rest: seq<u8>, e: Error)
    requires u >= Pow2(7 * k)
    ensures ParseLeb(Leb(u) + rest, k, e) == Err(e)
    decreases k
  {
    if k > 0 {
      hide Leb, Pow2, ParseLeb;
      SevenMore(k - 1);
      LebStep(u);
      LebTooLong(u / 128, k - 1, rest, e);
      assert Leb(u) + rest == [u % 128 + 128] + (Leb(u / 128) + rest);
      ParseLebStep(u % 128 + 128, Leb(u / 128) + rest, k, e);
    }
  }

  /** What an accepted LEB128 prefix is: some consumed bytes, all but the last
    * with the continuation bit, whose groups bound the value. */
  lemma ParseLebConsumes(s: seq<u8>, k: nat, e: Error) returns (n: nat)
    requires ParseLeb(s, k, e).Ok?
    ensures 1 <= n <= k && n <= |s|
    ensures ParseLeb(s, k, e).rest == s[n..]
    ensures s[n - 1] < 128 && forall i :: 0 <= i < n - 1 ==> s[i] >= 128
    ensures ParseLeb(s, k, e).value < Pow2(7 * n)
  {
    hide ParseLeb, Pow2, GroupSum;
    n := ParseLebGroups(s, k, e);
    GroupSumBound(s[..n]);
    assert forall i :: 0 <= i < n ==> s[..n][i] == s[i];
  }

  lemma {:induction false} ZeroSum(e: seq<u8>)
    requires Encoded(e) && GroupSum(e) == 0
    ensures e[|e| - 1] == 0
  {
    hide Encoded, GroupSum;
    EncodedCases(e);
    if |e| > 1 {
      ZeroSum(e[1..]);
    }
  }

  /** Putting a continued group in front of a value keeps it the writer's own, unless that value is zero. */
  lemma LebPrepends(g: u8, v: nat, t: seq<u8>)
    requires g >= 128 && t != []
    ensures Leb(g - 128 + 128 * v) == [g] + t <==> v > 0 && Leb(v) == t
  {
    hide Leb;
    LebStep(g - 128 + 128 * v);
    DivModUnique(128, v, g - 128);
    assert ([g] + Leb(v))[1..] == Leb(v) && ([g] + t)[1..] == t;
  }

  /** An encoding is the writer's own exactly when it does not end in a superfluous zero group. */
  lemma {:induction false} LebCanonical(e: seq<u8>)
    requires Encoded(e)
    ensures Leb(GroupSum(e)) == e <==> (|e| == 1 || e[|e| - 1] != 0)
  {
    hide Leb, Encoded, GroupSum;
    EncodedCases(e);
    var t := e[1..];
    if |e| == 1 {
      LebStep(e[0]);
    } else {
      LebPrepends(e[0], GroupSum(t), t);
      LebCanonical(t);
      EncodedCases(t);
      if GroupSum(t) == 0 {
        ZeroSum(t);
      }
    }
  }

  lemma SingleSum(t: seq<u8>)
    requires |t| == 1 && t[0] < 128
    ensures GroupSum(t) == t[0]
  {
    assert t[1..] == [];
  }

  /** In a register of size `m` an encoding is the writer's own exactly when it is
    * canonical and its value fits the register. */
  lemma RegisterCanonical(e: seq<u8>, m: nat)
    requires Encoded(e) && m > 0
    ensures Leb(GroupSum(e) % m) == e <==> (|e| == 1 || e[|e| - 1] != 0) && GroupSum(e) < m
  {
    hide Leb, Encoded, GroupSum;
    var u := GroupSum(e);
    LebCanonical(e);
    LebEncoded(u % m);
    if u < m {
      DivModUnique(m, 0, u);
    }
  }

  /** An encoding of at most `n` groups fits the register exactly when its n-th
    * group, if there is one, is below `top`. */
  lemma FitsRegister(e: seq<u8>, n: nat, top: nat, p: nat, m: nat)
    requires Encoded(e) && |e| <= n && p == Pow2(7 * (n - 1)) && p * top == m && top > 0
    ensures GroupSum(e) < m <==> (|e| == n ==> e[n - 1] < top)
  {
    hide Pow2, GroupSum;
    MulMonotonic(p, 1, top);
    if |e| < n {
      GroupSumBound(e);
      Pow2Monotonic(7 * |e|, 7 * (n - 1));
    } else {
      var low := e[..n - 1];
      assert e == low + [e[n - 1]];
      GroupSumBound(low);
      SingleSum([e[n - 1]]);
      GroupSumAppend(low, [e[n - 1]]);
      TopGroup(GroupSum(low), p, e[n - 1], top);
    }
  }

  lemma TopGroup(low: nat, p: nat, last: nat, top: nat)
    requires low < p
    ensures low + p * last < p * top <==> last < top
  {
    if last < top {
      MulMonotonic(p, last + 1, top);
    } else {
      MulMonotonic(p, top, last);
    }
  }

  /** For every int32, reading what was written returns it and leaves the suffix. */
  lemma VarIntRoundTrip(v: i32, rest: seq<u8>)
    ensures ParseVarInt(VarIntBytes(v) + rest) == Ok(v, rest)
    ensures 1 <= |VarIntBytes(v)| <= 5
  {
    hide Leb, ParseLeb, Pow2;
    Pow32();
    Pow2Monotonic(32, 35);
    LebRoundTrip(AsU32(v), 5, rest, VarIntTooLong);
  }

  lemma VarLongRoundTrip(v: i64, rest: seq<u8>)
    ensures ParseVarLong(VarLongBytes(v) + rest) == Ok(v, rest)
    ensures 1 <= |VarLongBytes(v)| <= 10
  {
    hide Leb, ParseLeb, Pow2;
    Pow64();
    Pow2Monotonic(64, 70);
    LebRoundTrip(AsU64(v), 10, rest, VarLongTooLong);
  }

  lemma AsU32Inverse(n: nat)
    ensures AsU32(AsI32(n)) == n % TWO32 <= n
  {
  }

  lemma AsU64Inverse(n: nat)
    ensures AsU64(AsI64(n)) == n % TWO64 <= n
  {
  }

  /** The writer's encoding is the shortest one the reader maps to the value. */
  lemma VarIntShortest(b: seq<u8>, v: i32, rest: seq<u8>)
    requires ParseVarInt(b + rest) == Ok(v, rest)
    ensures |VarIntBytes(v)| <= |b|
  {
    hide Leb, ParseLeb, Pow2;
    var n := ParseLebConsumes(b + rest, 5, VarIntTooLong);
    assert |b| == n;
    var u := ParseLeb(b + rest, 5, VarIntTooLong).value;
    AsU32Inverse(u);
    LebLength(u % TWO32, n);
  }

  lemma VarLongShortest(b: seq<u8>, v: i64, rest: seq<u8>)
    requires ParseVarLong(b + rest) == Ok(v, rest)
    ensures |VarLongBytes(v)| <= |b|
  {
    hide Leb, ParseLeb, Pow2;
    var n := ParseLebConsumes(b + rest, 10, VarLongTooLong);
    assert |b| == n;
    var u := ParseLeb(b + rest, 10, VarLongTooLong).value;
    AsU64Inverse(u);
    LebLength(u % TWO64, n);
  }

  /** Which accepted encodings are the writer's own: no zero final group and no
    * surplus bits in the fifth byte. The reader accepts the others as well. */
  lemma VarIntCanonical(b: seq<u8>, v: i32)
    requires ParseVarInt(b) == Ok(v, [])
    ensures VarIntBytes(v) == b <==> (|b| == 1 || b[|b| - 1] != 0) && (|b| == 5 ==> b[4] < 16)
  {
    hide Leb, ParseLeb, Pow2, GroupSum, Encoded;
    var n := ParseLebGroups(b, 5, VarIntTooLong);
    assert b[..n] == b;
    AsU32Inverse(GroupSum(b));
    RegisterCanonical(b, TWO32);
    RegisterTops();
    FitsRegister(b, 5, 16, Pow2(28), TWO32);
  }

  /** The same for VarLong, whose tenth byte has one bit of room. */
  lemma VarLongCanonical(b: seq<u8>, v: i64)
    requires ParseVarLong(b) == Ok(v, [])
    ensures VarLongBytes(v) == b <==> (|b| == 1 || b[|b| - 1] != 0) && (|b| == 10 ==> b[9] < 2)
  {
    hide Leb, ParseLeb, Pow2, GroupSum, Encoded;
    var n := ParseLebGroups(b, 10, VarLongTooLong);
    assert b[..n] == b;
    AsU64Inverse(GroupSum(b));
    RegisterCanonical(b, TWO64);
    RegisterTops();
    FitsRegister(b, 10, 2, Pow2(63), TWO64);
  }

  lemma RegisterTops()
    ensures Pow2(28) * 16 == TWO32 && Pow2(63) * 2 == TWO64
  {
    assert Pow2(4) == 16 && Pow2(1) == 2;
    hide Pow2;
    Pow32();
    Pow64();
    Pow2Add(28, 4);
    Pow2Add(63, 1);
  }

  const PADDED: seq<u8> := [0x80, 0x00]
  const OVERFLOWING_INT: seq<u8> := [0xFF, 0xFF, 0xFF, 0xFF, 0x7F]
  const OVERFLOWING_LONG: seq<u8> := [0xFF, 0xFF, 0xFF, 0xFF, 0xFF, 0xFF, 0xFF, 0xFF, 0xFF, 0x7F]

  /** The package comment says overlong and overflowing VarInts and VarLongs are
    * rejected; these are accepted. */
  lemma OverlongVarIntsAccepted()
    ensures ParseVarInt(PADDED) == Ok(0, []) && VarIntBytes(0) != PADDED
    ensures ParseVarLong(PADDED) == Ok(0, []) && VarLongBytes(0) != PADDED
    ensures ParseVarInt(OVERFLOWING_INT) == Ok(-1, []) && VarIntBytes(-1) != OVERFLOWING_INT
    ensures ParseVarLong(OVERFLOWING_LONG) == Ok(-1, []) && VarLongBytes(-1) != OVERFLOWING_LONG
  {
    hide Leb, ParseLeb, Pow2, GroupSum;
    PaddedSum();
    WholeParses(PADDED, 5, VarIntTooLong);
    WholeParses(PADDED, 10, VarLongTooLong);
    VarIntCanonical(PADDED, 0);
    VarLongCanonical(PADDED, 0);
    WholeParses(OVERFLOWING_INT, 5, VarIntTooLong);
    WholeParses(OVERFLOWING_LONG, 10, VarLongTooLong);
    OnesSum(OVERFLOWING_INT);
    OnesSum(OVERFLOWING_LONG);
    Pow32();
    Pow64();
    Pow2Add(32, 3);
    Pow2Add(64, 6);
    AllOnesWrap(Pow2(3), Pow2(6));
    VarIntCanonical(OVERFLOWING_INT, -1);
    VarLongCanonical(OVERFLOWING_LONG, -1);
  }

  lemma PaddedSum()
    ensures GroupSum(PADDED) == 0
  {
    assert PADDED[1..] == [0x00] && PADDED[1..][1..] == [];
  }

  lemma WholeParses(e: seq<u8>, k: nat, tooLong: Error)
    requires Encoded(e) && |e| <= k
    ensures ParseLeb(e, k, tooLong) == Ok(GroupSum(e), [])
  {
    hide ParseLeb, GroupSum;
    assert e + [] == e;
    EncodedParses(e, [], k, tooLong);
  }

  lemma {:induction false} OnesSum(e: seq<u8>)
    requires forall i :: 0 <= i < |e| ==> e[i] % 128 == 127
    ensures GroupSum(e) + 1 == Pow2(7 * |e|)
  {
    if e != [] {
      OnesSum(e[1..]);
      SevenMore(|e| - 1);
    }
  }

  lemma AllOnesWrap(a: nat, b: nat)
    requires a > 0 && b > 0
    ensures AsI32(TWO32 * a - 1) == -1 && AsI64(TWO64 * b - 1) == -1
  {
    DivModUnique(TWO32, a - 1, TWO32 - 1);
    DivModUnique(TWO64, b - 1, TWO64 - 1);
  }

  // ---- Block positions: x:26, z:26, y:12 ----

  function SignExtend(u: nat, m: nat): int
    requires m > 0 && u < m
  {
    if u < m / 2 then u else u - m
  }

  function PackPosition(x: i32, y: i32, z: i32): i64 {
    AsI64((x % 0x400_0000) * 0x40_0000_0000 + (z % 0x400_0000) * 0x1000 + y % 0x1000)
  }

  /** Arithmetic shifts of the signed 64-bit value: v >> 38, v << 52 >> 52, v << 26 >> 38. */
  function UnpackPosition(v: i64): (r: (i32, i32, i32)) {
    (AsI32(v / 0x40_0000_0000),
     AsI32(AsI64(v * 0x10_0000_0000_0000) / 0x10_0000_0000_0000),
     AsI32(AsI64(v * 0x400_0000) / 0x40_0000_0000))
  }

  function ParsePosition(s: seq<u8>): Parsed<(i32, i32, i32)> {
    var (v, r) :- ParseLong(s); Ok(UnpackPosition(v), r)
  }

  /** The positions that 26, 12 and 26 signed bits hold. */
  predicate PositionFits(x: i32, y: i32, z: i32) {
    -0x200_0000 <= x < 0x200_0000 && -0x800 <= y < 0x800 && -0x200_0000 <= z < 0x200_0000
  }

  /** Packing loses nothing exactly on positions that fit 26, 12 and 26 signed bits. */
  lemma PositionRoundTripIff(x: i32, y: i32, z: i32)
    ensures UnpackPosition(PackPosition(x, y, z)) == (x, y, z) <==> PositionFits(x, y, z)
  {
    hide UnpackPosition, SignExtend, AsI64;
    UnpackedFields(x % 0x400_0000, z % 0x400_0000, y % 0x1000);
    SignExtendIff(x, 0x400_0000);
    SignExtendIff(y, 0x1000);
    SignExtendIff(z, 0x400_0000);
  }

  /** The position a reader finds in the bytes written for one. */
  function AsPacked(p: (i32, i32, i32)): (i32, i32, i32) { UnpackPosition(PackPosition(p.0, p.1, p.2)) }

  lemma PackedBytes(p: (i32, i32, i32), rest: seq<u8>)
    ensures ParsePosition(LongBytes(PackPosition(p.0, p.1, p.2)) + rest) == Ok(AsPacked(p), rest)
  {
    hide UnpackPosition, PackPosition, LongBytes;
    LongRoundTrip(PackPosition(p.0, p.1, p.2), rest);
  }

  /** It always fits, differs by multiples of the fields' ranges, and is the same
    * one exactly when that fits. */
  lemma PackedFits(p: (i32, i32, i32))
    ensures var q := AsPacked(p);
            && PositionFits(q.0, q.1, q.2) && AsPacked(q) == q
            && (q == p <==> PositionFits(p.0, p.1, p.2))
            && (-0x800 <= p.1 < 0x800 ==> q.1 == p.1)
            && (p.0 - q.0) % 0x400_0000 == 0 && (p.1 - q.1) % 0x1000 == 0 && (p.2 - q.2) % 0x400_0000 == 0
  {
    hide UnpackPosition, SignExtend, AsI64;
    var q := AsPacked(p);
    UnpackedFields(p.0 % 0x400_0000, p.2 % 0x400_0000, p.1 % 0x1000);
    SignExtended(p.0, 0x400_0000);
    SignExtended(p.1, 0x1000);
    SignExtended(p.2, 0x400_0000);
    SignExtendIff(p.1, 0x1000);
    PositionRoundTripIff(p.0, p.1, p.2);
    PositionRoundTripIff(q.0, q.1, q.2);
  }

  lemma SignExtended(v: int, m: nat)
    requires m > 0 && m % 2 == 0
    ensures var e := SignExtend(v % m, m); -(m / 2) <= e < m / 2 && (v - e) % m == 0
  {
    var e := SignExtend(v % m, m);
    var k := if v % m < m / 2 then v / m else v / m + 1;
    assert v - e == m * k;
    DivModUnique(m, k, 0);
  }

  lemma SignExtendIff(v: int, m: nat)
    requires m > 0 && m % 2 == 0
    ensures SignExtend(v % m, m) == v <==> -(m / 2) <= v < m / 2
  {
    if -(m / 2) <= v < 0 {
      DivModUnique(m, -1, v + m);
    } else if 0 <= v < m / 2 {
      DivModUnique(m, 0, v);
    }
  }

  lemma UnpackedFields(X: nat, Z: nat, Y: nat)
    requires X < 0x400_0000 && Z < 0x400_0000 && Y < 0x1000
    ensures UnpackPosition(AsI64(X * 0x40_0000_0000 + Z * 0x1000 + Y))
            == (SignExtend(X, 0x400_0000), SignExtend(Y, 0x1000), SignExtend(Z, 0x400_0000))
  {
    var v := AsI64(X * 0x40_0000_0000 + Z * 0x1000 + Y);
    var X' := SignExtend(X, 0x400_0000);
    assert v == X' * 0x40_0000_0000 + (Z * 0x1000 + Y);
    DivModUnique(0x40_0000_0000, X', Z * 0x1000 + Y);
    UnpackedY(v, X' * 0x400_0000 + Z, Y);
    UnpackedZ(v, X', Z, Y);
  }

  /** A left shift by 52 keeps the low 12 bits; shifting back extends their sign. */
  lemma UnpackedY(v: int, hi: int, Y: nat)
    requires Y < 0x1000 && v == hi * 0x1000 + Y
    ensures AsI64(v * 0x10_0000_0000_0000) / 0x10_0000_0000_0000 == SignExtend(Y, 0x1000)
  {
    assert v * 0x10_0000_0000_0000 == Y * 0x10_0000_0000_0000 + TWO64 * hi;
    DivModUnique(TWO64, hi, Y * 0x10_0000_0000_0000);
  }

  lemma UnpackedZ(v: int, X: int, Z: nat, Y: nat)
    requires Z < 0x400_0000 && Y < 0x1000 && v == X * 0x40_0000_0000 + (Z * 0x1000 + Y)
    ensures AsI64(v * 0x400_0000) / 0x40_0000_0000 == SignExtend(Z, 0x400_0000)
  {
    var low := (Z * 0x1000 + Y) * 0x400_0000;
    assert v * 0x400_0000 == low + TWO64 * X;
    DivModUnique(TWO64, X, low);
    DivModUnique(0x40_0000_0000, SignExtend(Z, 0x400_0000), Y * 0x400_0000);
  }

  lemma PositionBytesRoundTrip(x: i32, y: i32, z: i32, rest: seq<u8>)
    requires PositionFits(x, y, z)
    ensures ParsePosition(LongBytes(PackPosition(x, y, z)) + rest) == Ok((x, y, z), rest)
  {
    hide PackPosition, UnpackPosition, ParsePosition, LongBytes;
    PackedBytes((x, y, z), rest);
    PositionRoundTripIff(x, y, z);
  }

  // ---- The append-only writer ----

  class Writer {
    var buf: seq<u8>

    constructor ()
      ensures buf == []
    {
      buf := [];
    }

    method UByte(v: u8)
      modifies this
      ensures buf == old(buf) + [v]
    {
      buf := buf + [v];
    }

    method Raw(b: seq<u8>)
      modifies this
      ensures buf == old(buf) + b
    {
      buf := buf + b;
    }

    /** Writes `u` as `k` big-endian bytes, least significant byte last. */
    method Fixed(u: nat, k: nat)
      modifies this
      ensures buf == old(buf) + BigEndian(u, k)
    {
      var bytes: seq<u8>, v := [], u;
      for i := 0 to k
        invariant BigEndian(u, k) == BigEndian(v, k - i) + bytes
      {
        bytes, v := [AsU8(v)] + bytes, v / 256;
      }
      buf := buf + bytes;
    }

    method VarInt(v: i32)
      modifies this
      ensures buf == old(buf) + VarIntBytes(v)
    {
      Groups(AsU32(v));
    }

    method VarLong(v: i64)
      modifies this
      ensures buf == old(buf) + VarLongBytes(v)
    {
      Groups(AsU64(v));
    }

    /** The shared loop: seven bits at a time while higher bits remain. */
    method Groups(u: nat)
      modifies this
      ensures buf == old(buf) + Leb(u)
    {
      var uv := u;
      while uv >= 128
        invariant old(buf) + Leb(u) == buf + Leb(uv)
      {
        buf := buf + [uv % 128 + 128];
        uv := uv / 128;
      }
      buf := buf + [uv];
    }

    method Position(x: i32, y: i32, z: i32)
      modifies this
      ensures buf == old(buf) + LongBytes(PackPosition(x, y, z))
    {
      Fixed(AsU64(PackPosition(x, y, z)), LONG_SIZE);
    }
  }

  // ---- The sticky-error reader ----

  class Reader {
    const data: seq<u8>
    var pos: nat
    var err: Option<Error>

    ghost predicate Valid()
      reads this
    {
      pos <= |data|
    }

    ghost function Rest(): seq<u8>
      requires Valid()
      reads this
    {
      data[pos..]
    }

    constructor (data: seq<u8>)
      ensures Valid() && this.data == data && Rest() == data && err.None?
    {
      this.data, pos, err := data, 0, None;
    }

    /** What a read with byte-level meaning `p` leaves behind. Once the error is
      * set every read is a no-op that returns the zero value. */
    ghost predicate Did<T>(p: Parsed<T>, v: T, zero: T, err0: Option<Error>, pos0: nat)
      reads this
    {
      && Valid() && pos0 <= pos
      && if err0.Some? then err == err0 && pos == pos0 && v == zero
         else match p
           case Ok(x, rest) => err.None? && v == x && Rest() == rest
           case Err(e) => err == Some(e) && v == zero
    }

    /** As `Did`, for reads whose value after an error is never used. */
    ghost predicate Got<T>(p: Parsed<T>, v: T, err0: Option<Error>, pos0: nat)
      reads this
    {
      && Valid() && pos0 <= pos
      && (err0.Some? ==> err == err0 && pos == pos0)
      && (err0.None? && p.Ok? ==> err.None? && v == p.value && Rest() == p.rest)
      && (err0.None? && p.Err? ==> err == Some(p.error))
    }

    method Fail(e: Error)
      modifies this`err
      ensures err == if old(err).Some? then old(err) else Some(e)
    {
      if err.None? {
        err := Some(e);
      }
    }

    method Raw(n: int) returns (b: seq<u8>)
      requires Valid()
      modifies this
      ensures Did(ParseRaw(old(Rest()), n), b, [], old(err), old(pos))
    {
      b := [];
      if err.Some? {
        return;
      }
      if n < 0 {
        err := Some(NegativeLength);
        return;
      }
      if pos + n > |data| {
        err := Some(Truncated);
        return;
      }
      b := data[pos..pos + n];
      assert b == Rest()[..n] && data[pos + n..] == Rest()[n..];
      pos := pos + n;
    }

    method UByte() returns (v: u8)
      requires Valid()
      modifies this
      ensures Did(ParseUByte(old(Rest())), v, 0, old(err), old(pos))
    {
      var b := Raw(1);
      v := if b == [] then 0 else b[0];
    }

    /** Reads `k` big-endian bytes. */
    method Fixed(k: nat) returns (v: nat)
      requires Valid() && k > 0
      modifies this
      ensures Did(ParseUnsigned(old(Rest()), k), v, 0, old(err), old(pos))
    {
      var b := Raw(k);
      v := 0;
      for i := 0 to |b|
        invariant v == FromBigEndian(b[..i])
      {
        assert b[..i + 1][..i] == b[..i];
        v := v * 256 + b[i];
      }
      assert b[..|b|] == b;
    }

    method Byte() returns (v: i8)
      requires Valid()
      modifies this
      ensures Did(ParseByte(old(Rest())), v, 0, old(err), old(pos))
    {
      var u := UByte();
      v := AsI8(u);
    }

    method Short() returns (v: i16)
      requires Valid()
      modifies this
      ensures Did(ParseShort(old(Rest())), v, 0, old(err), old(pos))
    {
      var u := Fixed(SHORT_SIZE);
      v := AsI16(u);
    }

    method UShort() returns (v: u16)
      requires Valid()
      modifies this
      ensures Did(ParseUShort(old(Rest())), v, 0, old(err), old(pos))
    {
      var u := Fixed(SHORT_SIZE);
      v := AsU16(u);
    }

    method Int() returns (v: i32)
      requires Valid()
      modifies this
      ensures Did(ParseInt(old(Rest())), v, 0, old(err), old(pos))
    {
      var u := Fixed(INT_SIZE);
      v := AsI32(u);
    }

    method Long() returns (v: i64)
      requires Valid()
      modifies this
      ensures Did(ParseLong(old(Rest())), v, 0, old(err), old(pos))
    {
      var u := Fixed(LONG_SIZE);
      v := AsI64(u);
    }

    method Float() returns (bits: u32)
      requires Valid()
      modifies this
      ensures Did(ParseFloat(old(Rest())), bits, 0, old(err), old(pos))
    {
      var u := Fixed(INT_SIZE);
      bits := AsU32(u);
    }

    method Double() returns (bits: u64)
      requires Valid()
      modifies this
      ensures Did(ParseDouble(old(Rest())), bits, 0, old(err), old(pos))
    {
      var u := Fixed(LONG_SIZE);
      bits := AsU64(u);
    }

    method Position() returns (p: (i32, i32, i32))
      requires Valid()
      modifies this
      ensures Did(ParsePosition(old(Rest())), p, (0, 0, 0), old(err), old(pos))
    {
      var v := Long();
      if err.Some? {
        return (0, 0, 0);
      }
      p := UnpackPosition(v);
    }

    method RemainingBytes() returns (b: seq<u8>)
      requires Valid()
      modifies this
      ensures Did(Ok(old(Rest()), []), b, [], old(err), old(pos))
    {
      assert Rest()[..|data| - pos] == Rest() && Rest()[|data| - pos..] == [];
      b := Raw(|data| - pos);
    }

    method VarInt() returns (v: i32)
      requires Valid()
      modifies this
      ensures Did(ParseVarInt(old(Rest())), v, 0, old(err), old(pos))
    {
      Pow32();
      var u, ok := Groups(5, 32, VarIntTooLong);
      v := if ok then AsI32(u) else 0;
    }

    method VarLong() returns (v: i64)
      requires Valid()
      modifies this
      ensures Did(ParseVarLong(old(Rest())), v, 0, old(err), old(pos))
    {
      Pow64();
      var u, ok := Groups(10, 64, VarLongTooLong);
      v := if ok then AsI64(u) else 0;
    }

    /** The shared loop of VarInt (5 groups, 32 bits) and VarLong (10 groups, 64
      * bits): `result |= (b & 0x7F) << shift` in a `width`-bit register. */
    method Groups(max: nat, width: nat, tooLong: Error) returns (result: nat, ok: bool)
      requires Valid()
      modifies this
      ensures Valid() && old(pos) <= pos
      ensures old(err).Some? ==> !ok && err == old(err) && pos == old(pos)
      ensures old(err).None? ==>
                match ParseLeb(old(Rest()), max, tooLong)
                case Ok(v, rest) => ok && err.None? && Rest() == rest && result == Low(v, Pow2(width))
                case Err(e) => !ok && err == Some(e)
    {
      hide Pow2, ParseLeb, Spliced, Times, Low;
      result, ok := 0, false;
      if err.Some? {
        return;
      }
      var m := Pow2(width);
      NoGroups(m);
      ghost var s0 := Rest();
      ghost var raw: nat := 0;
      var scale: nat := 1;  // 2^shift
      SplicedEnds(s0, 0, 1, max, tooLong);
      for i := 0 to max
        invariant Valid() && old(pos) <= pos && err.None?
        invariant scale == Pow2(7 * i) && raw < scale && result == Low(raw, m)
        invariant ParseLeb(s0, max, tooLong) == Spliced(raw, scale, ParseLeb(Rest(), max - i, tooLong))
      {
        ghost var s := Rest();
        SplicedEnds(s, raw, scale, max - i, tooLong);
        var b := UByte();
        if err.Some? {
          return 0, false;
        }
        var g := Times(b % 128, scale);
        GroupStep(s, raw, scale, max - i, tooLong, g);
        OrGroup(raw, b % 128, g, 7 * i, m, width, scale);
        result := result + Low(g, m);
        raw := raw + g;
        if b < 128 {
          return result, true;
        }
        scale := scale * 128;
      }
      SplicedEnds(Rest(), raw, scale, 0, tooLong);
      err := Some(tooLong);
      result := 0;
    }
  }

  function Times(a: nat, b: nat): nat { a * b }

  lemma TimesSwap(a: nat, b: nat)
    ensures Times(a, b) == Times(b, a)
  {
  }

  /** The part of `v` a register of size `m` keeps. */
  function Low(v: nat, m: nat): nat
    requires m > 0
  {
    v % m
  }

  lemma NoGroups(m: nat)
    requires m > 0
    ensures Pow2(7 * 0) == 1 && Low(0, m) == 0
  {
    DivModUnique(m, 0, 0);
  }

  /** The parse of a whole VarInt from `raw`, the groups read so far, and the parse of the rest. */
  function Spliced(raw: nat, scale: nat, p: Parsed<nat>): Parsed<nat> {
    match p
    case Ok(v, rest) => Ok(raw + Times(scale, v), rest)
    case Err(e) => Err(e)
  }

  lemma SplicedEnds(s: seq<u8>, raw: nat, scale: nat, k: nat, tooLong: Error)
    ensures Spliced(0, 1, ParseLeb(s, k, tooLong)) == ParseLeb(s, k, tooLong)
    ensures k == 0 ==> Spliced(raw, scale, ParseLeb(s, k, tooLong)) == Err(tooLong)
    ensures k > 0 && s == [] ==> Spliced(raw, scale, ParseLeb(s, k, tooLong)) == Err(Truncated)
  {
  }

  /** One round of the read loop, from `s` unread bytes. */
  lemma GroupStep(s: seq<u8>, raw: nat, scale: nat, k: nat, tooLong: Error, g: nat)
    requires k > 0 && s != [] && g == Times(s[0] % 128, scale)
    ensures Spliced(raw, scale, ParseLeb(s, k, tooLong))
            == if s[0] < 128 then Ok(raw + g, s[1..])
               else Spliced(raw + g, scale * 128, ParseLeb(s[1..], k - 1, tooLong))
  {
    hide ParseLeb, Times;
    assert s == [s[0]] + s[1..];
    ParseLebStep(s[0], s[1..], k, tooLong);
    var p := ParseLeb(s[1..], k - 1, tooLong);
    if s[0] < 128 {
      TimesSwap(scale, s[0]);
    } else if p.Ok? {
      SplicedAlgebra(scale, s[0] % 128, p.value);
    }
  }

  lemma SplicedAlgebra(p: nat, g: nat, v: nat)
    ensures Times(p, g + 128 * v) == Times(g, p) + Times(p * 128, v)
  {
  }

  /** OR-ing a shifted group into the register is addition: no bit is set twice. */
  lemma OrGroup(raw: nat, b: nat, g: nat, shift: nat, m: nat, width: nat, scale: nat)
    requires b < 128 && scale == Pow2(shift) && raw < scale && g == Times(b, scale) && m == Pow2(width)
    ensures Low(raw, m) + Low(g, m) == Low(raw + g, m)
    ensures raw + g < scale * 128 == Pow2(shift + 7)
  {
    assert Pow2(7) == 128;
    hide Pow2;
    Pow2Add(shift, 7);
    MulMonotonic(scale, b, 127);
    if shift >= width {
      Pow2Add(width, shift - width);
      AddMultiple(raw, b, scale, m, Pow2(shift - width));
    } else {
      Pow2Add(shift, width - shift);
      AddDigits(raw, b, scale, m, Pow2(width - shift));
    }
  }

  /** Shifted out of the register: the group adds a multiple of its size. */
  lemma AddMultiple(raw: nat, g: nat, p: nat, m: nat, k: nat)
    requires m > 0 && p == m * k
    ensures raw % m + (g * p) % m == (raw + g * p) % m
  {
    var q := g * k;
    assert g * p == m * q;
    DivModUnique(m, q, 0);
    assert raw + m * q == raw % m + m * (raw / m + q) by {
      MulSub(m, raw / m, -q);
    }
    DivModUnique(m, raw / m + q, raw % m);
  }

  /** Inside the register: the kept low bits of the group land above `raw`. */
  lemma AddDigits(raw: nat, g: nat, p: nat, m: nat, k: nat)
    requires k > 0 && raw < p && m == p * k && m > 0
    ensures raw % m + (g * p) % m == (raw + g * p) % m
  {
    var d, q := g % k, g / k;
    assert g * p == p * d + m * q by {
      assert g == d + k * q;
      SplitAlgebra(p, d, k, q);
    }
    MulMonotonic(p, d, k - 1);
    MulSub(p, k, 1);
    DivModUnique(m, q, p * d);
    DivModUnique(m, q, raw + p * d);
    MulMonotonic(p, 1, k);
    DivModUnique(m, 0, raw);
  }

  lemma SplitAlgebra(p: nat, d: nat, k: nat, q: nat)
    ensures (d + k * q) * p == p * d + (p * k) * q
  {
  }
}
