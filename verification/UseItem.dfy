/** The "use item on" packet: its final VarInt is found by scanning backward. */
module UseItem {
  import opened Bytes
  import opened Codec

  /** Where the last VarInt of `b` starts: after the last byte, other than the
    * final one, whose continuation bit is clear. */
  function TailStart(b: seq<u8>): (i: nat)
    requires b != []
    ensures i < |b|
  {
    if |b| == 1 || b[|b| - 2] < 128 then |b| - 1 else TailStart(b[..|b| - 1])
  }

  function TrailingVarInt(b: seq<u8>): i32 {
    if b == [] then 0 else AsI32(GroupSum(b[TailStart(b)..]))
  }

  lemma {:induction false} TailStartIs(b: seq<u8>)
    requires b != []
    ensures var i := TailStart(b);
            (i == 0 || b[i - 1] < 128) && forall j :: i <= j < |b| - 1 ==> b[j] >= 128
  {
    if |b| > 1 && b[|b| - 2] >= 128 {
      TailStartIs(b[..|b| - 1]);
    }
  }

  lemma TailStartUnique(b: seq<u8>, i: nat)
    requires i < |b| && (i == 0 || b[i - 1] < 128)
    requires forall j :: i <= j < |b| - 1 ==> b[j] >= 128
    ensures TailStart(b) == i
  {
    TailStartIs(b);
  }

  /** The bytes at the end of `b` that have their continuation bit. */
  function Continued(b: seq<u8>): (c: seq<u8>)
    ensures |c| <= |b| && c == b[|b| - |c|..]
    ensures forall j :: 0 <= j < |c| ==> c[j] >= 128
    ensures |c| < |b| ==> b[|b| - |c| - 1] < 128
  {
    if b == [] || b[|b| - 1] < 128 then []
    else
      var c := Continued(b[..|b| - 1]) + [b[|b| - 1]];
      assert b[|b| - |c|..] == b[..|b| - 1][|b| - |c|..] + [b[|b| - 1]];
      c
  }

  lemma TailStartAfter(middle: seq<u8>, e: seq<u8>)
    requires Encoded(e)
    ensures var c := Continued(middle);
            TailStart(middle + e) == |middle| - |c| && (middle + e)[|middle| - |c|..] == c + e
  {
    hide TailStart, Continued;
    var c := Continued(middle);
    var i, b, tail := |middle| - |c|, middle + e, c + e;
    assert b[i..] == tail;
    assert i == 0 || b[i - 1] == middle[i - 1];
    forall j | i <= j < |b| - 1 ensures b[j] >= 128 {
      assert b[j] == tail[j - i];
    }
    TailStartUnique(b, i);
  }

  /** What `low` and the shifted value add to the value vanishes in the 32-bit register. */
  predicate Vanishes(low: nat, scale: nat, u: nat)
    requires scale > 0
  {
    (low + Times(scale - 1, u)) % TWO32 == 0
  }

  /** The bytes just before the final VarInt do not disturb it. */
  predicate Recoverable(middle: seq<u8>, v: i32) {
    Vanishes(GroupSum(Continued(middle)), Pow2(7 * |Continued(middle)|), AsU32(v))
  }

  /** The final VarInt is recovered exactly when the continued bytes just before it add nothing. */
  lemma TrailingRecoversIff(middle: seq<u8>, v: i32)
    ensures TrailingVarInt(middle + VarIntBytes(v)) == v <==> Recoverable(middle, v)
  {
    hide TailStart, Continued, Leb, GroupSum, Pow2, Encoded, Vanishes, Times;
    var e, c := VarIntBytes(v), Continued(middle);
    LebEncoded(AsU32(v));
    TailStartAfter(middle, e);
    JoinedSum(c, e);
    AddsNothing(GroupSum(c), Pow2(7 * |c|), v);
  }

  lemma JoinedSum(c: seq<u8>, e: seq<u8>)
    ensures GroupSum(c + e) == GroupSum(c) + Times(Pow2(7 * |c|), GroupSum(e))
  {
    hide GroupSum, Pow2;
    GroupSumAppend(c, e);
  }

  lemma AddsNothing(low: nat, p: nat, v: i32)
    requires p > 0
    ensures AsI32(low + Times(p, AsU32(v))) == v <==> Vanishes(low, p, AsU32(v))
  {
    hide Times;
    var u := AsU32(v);
    var d := low + Times(p - 1, u);
    OneLess(p, u);
    SameInRegister(u, d);
    assert AsI32(u) == v;
    AsU32Inverse(u + d);
  }

  lemma OneLess(p: nat, u: nat)
    requires p > 0
    ensures Times(p, u) == Times(p - 1, u) + u
  {
  }

  lemma SameInRegister(u: nat, d: nat)
    requires u < TWO32
    ensures (u + d) % TWO32 == u <==> d % TWO32 == 0
  {
    var q, r := d / TWO32, d % TWO32;
    if u + r < TWO32 {
      DivModUnique(TWO32, q, u + r);
    } else {
      DivModUnique(TWO32, q + 1, u + r - TWO32);
    }
  }

  /** After middle bytes that do not end in a continued one it always is. */
  lemma TrailingRecovers(middle: seq<u8>, v: i32)
    requires middle == [] || middle[|middle| - 1] < 128
    ensures TrailingVarInt(middle + VarIntBytes(v)) == v
  {
    TrailingRecoversIff(middle, v);
    assert Continued(middle) == [];
    NothingAdded(AsU32(v));
  }

  lemma NothingAdded(u: nat)
    ensures Vanishes(GroupSum([]), Pow2(7 * 0), u)
  {
  }

  lemma TailEncoded(b: seq<u8>)
    requires b != [] && b[|b| - 1] < 128
    ensures Encoded(b[TailStart(b)..])
  {
    hide TailStart, Encoded;
    TailStartIs(b);
    EncodedSuffix(b, TailStart(b));
  }

  lemma EncodedSuffix(b: seq<u8>, i: nat)
    requires i < |b| && b[|b| - 1] < 128 && forall j :: i <= j < |b| - 1 ==> b[j] >= 128
    ensures Encoded(b[i..])
  {
  }

  /** On a tail that is a VarInt the backward scan agrees with the forward reader. */
  lemma TrailingAgreesWithReader(b: seq<u8>)
    requires b != [] && b[|b| - 1] < 128 && |b| - TailStart(b) <= 5
    ensures ParseVarInt(b[TailStart(b)..]) == Ok(TrailingVarInt(b), [])
  {
    hide TailStart, ParseLeb, GroupSum, Encoded;
    TailEncoded(b);
    WholeParses(b[TailStart(b)..], 5, VarIntTooLong);
  }

  datatype Use = Use(hand: i32, x: i32, y: i32, z: i32, face: i32, sequence: i32)

  function ParseUse(s: seq<u8>): Parsed<Use> {
    var (hand, r) :- ParseVarInt(s);
    var (p, r2) :- ParsePosition(r);
    var (face, r3) :- ParseVarInt(r2);
    Ok(Use(hand, p.0, p.1, p.2, face, TrailingVarInt(r3)), [])
  }

  /** The packet as a client sends it, with `middle` between the face and the sequence. */
  function UseBytes(u: Use, middle: seq<u8>): seq<u8> {
    VarIntBytes(u.hand)
    + (LongBytes(PackPosition(u.x, u.y, u.z)) + (VarIntBytes(u.face) + (middle + VarIntBytes(u.sequence))))
  }

  /** Every field is recovered exactly when the position fits its packed widths and
    * the bytes before the sequence do not disturb it. */
  lemma UseRoundTripIff(u: Use, middle: seq<u8>)
    ensures ParseUse(UseBytes(u, middle)) == Ok(u, []) <==>
            && PositionFits(u.x, u.y, u.z)
            && Recoverable(middle, u.sequence)
  {
    hide PackPosition, UnpackPosition, TrailingVarInt, VarIntBytes, ParseVarInt, ParseLong, LongBytes, Recoverable;
    var tail := middle + VarIntBytes(u.sequence);
    var r2 := VarIntBytes(u.face) + tail;
    var r := LongBytes(PackPosition(u.x, u.y, u.z)) + r2;
    VarIntRoundTrip(u.hand, r);
    LongRoundTrip(PackPosition(u.x, u.y, u.z), r2);
    VarIntRoundTrip(u.face, tail);
    TrailingRecoversIff(middle, u.sequence);
    PositionRoundTripIff(u.x, u.y, u.z);
  }

  /** Hand, packed position and face in this order, and a VarInt at the very end. */
  lemma UseFields(hand: i32, p: (i32, i32, i32), face: i32, tail: seq<u8>)
    ensures ParseUse(VarIntBytes(hand) + (LongBytes(PackPosition(p.0, p.1, p.2)) + (VarIntBytes(face) + tail)))
            == var q := AsPacked(p); Ok(Use(hand, q.0, q.1, q.2, face, TrailingVarInt(tail)), [])
  {
    hide PackPosition, UnpackPosition, TrailingVarInt, VarIntBytes, ParseVarInt, ParsePosition, LongBytes;
    VarIntRoundTrip(hand, LongBytes(PackPosition(p.0, p.1, p.2)) + (VarIntBytes(face) + tail));
    PackedBytes(p, VarIntBytes(face) + tail);
    VarIntRoundTrip(face, tail);
  }

  /** The end of three byte strings: five; a flag and five; two flags and 200. */
  lemma TrailingVectors()
    ensures TrailingVarInt([]) == 0 && TrailingVarInt([0x05]) == 5 && TrailingVarInt([0x00, 0x05]) == 5
    ensures TrailingVarInt([0x00, 0x00, 0xC8, 0x01]) == 200
  {
    TailStartUnique([0x00, 0x05], 1);
    var b: seq<u8> := [0x00, 0x00, 0xC8, 0x01];
    TailStartUnique(b, 2);
    assert b[2..] == [0xC8, 0x01] && b[2..][1..] == [0x01] && b[2..][1..][1..] == [];
    assert GroupSum([0x01]) == 1 && GroupSum(b[2..]) == 0x48 + 128 * 1;
  }

  // ---- The imperative decoder ----

  method ComputeTrailingVarInt(b: seq<u8>) returns (v: i32)
    ensures v == TrailingVarInt(b)
  {
    if |b| == 0 {
      return 0;
    }
    var i := |b| - 1;
    while i > 0 && b[i - 1] >= 128
      invariant 0 <= i < |b|
      invariant forall j :: i <= j < |b| - 1 ==> b[j] >= 128
    {
      i := i - 1;
    }
    TailStartUnique(b, i);
    var result := SumGroups(b[i..]);
    v := AsI32(result);
  }

  /** `result |= (b & 0x7F) << shift` over all bytes, in a 32-bit register. */
  method SumGroups(s: seq<u8>) returns (result: u32)
    ensures result == AsU32(GroupSum(s))
  {
    hide Pow2, Times, GroupSum, SumFrom, Low;
    Pow32();
    NoGroups(TWO32);
    SumEnds(s, 0);
    var low: nat, scale: nat := 0, 1;
    ghost var raw: nat := 0;
    for i := 0 to |s|
      invariant scale == Pow2(7 * i) && raw < scale && low == Low(raw, TWO32)
      invariant GroupSum(s) == SumFrom(raw, scale, s, i)
    {
      var g := Times(s[i] % 128, scale);
      OrGroup(raw, s[i] % 128, g, 7 * i, TWO32, 32, scale);
      SumStep(s, i, raw, scale, g);
      low := low + Low(g, TWO32);
      raw := raw + g;
      scale := scale * 128;
    }
    SumEnds(s, scale);
    LowIsRegister(raw);
    result := low;
  }

  /** The sum of all groups from `raw`, those before `i`, and the rest. */
  function SumFrom(raw: nat, scale: nat, s: seq<u8>, i: nat): nat
    requires i <= |s|
  {
    raw + Times(scale, GroupSum(s[i..]))
  }

  lemma SumEnds(s: seq<u8>, scale: nat)
    ensures SumFrom(0, 1, s, 0) == GroupSum(s)
    ensures forall raw: nat :: SumFrom(raw, scale, s, |s|) == raw
  {
    assert s[0..] == s && s[|s|..] == [];
  }

  lemma SumStep(s: seq<u8>, i: nat, raw: nat, scale: nat, g: nat)
    requires i < |s| && g == Times(s[i] % 128, scale)
    ensures SumFrom(raw, scale, s, i) == SumFrom(raw + g, scale * 128, s, i + 1)
  {
    hide Times;
    assert s[i..][1..] == s[i + 1..];
    SplicedAlgebra(scale, s[i] % 128, GroupSum(s[i + 1..]));
  }

  lemma LowIsRegister(raw: nat)
    ensures Low(raw, TWO32) == AsU32(raw)
  {
  }

  class UseItemOn {
    var hand: i32
    var x: i32
    var y: i32
    var z: i32
    var face: i32
    var sequence: i32

    function Value(): Use
      reads this
    {
      Use(hand, x, y, z, face, sequence)
    }

    constructor ()
    {
      hand, x, y, z, face, sequence := 0, 0, 0, 0, 0, 0;
    }

    method Decode(r: Reader)
      requires r.Valid()
      modifies this, r
      ensures r.Got(ParseUse(old(r.Rest())), Value(), old(r.err), old(r.pos))
      ensures r.err.Some? ==> face == 0 && sequence == 0
    {
      hide ParseVarInt, ParsePosition, TrailingVarInt;
      hand := r.VarInt();
      var p := r.Position();
      x, y, z := p.0, p.1, p.2;
      face := r.VarInt();
      var b := r.RemainingBytes();
      EmptyTail();
      sequence := ComputeTrailingVarInt(b);
    }
  }

  lemma EmptyTail()
    ensures TrailingVarInt([]) == 0
  {
  }
}
