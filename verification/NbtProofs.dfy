/** Round trips, the exact depth limit, and the normal form of decoded trees. */
module NbtProofs {
  import opened Bytes
  import opened Codec
  import opened Mutf8
  import opened Nbt

  // ---- Strings and counts ----

  lemma RawRoundTrip(b: seq<u8>, rest: seq<u8>)
    ensures ParseRaw(b + rest, |b|) == Ok(b, rest)
  {
    assert (b + rest)[..|b|] == b && (b + rest)[|b|..] == rest;
  }

  /** A string reads back exactly when its encoding fits the 16-bit length. */
  lemma StringRoundTripIff(s: Text, rest: seq<u8>)
    ensures ParseString(StringBytes(s) + rest) == Ok(s, rest) <==> FitsString(s)
  {
    var b := EncodeMutf8(s);
    var n := AsU16(|b|);
    assert StringBytes(s) + rest == UShortBytes(n) + (b + rest);
    UShortRoundTrip(n, b + rest);
    if FitsString(s) {
      RawRoundTrip(b, rest);
      Mutf8RoundTrip(s);
    } else {
      assert |ParseRaw(b + rest, n).rest| == |b + rest| - n > |rest|;
    }
  }

  function Letters(n: nat): (s: Text)
    ensures |s| == n
  {
    seq(n, _ => 0x61)
  }

  lemma {:induction false} LettersEncoded(n: nat)
    ensures EncodeMutf8(Letters(n)) == seq(n, _ => 0x61)
  {
    if n > 0 {
      var s := Letters(n);
      assert s[1..] == Letters(n - 1);
      LettersEncoded(n - 1);
      var us := Encode16(s);
      assert us == [0x61] + Encode16(Letters(n - 1)) && us[1..] == Encode16(Letters(n - 1));
    }
  }

  /** A text of n letters comes back as n modulo 65536 letters, with the others left
    * to be read as whatever follows; 65536 letters come back as none. */
  lemma LettersRead(n: nat, rest: seq<u8>)
    ensures var (m, b) := (n % 65536, EncodeMutf8(Letters(n)));
            |b| == n && ParseString(StringBytes(Letters(n)) + rest) == Ok(Letters(m), b[m..] + rest)
  {
    hide UShortBytes, ParseUShort, DecodeMutf8, EncodeMutf8;
    var (m, b) := (n % 65536, EncodeMutf8(Letters(n)));
    LettersEncoded(n);
    LettersEncoded(m);
    assert b[..m] == EncodeMutf8(Letters(m));
    assert StringBytes(Letters(n)) + rest == UShortBytes(m) + (b[..m] + (b[m..] + rest)) by {
      assert b == b[..m] + b[m..];
    }
    UShortRoundTrip(m, b[..m] + (b[m..] + rest));
    RawRoundTrip(b[..m], b[m..] + rest);
    Mutf8RoundTrip(Letters(m));
  }

  lemma CountRoundTrip(n: nat, rest: seq<u8>)
    requires n <= MAX_I32
    ensures ParseCount(CountBytes(n) + rest) == Ok(n, rest)
  {
    IntRoundTrip(n, rest);
  }

  lemma {:induction false} IntsRead(v: seq<i32>, acc: seq<i32>, rest: seq<u8>)
    ensures ParseInts(IntsBytes(v) + rest, |v|, acc) == Ok(TIntArray(acc + v), rest)
    decreases v
  {
    hide IntBytes, ParseInt;
    if v == [] {
      assert [] + rest == rest && acc + v == acc;
    } else {
      var tail := IntsBytes(v[1..]) + rest;
      assert IntsBytes(v) + rest == IntBytes(v[0]) + tail;
      IntRoundTrip(v[0], tail);
      IntsRead(v[1..], acc + [v[0]], rest);
      assert acc + [v[0]] + v[1..] == acc + v;
    }
  }

  lemma {:induction false} LongsRead(v: seq<i64>, acc: seq<i64>, rest: seq<u8>)
    ensures ParseLongs(Nbt.LongsBytes(v) + rest, |v|, acc) == Ok(TLongArray(acc + v), rest)
    decreases v
  {
    hide LongBytes, ParseLong;
    if v == [] {
      assert [] + rest == rest && acc + v == acc;
    } else {
      var tail := Nbt.LongsBytes(v[1..]) + rest;
      assert Nbt.LongsBytes(v) + rest == LongBytes(v[0]) + tail;
      LongRoundTrip(v[0], tail);
      LongsRead(v[1..], acc + [v[0]], rest);
      assert acc + [v[0]] + v[1..] == acc + v;
    }
  }

  // ---- Reading back a whole tree ----

  predicate Scalar(t: Tag) {
    !t.TList? && !t.TCompound? && !t.TByteArray? && !t.TIntArray? && !t.TLongArray?
  }

  lemma ScalarRead(t: Tag, rest: seq<u8>)
    requires Scalar(t) && StringsFit(t)
    ensures ParseScalar(PayloadBytes(t) + rest, TypeId(t)) == Ok(t, rest)
  {
    hide ParseByte, ParseShort, ParseInt, ParseLong, ParseFloat, ParseDouble, ParseString;
    hide ShortBytes, IntBytes, LongBytes, FloatBytes, DoubleBytes, StringBytes;
    match t {
      case TByte(v) => ByteRoundTrip(v, rest);
      case TShort(v) => ShortRoundTrip(v, rest);
      case TInt(v) => IntRoundTrip(v, rest);
      case TLong(v) => LongRoundTrip(v, rest);
      case TFloat(v) => FloatRoundTrip(v, rest);
      case TDouble(v) => DoubleRoundTrip(v, rest);
      case TString(v) => StringRoundTripIff(v, rest);
    }
  }

  lemma ByteArrayRead(v: seq<u8>, d: nat, rest: seq<u8>)
    requires |v| <= MAX_I32 && d <= MAX_DEPTH
    ensures ParsePayload(PayloadBytes(TByteArray(v)) + rest, 7, d) == Ok(TByteArray(v), rest)
  {
    assert PayloadBytes(TByteArray(v)) + rest == CountBytes(|v|) + (v + rest);
    CountRoundTrip(|v|, v + rest);
    RawRoundTrip(v, rest);
  }

  lemma IntArrayRead(v: seq<i32>, d: nat, rest: seq<u8>)
    requires |v| <= MAX_I32 && d <= MAX_DEPTH
    ensures ParsePayload(PayloadBytes(TIntArray(v)) + rest, 11, d) == Ok(TIntArray(v), rest)
  {
    assert PayloadBytes(TIntArray(v)) + rest == CountBytes(|v|) + (IntsBytes(v) + rest);
    CountRoundTrip(|v|, IntsBytes(v) + rest);
    IntsRead(v, [], rest);
    assert [] + v == v;
  }

  lemma LongArrayRead(v: seq<i64>, d: nat, rest: seq<u8>)
    requires |v| <= MAX_I32 && d <= MAX_DEPTH
    ensures ParsePayload(PayloadBytes(TLongArray(v)) + rest, 12, d) == Ok(TLongArray(v), rest)
  {
    assert PayloadBytes(TLongArray(v)) + rest == CountBytes(|v|) + (Nbt.LongsBytes(v) + rest);
    CountRoundTrip(|v|, Nbt.LongsBytes(v) + rest);
    LongsRead(v, [], rest);
    assert [] + v == v;
  }

  /** At depth `d`, what was written reads back normalised, with exactly its own
    * bytes consumed, unless the tree is nested too deep for the cap. */
  lemma {:induction false} PayloadRead(t: Tag, d: nat, rest: seq<u8>)
    requires Shaped(t) && StringsFit(t)
    ensures ParsePayload(PayloadBytes(t) + rest, TypeId(t), d)
            == if d + Nesting(t) > MAX_DEPTH then Err(NbtTooDeep) else Ok(Norm(t), rest)
    decreases t, 1
  {
    if d <= MAX_DEPTH {
      match t {
        case TList(et, es) => ListRead(et, es, d, rest);
        case TCompound(es) => CompoundRead(es, d, rest);
        case TByteArray(v) => ByteArrayRead(v, d, rest);
        case TIntArray(v) => IntArrayRead(v, d, rest);
        case TLongArray(v) => LongArrayRead(v, d, rest);
        case _ => ScalarRead(t, rest);
      }
    }
  }

  lemma {:induction false} CompoundRead(es: seq<Entry>, d: nat, rest: seq<u8>)
    requires Shaped(TCompound(es)) && StringsFit(TCompound(es)) && d <= MAX_DEPTH
    ensures ParsePayload(PayloadBytes(TCompound(es)) + rest, TAG_COMPOUND, d)
            == if d + NestingEntries(es) > MAX_DEPTH then Err(NbtTooDeep) else Ok(Norm(TCompound(es)), rest)
    decreases es, 2
  {
    hide ParsePayload, ParseEntries, PayloadBytes, EntriesBytes, Norm, NormEntries, NestingEntries;
    hide Shaped, ShapedEntries, DistinctNames, StringsFit, StringsFitEntries, NoneNamed;
    CompoundUnfolds(es, d, rest);
    NoneNamedEmpty(es);
    EntriesRead(es, d + 1, [], rest);
    assert [] + NormEntries(es) == NormEntries(es);
  }

  /** A compound is its entries and an end mark, in its bytes and in everything said about it. */
  lemma CompoundUnfolds(es: seq<Entry>, d: nat, rest: seq<u8>)
    ensures PayloadBytes(TCompound(es)) + rest == EntriesBytes(es) + ([TAG_END] + rest)
    ensures d <= MAX_DEPTH ==>
              forall s :: ParsePayload(s, TAG_COMPOUND, d) == ParseEntries(s, d + 1, [])
    ensures Shaped(TCompound(es)) == (DistinctNames(es) && ShapedEntries(es))
    ensures StringsFit(TCompound(es)) == StringsFitEntries(es)
    ensures Norm(TCompound(es)) == TCompound(NormEntries(es))
    ensures Nesting(TCompound(es)) == NestingEntries(es)
  {
    hide EntriesBytes, ParseEntries, DistinctNames, ShapedEntries, StringsFitEntries, NormEntries, NestingEntries;
  }

  lemma {:induction false} ListRead(et: u8, es: seq<Tag>, d: nat, rest: seq<u8>)
    requires Shaped(TList(et, es)) && StringsFit(TList(et, es)) && d <= MAX_DEPTH
    ensures ParsePayload(PayloadBytes(TList(et, es)) + rest, 9, d)
            == if d + NestingElems(es) > MAX_DEPTH then Err(NbtTooDeep) else Ok(Norm(TList(et, es)), rest)
    decreases es, 2
  {
    hide ParsePayload, ParseElems, PayloadBytes, ElemsBytes, CountBytes, Norm, NormElems, NestingElems;
    hide Shaped, ShapedElems, StringsFit, StringsFitElems;
    var et' := if es == [] then TAG_END else et;
    var body := ElemsBytes(es) + rest;
    ListBytes(et, es, rest);
    ListUnfolds(et, es);
    CountRoundTrip(|es|, body);
    ListHeadParsed(et', |es|, body, d);
    ElemsRead(es, et', d + 1, [], rest);
    assert [] + NormElems(es) == NormElems(es);
  }

  /** A list is its element type, its count and its elements in its bytes. */
  lemma ListBytes(et: u8, es: seq<Tag>, rest: seq<u8>)
    ensures PayloadBytes(TList(et, es)) + rest
            == [if es == [] then TAG_END else et] + (CountBytes(|es|) + (ElemsBytes(es) + rest))
  {
    hide PayloadBytes, CountBytes, ElemsBytes;
    ListPayload(et, es);
    Regrouped([if es == [] then TAG_END else et], CountBytes(|es|), ElemsBytes(es), rest);
  }

  lemma ListPayload(et: u8, es: seq<Tag>)
    ensures PayloadBytes(TList(et, es))
            == [if es == [] then TAG_END else et] + (CountBytes(|es|) + ElemsBytes(es))
  {
    hide CountBytes, ElemsBytes, EntriesBytes, IntsBytes, LongsBytes, StringBytes;
    hide ShortBytes, IntBytes, LongBytes, FloatBytes, DoubleBytes, AsU8;
    var t := TList(et, es);
    assert t.TList? && t.elems == es;
  }

  lemma Regrouped(a: seq<u8>, b: seq<u8>, c: seq<u8>, d: seq<u8>)
    ensures a + (b + c) + d == a + (b + (c + d))
  {
    assert a + (b + c) == a + b + c;
  }

  /** And in everything said about it. */
  lemma ListUnfolds(et: u8, es: seq<Tag>)
    ensures var et' := if es == [] then TAG_END else et;
            && Norm(TList(et, es)) == TList(et', NormElems(es))
            && (Shaped(TList(et, es)) ==> |es| <= MAX_I32 && ShapedElems(es, et'))
            && (StringsFit(TList(et, es)) ==> StringsFitElems(es))
  {
    hide NormElems, StringsFitElems, NormEntries, StringsFitEntries, ShapedEntries, DistinctNames, FitsString;
  }

  lemma ListHeadParsed(et: u8, n: nat, body: seq<u8>, d: nat)
    requires d <= MAX_DEPTH && ParseCount(CountBytes(n) + body) == Ok(n, body)
    ensures ParsePayload([et] + (CountBytes(n) + body), 9, d) == ParseElems(body, et, n, d + 1, [])
  {
    hide ParseCount, CountBytes, ParseElems;
    assert ([et] + (CountBytes(n) + body))[1..] == CountBytes(n) + body;
  }

  lemma {:induction false} ElemsRead(es: seq<Tag>, et: u8, d: nat, acc: seq<Tag>, rest: seq<u8>)
    requires ShapedElems(es, et) && StringsFitElems(es) && 1 <= d <= MAX_DEPTH + 1
    ensures ParseElems(ElemsBytes(es) + rest, et, |es|, d, acc)
            == if d - 1 + NestingElems(es) > MAX_DEPTH then Err(NbtTooDeep)
               else Ok(TList(et, acc + NormElems(es)), rest)
    decreases es, 0
  {
    if es == [] {
      assert [] + rest == rest && acc + NormElems(es) == acc;
    } else {
      var tail := ElemsBytes(es[1..]) + rest;
      assert ElemsBytes(es) + rest == PayloadBytes(es[0]) + tail;
      PayloadRead(es[0], d, tail);
      var acc' := acc + [Norm(es[0])];
      ElemsRead(es[1..], et, d, acc', rest);
      assert acc' + NormElems(es[1..]) == acc + NormElems(es);
    }
  }

  predicate NoneNamed(acc: seq<Entry>, es: seq<Entry>) {
    es == [] || (!HasName(acc, es[0].name) && NoneNamed(acc, es[1..]))
  }

  lemma {:induction false} SetFresh(acc: seq<Entry>, name: Text, v: Tag)
    requires !HasName(acc, name)
    ensures SetEntry(acc, name, v) == acc + [Entry(name, v)]
  {
    if acc != [] {
      SetFresh(acc[1..], name, v);
      assert acc == [acc[0]] + acc[1..];
    }
  }

  lemma {:induction false} HasNameSnoc(acc: seq<Entry>, e: Entry, name: Text)
    ensures HasName(acc + [e], name) <==> HasName(acc, name) || e.name == name
  {
    if acc == [] {
      assert acc + [e] == [e];
    } else {
      HasNameSnoc(acc[1..], e, name);
      assert (acc + [e])[1..] == acc[1..] + [e];
    }
  }

  lemma {:induction false} NoneNamedSnoc(acc: seq<Entry>, e: Entry, es: seq<Entry>)
    requires NoneNamed(acc, es) && !HasName(es, e.name)
    ensures NoneNamed(acc + [e], es)
  {
    if es != [] {
      HasNameSnoc(acc, e, es[0].name);
      NoneNamedSnoc(acc, e, es[1..]);
    }
  }

  lemma {:induction false} NoneNamedEmpty(es: seq<Entry>)
    ensures NoneNamed([], es)
  {
    if es != [] {
      NoneNamedEmpty(es[1..]);
    }
  }

  lemma {:induction false} EntriesRead(es: seq<Entry>, d: nat, acc: seq<Entry>, rest: seq<u8>)
    requires DistinctNames(es) && ShapedEntries(es) && StringsFitEntries(es) && 1 <= d <= MAX_DEPTH + 1
    requires NoneNamed(acc, es)
    ensures ParseEntries(EntriesBytes(es) + ([TAG_END] + rest), d, acc)
            == if d - 1 + NestingEntries(es) > MAX_DEPTH then Err(NbtTooDeep)
               else Ok(TCompound(acc + NormEntries(es)), rest)
    decreases es, 0
  {
    hide ParsePayload, ParseEntries, PayloadBytes, EntryBytes, EntriesBytes, Norm, NormEntries, Nesting, NestingEntries;
    hide Shaped, ShapedEntries, StringsFit, StringsFitEntries, DistinctNames, HasName, NoneNamed, FitsString;
    var end := [TAG_END] + rest;
    if es == [] {
      EndRead(d, acc, rest);
      NoEntries();
      assert [] + end == end && acc + [] == acc;
    } else {
      var e := es[0];
      var more := EntriesBytes(es[1..]);
      FirstEntry(es, acc);
      PayloadRead(e.tag, d, more + end);
      EntryStep(e, more, end, d, acc);
      if d + Nesting(e.tag) <= MAX_DEPTH {
        var n := Entry(e.name, Norm(e.tag));
        NoneNamedSnoc(acc, n, es[1..]);
        EntriesRead(es[1..], d, acc + [n], rest);
        assert acc + [n] + NormEntries(es[1..]) == acc + ([n] + NormEntries(es[1..]));
      }
    }
  }

  lemma NoEntries()
    ensures EntriesBytes([]) == [] && NormEntries([]) == [] && NestingEntries([]) == 0
  {
  }

  lemma FirstEntry(es: seq<Entry>, acc: seq<Entry>)
    requires es != []
    ensures EntriesBytes(es) == EntryBytes(es[0]) + EntriesBytes(es[1..])
    ensures NormEntries(es) == [Entry(es[0].name, Norm(es[0].tag))] + NormEntries(es[1..])
    ensures NestingEntries(es) == Max(1 + Nesting(es[0].tag), NestingEntries(es[1..]))
    ensures DistinctNames(es) ==> !HasName(es[1..], es[0].name) && DistinctNames(es[1..])
    ensures ShapedEntries(es) ==> Shaped(es[0].tag) && ShapedEntries(es[1..])
    ensures StringsFitEntries(es) ==>
              FitsString(es[0].name) && StringsFit(es[0].tag) && StringsFitEntries(es[1..])
    ensures NoneNamed(acc, es) ==> !HasName(acc, es[0].name) && NoneNamed(acc, es[1..])
  {
    hide EntryBytes, Norm, Nesting, Shaped, StringsFit, HasName, FitsString;
  }

  lemma EntryStep(e: Entry, more: seq<u8>, end: seq<u8>, d: nat, acc: seq<Entry>)
    requires FitsString(e.name) && !HasName(acc, e.name)
    requires ParsePayload(PayloadBytes(e.tag) + (more + end), TypeId(e.tag), d)
             == if d + Nesting(e.tag) > MAX_DEPTH then Err(NbtTooDeep) else Ok(Norm(e.tag), more + end)
    ensures ParseEntries((EntryBytes(e) + more) + end, d, acc)
            == if d + Nesting(e.tag) > MAX_DEPTH then Err(NbtTooDeep)
               else ParseEntries(more + end, d, acc + [Entry(e.name, Norm(e.tag))])
  {
    EntryRead(e, more, end, d, acc);
    SetFresh(acc, e.name, Norm(e.tag));
  }

  lemma EndRead(d: nat, acc: seq<Entry>, rest: seq<u8>)
    ensures ParseEntries([TAG_END] + rest, d, acc) == Ok(TCompound(acc), rest)
  {
    assert ([TAG_END] + rest)[1..] == rest;
  }

  function AfterValue(p: Parsed<Tag>, name: Text, d: nat, acc: seq<Entry>): Parsed<Tag> {
    if p.Err? then Err(p.error) else ParseEntries(p.rest, d, SetEntry(acc, name, p.value))
  }

  /** The head of a named tag is read to its payload. */
  lemma EntryRead(e: Entry, more: seq<u8>, end: seq<u8>, d: nat, acc: seq<Entry>)
    requires FitsString(e.name)
    ensures ParseEntries((EntryBytes(e) + more) + end, d, acc)
            == AfterValue(ParsePayload(PayloadBytes(e.tag) + (more + end), TypeId(e.tag), d), e.name, d, acc)
  {
    var tail := PayloadBytes(e.tag) + (more + end);
    var s := (EntryBytes(e) + more) + end;
    assert s == [TypeId(e.tag)] + (StringBytes(e.name) + tail);
    assert s[1..] == StringBytes(e.name) + tail;
    StringRoundTripIff(e.name, tail);
  }

  /** For every tree the encoder can represent, network NBT reads back normalised
    * up to the depth cap and is refused beyond it. */
  lemma NetworkRoundTrip(t: Tag, rest: seq<u8>)
    requires Shaped(t) && StringsFit(t)
    ensures ParseNetwork(NetworkBytes(Some(t)) + rest)
            == if Nesting(t) > MAX_DEPTH then Err(NbtTooDeep) else Ok(Some(Norm(t)), rest)
    ensures ParseNetwork(NetworkBytes(None) + rest) == Ok(None, rest)
  {
    hide ParsePayload, PayloadBytes;
    var s := NetworkBytes(Some(t)) + rest;
    assert s[1..] == PayloadBytes(t) + rest;
    PayloadRead(t, 0, rest);
    assert ([TAG_END] + rest)[1..] == rest;
  }

  lemma DiskRoundTrip(name: Text, t: Tag, rest: seq<u8>)
    requires Shaped(t) && StringsFit(t) && FitsString(name)
    ensures ParseDisk(DiskBytes(name, Some(t)) + rest)
            == if Nesting(t) > MAX_DEPTH then Err(NbtTooDeep) else Ok((name, Some(Norm(t))), rest)
    ensures ParseDisk(DiskBytes(name, None) + rest) == Ok(([], None), rest)
  {
    hide ParsePayload, PayloadBytes, StringBytes, ParseString, Shaped, StringsFit, Norm, Nesting, FitsString, TypeId;
    RootUnfolds(name, t, rest);
    StringRoundTripIff(name, PayloadBytes(t) + rest);
    PayloadRead(t, 0, rest);
    RootTyped(t);
    assert ([TAG_END] + rest)[1..] == rest;
  }

  lemma RootUnfolds(name: Text, t: Tag, rest: seq<u8>)
    ensures var s := DiskBytes(name, Some(t)) + rest;
            s != [] && s[0] == TypeId(t) && s[1..] == StringBytes(name) + (PayloadBytes(t) + rest)
  {
    hide PayloadBytes, StringBytes, TypeId;
  }

  lemma RootTyped(t: Tag)
    ensures TypeId(t) != TAG_END
  {
  }

  // ---- What the decoder accepts ----

  ghost predicate Suffix(r: seq<u8>, s: seq<u8>) {
    |r| <= |s| && r == s[|s| - |r|..]
  }

  lemma SuffixTrans(a: seq<u8>, b: seq<u8>, c: seq<u8>)
    requires Suffix(a, b) && Suffix(b, c)
    ensures Suffix(a, c)
  {
  }

  lemma {:induction false} ElemsSnoc(es: seq<Tag>, e: Tag, et: u8)
    requires ShapedElems(es, et) && TypeId(e) == et && Shaped(e)
    ensures ShapedElems(es + [e], et)
    ensures NestingElems(es + [e]) == Max(NestingElems(es), 1 + Nesting(e))
    ensures NodesElems(es + [e]) == NodesElems(es) + Nodes(e)
  {
    if es == [] {
      assert es + [e] == [e];
    } else {
      ElemsSnoc(es[1..], e, et);
      assert (es + [e])[1..] == es[1..] + [e];
    }
  }

  lemma {:induction false} SetNames(es: seq<Entry>, name: Text, v: Tag, m: Text)
    ensures HasName(SetEntry(es, name, v), m) <==> HasName(es, m) || m == name
  {
    if es != [] {
      if es[0].name == name {
        assert SetEntry(es, name, v)[1..] == es[1..];
      } else {
        SetNames(es[1..], name, v, m);
        assert SetEntry(es, name, v)[1..] == SetEntry(es[1..], name, v);
      }
    }
  }

  lemma {:induction false} SetKeeps(es: seq<Entry>, name: Text, v: Tag)
    requires DistinctNames(es) && ShapedEntries(es) && Shaped(v)
    ensures DistinctNames(SetEntry(es, name, v)) && ShapedEntries(SetEntry(es, name, v))
    ensures forall m :: HasName(SetEntry(es, name, v), m) <==> HasName(es, m) || m == name
    ensures NestingEntries(SetEntry(es, name, v)) <= Max(NestingEntries(es), 1 + Nesting(v))
    ensures NodesEntries(SetEntry(es, name, v)) <= NodesEntries(es) + Nodes(v)
  {
    hide Shaped, Nesting, Nodes;
    var r := SetEntry(es, name, v);
    forall m ensures HasName(r, m) <==> HasName(es, m) || m == name {
      SetNames(es, name, v, m);
    }
    if es != [] {
      if es[0].name == name {
        assert r[1..] == es[1..];
      } else {
        SetKeeps(es[1..], name, v);
        assert r[1..] == SetEntry(es[1..], name, v);
      }
    }
  }

  lemma FixedConsumes(s: seq<u8>, k: nat)
    ensures ParseUnsigned(s, k).Ok? ==> |s| == k + |ParseUnsigned(s, k).rest| && Suffix(ParseUnsigned(s, k).rest, s)
  {
  }

  lemma StringConsumes(s: seq<u8>)
    ensures ParseString(s).Ok? ==> |ParseString(s).rest| + 2 <= |s| && Suffix(ParseString(s).rest, s)
  {
    hide DecodeMutf8;
    FixedConsumes(s, SHORT_SIZE);
    var p := ParseUShort(s);
    if ParseString(s).Ok? {
      var q := ParseRaw(p.rest, p.value);
      assert Suffix(q.rest, p.rest);
      SuffixTrans(q.rest, p.rest, s);
    }
  }

  lemma ScalarConsumes(s: seq<u8>, typ: u8)
    requires ParseScalar(s, typ).Ok?
    ensures Scalar(ParseScalar(s, typ).value) && TypeId(ParseScalar(s, typ).value) == typ
    ensures |ParseScalar(s, typ).rest| < |s| && Suffix(ParseScalar(s, typ).rest, s)
  {
    hide ParseString;
    FixedConsumes(s, SHORT_SIZE);
    FixedConsumes(s, INT_SIZE);
    FixedConsumes(s, LONG_SIZE);
    StringConsumes(s);
  }

  lemma CountConsumes(s: seq<u8>)
    requires ParseCount(s).Ok?
    ensures |ParseCount(s).rest| < |s| && Suffix(ParseCount(s).rest, s) && ParseCount(s).value <= MAX_I32
  {
    FixedConsumes(s, INT_SIZE);
  }

  lemma {:induction false} IntsConsume(s: seq<u8>, n: nat, acc: seq<i32>)
    requires ParseInts(s, n, acc).Ok?
    ensures var p := ParseInts(s, n, acc);
            Suffix(p.rest, s) && p.value.TIntArray? && |p.value.ints| == |acc| + n
    decreases n
  {
    if n > 0 {
      FixedConsumes(s, INT_SIZE);
      var p := ParseInt(s);
      IntsConsume(p.rest, n - 1, acc + [p.value]);
      SuffixTrans(ParseInts(s, n, acc).rest, p.rest, s);
    }
  }

  lemma {:induction false} LongsConsume(s: seq<u8>, n: nat, acc: seq<i64>)
    requires ParseLongs(s, n, acc).Ok?
    ensures var p := ParseLongs(s, n, acc);
            Suffix(p.rest, s) && p.value.TLongArray? && |p.value.longs| == |acc| + n
    decreases n
  {
    if n > 0 {
      FixedConsumes(s, LONG_SIZE);
      var p := ParseLong(s);
      LongsConsume(p.rest, n - 1, acc + [p.value]);
      SuffixTrans(ParseLongs(s, n, acc).rest, p.rest, s);
    }
  }

  /** The tree at depth `d` read from `s`, with `r` left over, is one the decoder can yield. */
  ghost predicate Accepted(t: Tag, typ: u8, d: nat, s: seq<u8>, r: seq<u8>) {
    && TypeId(t) == typ && Shaped(t) && d + Nesting(t) <= MAX_DEPTH
    && Suffix(r, s) && |r| + Nodes(t) <= |s|
  }

  /** On every byte string: an accepted tree has homogeneous lists, distinct keys,
    * bounded nesting, no more nodes than bytes, and leaves a suffix unread. */
  lemma {:induction false} PayloadAccepted(s: seq<u8>, typ: u8, d: nat)
    requires ParsePayload(s, typ, d).Ok?
    ensures Accepted(ParsePayload(s, typ, d).value, typ, d, s, ParsePayload(s, typ, d).rest)
    decreases |s|, 1
  {
    hide ParseScalar, ParseCount, ParseRaw;
    if typ == 7 {
      ByteArrayAccepted(s, d);
    } else if typ == 9 {
      ListAccepted(s, d);
    } else if typ == 10 {
      EntriesAccepted(s, d + 1, []);
    } else if typ == 11 {
      IntArrayAccepted(s, d);
    } else if typ == 12 {
      LongArrayAccepted(s, d);
    } else {
      ScalarConsumes(s, typ);
    }
  }

  lemma ByteArrayAccepted(s: seq<u8>, d: nat)
    requires ParsePayload(s, 7, d).Ok?
    ensures Accepted(ParsePayload(s, 7, d).value, 7, d, s, ParsePayload(s, 7, d).rest)
  {
    hide ParseCount;
    CountConsumes(s);
    var c := ParseCount(s);
    assert Suffix(ParseRaw(c.rest, c.value).rest, c.rest);
    SuffixTrans(ParseRaw(c.rest, c.value).rest, c.rest, s);
  }

  lemma IntArrayAccepted(s: seq<u8>, d: nat)
    requires ParsePayload(s, 11, d).Ok?
    ensures Accepted(ParsePayload(s, 11, d).value, 11, d, s, ParsePayload(s, 11, d).rest)
  {
    hide ParseCount, ParseInts, ParseLongs;
    CountConsumes(s);
    var c := ParseCount(s);
    IntsConsume(c.rest, c.value, []);
    SuffixTrans(ParsePayload(s, 11, d).rest, c.rest, s);
  }

  lemma LongArrayAccepted(s: seq<u8>, d: nat)
    requires ParsePayload(s, 12, d).Ok?
    ensures Accepted(ParsePayload(s, 12, d).value, 12, d, s, ParsePayload(s, 12, d).rest)
  {
    hide ParseCount, ParseInts, ParseLongs;
    CountConsumes(s);
    var c := ParseCount(s);
    LongsConsume(c.rest, c.value, []);
    SuffixTrans(ParsePayload(s, 12, d).rest, c.rest, s);
  }

  lemma {:induction false} ListAccepted(s: seq<u8>, d: nat)
    requires ParsePayload(s, 9, d).Ok?
    ensures Accepted(ParsePayload(s, 9, d).value, 9, d, s, ParsePayload(s, 9, d).rest)
    decreases |s|, 0
  {
    hide ParseCount, ParseElems;
    var et := s[0];
    var c := ParseCount(s[1..]);
    CountConsumes(s[1..]);
    assert Suffix(s[1..], s);
    SuffixTrans(c.rest, s[1..], s);
    ElemsAccepted(c.rest, et, c.value, d + 1, []);
    SuffixTrans(ParsePayload(s, 9, d).rest, c.rest, s);
  }

  lemma {:induction false} ElemsAccepted(s: seq<u8>, et: u8, n: nat, d: nat, acc: seq<Tag>)
    requires ParseElems(s, et, n, d, acc).Ok? && d > 0
    requires ShapedElems(acc, et) && d - 1 + NestingElems(acc) <= MAX_DEPTH
    ensures var p := ParseElems(s, et, n, d, acc);
            && p.value.TList? && p.value.elemType == et && |p.value.elems| == |acc| + n
            && ShapedElems(p.value.elems, et) && d - 1 + NestingElems(p.value.elems) <= MAX_DEPTH
            && Suffix(p.rest, s) && |p.rest| + NodesElems(p.value.elems) <= |s| + NodesElems(acc)
    decreases |s|, 2
  {
    hide ParsePayload;
    if n > 0 {
      var p := ParsePayload(s, et, d);
      PayloadAccepted(s, et, d);
      ElemsSnoc(acc, p.value, et);
      ElemsAccepted(p.rest, et, n - 1, d, acc + [p.value]);
      SuffixTrans(ParseElems(s, et, n, d, acc).rest, p.rest, s);
    }
  }

  lemma {:induction false} EntriesAccepted(s: seq<u8>, d: nat, acc: seq<Entry>)
    requires ParseEntries(s, d, acc).Ok? && d > 0
    requires DistinctNames(acc) && ShapedEntries(acc) && d - 1 + NestingEntries(acc) <= MAX_DEPTH
    ensures var p := ParseEntries(s, d, acc);
            && p.value.TCompound?
            && DistinctNames(p.value.entries) && ShapedEntries(p.value.entries)
            && d - 1 + NestingEntries(p.value.entries) <= MAX_DEPTH
            && Suffix(p.rest, s) && |p.rest| + 1 + NodesEntries(p.value.entries) <= |s| + NodesEntries(acc)
    decreases |s|, 0
  {
    hide ParsePayload, ParseString;
    if s[0] != TAG_END {
      var name := ParseString(s[1..]);
      StringConsumes(s[1..]);
      var p := ParsePayload(name.rest, s[0], d);
      PayloadAccepted(name.rest, s[0], d);
      SetKeeps(acc, name.value, p.value);
      EntriesAccepted(p.rest, d, SetEntry(acc, name.value, p.value));
      EntrySuffix(ParseEntries(s, d, acc).rest, p.rest, name.rest, s);
    }
  }

  lemma EntrySuffix(a: seq<u8>, b: seq<u8>, c: seq<u8>, s: seq<u8>)
    requires s != [] && Suffix(a, b) && Suffix(b, c) && Suffix(c, s[1..])
    ensures Suffix(a, s)
  {
    SuffixTrans(a, b, c);
    SuffixTrans(a, c, s[1..]);
  }

  // ---- Decoding is a normaliser ----

  lemma {:induction false} NormSame(t: Tag)
    ensures PayloadBytes(Norm(t)) == PayloadBytes(t) && Norm(Norm(t)) == Norm(t)
    decreases t, 1
  {
    if t.TList? {
      NormSameElems(t.elems);
    } else if t.TCompound? {
      NormSameEntries(t.entries);
    }
  }

  lemma {:induction false} NormSameElems(es: seq<Tag>)
    ensures ElemsBytes(NormElems(es)) == ElemsBytes(es) && NormElems(NormElems(es)) == NormElems(es)
    decreases es, 0
  {
    if es != [] {
      NormSame(es[0]);
      NormSameElems(es[1..]);
      assert NormElems(es)[1..] == NormElems(es[1..]);
    }
  }

  lemma {:induction false} NormSameEntries(es: seq<Entry>)
    ensures EntriesBytes(NormEntries(es)) == EntriesBytes(es) && NormEntries(NormEntries(es)) == NormEntries(es)
    decreases es, 0
  {
    if es != [] {
      NormSame(es[0].tag);
      NormSameEntries(es[1..]);
      assert NormEntries(es)[1..] == NormEntries(es[1..]);
    }
  }

  /** Whatever bytes were accepted (duplicate keys, overlong characters, unpaired
    * surrogates), writing the tree and reading it again gives the same tree up to
    * empty-list element types; after that nothing changes any more. */
  lemma DecodingNormalises(s: seq<u8>, t: Tag, r: seq<u8>, rest: seq<u8>)
    requires ParseNetwork(s) == Ok(Some(t), r) && StringsFit(t)
    ensures ParseNetwork(NetworkBytes(Some(t)) + rest) == Ok(Some(Norm(t)), rest)
    ensures NetworkBytes(Some(Norm(t))) == NetworkBytes(Some(t)) && Norm(Norm(t)) == Norm(t)
    ensures |r| + Nodes(t) < |s|
  {
    PayloadAccepted(s[1..], s[0], 0);
    NetworkRoundTrip(t, rest);
    NormSame(t);
  }
}
