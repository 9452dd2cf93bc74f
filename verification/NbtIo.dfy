/** The imperative encoder and decoder, proved against the byte-level meaning. */
module NbtIo {
  import opened Bytes
  import opened Codec
  import opened Mutf8
  import opened Nbt
  import opened NbtProofs

  /** The ordered set of named tags while it is being built: a key slice beside a map. */
  class Compound {
    var keys: seq<Text>
    var vals: map<Text, Tag>

    ghost predicate Valid()
      reads this
    {
      && (forall k :: k in vals <==> k in keys)
      && (forall i, j :: 0 <= i < j < |keys| ==> keys[i] != keys[j])
    }

    /** Its value: the entries in insertion order. */
    function Entries(): (es: seq<Entry>)
      requires Valid()
      reads this
      ensures |es| == |keys|
    {
      seq(|keys|, i requires 0 <= i < |keys| && Valid() reads this => Entry(keys[i], vals[keys[i]]))
    }

    constructor ()
      ensures Valid() && Entries() == []
    {
      keys, vals := [], map[];
    }

    method Set(name: Text, t: Tag)
      requires Valid()
      modifies this
      ensures Valid() && Entries() == SetEntry(old(Entries()), name, t)
    {
      ghost var es := Entries();
      if name !in vals {
        NotNamed(es, name);
        SetFresh(es, name, t);
        keys := keys + [name];
      } else {
        ghost var i :| 0 <= i < |keys| && keys[i] == name;
        SetPresent(es, i, name, t);
      }
      vals := vals[name := t];
    }

    method Get(name: Text) returns (r: Option<Tag>)
      requires Valid()
      ensures r.Some? ==> Entry(name, r.value) in Entries()
      ensures r.None? ==> !HasName(Entries(), name)
    {
      if name in vals {
        ghost var i :| 0 <= i < |keys| && keys[i] == name;
        assert Entries()[i] == Entry(name, vals[name]);
        r := Some(vals[name]);
      } else {
        NotNamed(Entries(), name);
        r := None;
      }
    }
  }

  lemma {:induction false} NotNamed(es: seq<Entry>, name: Text)
    requires forall i :: 0 <= i < |es| ==> es[i].name != name
    ensures !HasName(es, name)
  {
    if es != [] {
      NotNamed(es[1..], name);
    }
  }

  lemma {:induction false} SetPresent(es: seq<Entry>, i: nat, name: Text, t: Tag)
    requires i < |es| && es[i].name == name && forall j :: 0 <= j < i ==> es[j].name != name
    ensures SetEntry(es, name, t) == es[i := Entry(name, t)]
  {
    if i > 0 {
      SetPresent(es[1..], i - 1, name, t);
      assert es[i := Entry(name, t)] == [es[0]] + es[1..][i - 1 := Entry(name, t)];
    }
  }

  // ---- Encoder ----

  method WriteString(w: Writer, s: Text)
    modifies w
    ensures w.buf == old(w.buf) + StringBytes(s)
  {
    var b := Mutf8.Encode(s);
    w.Fixed(AsU16(|b|), SHORT_SIZE);
    w.Raw(b);
  }

  method WritePayload(w: Writer, t: Tag)
    modifies w
    ensures w.buf == old(w.buf) + PayloadBytes(t)
    decreases t, 2
  {
    hide BigEndian, EncodeMutf8, ElemsBytes, EntriesBytes, IntsBytes, LongsBytes, StringBytes;
    hide AsI32, AsU32, AsU16, AsU8, AsU64;
    match t {
      case TByte(v) => w.UByte(AsU8(v));
      case TShort(v) => w.Fixed(AsU16(v), SHORT_SIZE);
      case TInt(v) => w.Fixed(AsU32(v), INT_SIZE);
      case TLong(v) => w.Fixed(AsU64(v), LONG_SIZE);
      case TFloat(v) => w.Fixed(v, INT_SIZE);
      case TDouble(v) => w.Fixed(v, LONG_SIZE);
      case TByteArray(v) =>
        w.Fixed(AsU32(AsI32(|v|)), INT_SIZE);
        w.Raw(v);
      case TString(s) => WriteString(w, s);
      case TList(_, _) => WriteList(w, t);
      case TCompound(_) => WriteCompound(w, t);
      case TIntArray(v) =>
        w.Fixed(AsU32(AsI32(|v|)), INT_SIZE);
        WriteInts(w, v);
      case TLongArray(v) =>
        w.Fixed(AsU32(AsI32(|v|)), INT_SIZE);
        WriteLongs(w, v);
    }
  }

  method WriteList(w: Writer, t: Tag)
    requires t.TList?
    modifies w
    ensures w.buf == old(w.buf) + PayloadBytes(t)
    decreases t, 1
  {
    hide BigEndian, ElemsBytes, AsI32, AsU32;
    var n := |t.elems|;
    w.UByte(if n == 0 then TAG_END else t.elemType);
    w.Fixed(AsU32(AsI32(n)), INT_SIZE);
    WriteElems(w, t);
  }

  method WriteElems(w: Writer, t: Tag)
    requires t.TList?
    modifies w
    ensures w.buf == old(w.buf) + ElemsBytes(t.elems)
    decreases t, 0
  {
    hide PayloadBytes;
    var es := t.elems;
    for i := 0 to |es|
      invariant w.buf + ElemsBytes(es[i..]) == old(w.buf) + ElemsBytes(es)
    {
      ElemsHead(es, i);
      ghost var before := w.buf;
      WritePayload(w, es[i]);
      assert before + (PayloadBytes(es[i]) + ElemsBytes(es[i + 1..])) == w.buf + ElemsBytes(es[i + 1..]);
    }
  }

  lemma ElemsHead(es: seq<Tag>, i: nat)
    requires i < |es|
    ensures ElemsBytes(es[i..]) == PayloadBytes(es[i]) + ElemsBytes(es[i + 1..])
  {
    assert es[i..][1..] == es[i + 1..];
  }

  method WriteCompound(w: Writer, t: Tag)
    requires t.TCompound?
    modifies w
    ensures w.buf == old(w.buf) + PayloadBytes(t)
    decreases t, 0
  {
    hide TypeId, StringBytes, ElemsBytes, BigEndian;
    var es := t.entries;
    for i := 0 to |es|
      invariant w.buf + EntriesBytes(es[i..]) == old(w.buf) + EntriesBytes(es)
    {
      EntriesHead(es, i);
      ghost var before := w.buf;
      w.UByte(TypeId(es[i].tag));
      WriteString(w, es[i].name);
      WritePayload(w, es[i].tag);
      assert w.buf == before + EntryBytes(es[i]);
      assert before + (EntryBytes(es[i]) + EntriesBytes(es[i + 1..])) == w.buf + EntriesBytes(es[i + 1..]);
    }
    assert w.buf == old(w.buf) + EntriesBytes(es);
    w.UByte(TAG_END);
  }

  lemma EntriesHead(es: seq<Entry>, i: nat)
    requires i < |es|
    ensures EntriesBytes(es[i..]) == EntryBytes(es[i]) + EntriesBytes(es[i + 1..])
  {
    assert es[i..][1..] == es[i + 1..];
  }

  method WriteInts(w: Writer, v: seq<i32>)
    modifies w
    ensures w.buf == old(w.buf) + IntsBytes(v)
  {
    hide IntsBytes, BigEndian;
    assert v[0..] == v;
    NoInts();
    for i := 0 to |v|
      invariant w.buf + IntsBytes(v[i..]) == old(w.buf) + IntsBytes(v)
    {
      IntsStep(v, i, w.buf);
      w.Fixed(AsU32(v[i]), INT_SIZE);
    }
    assert v[|v|..] == [] && w.buf + [] == w.buf;
  }

  lemma NoInts()
    ensures IntsBytes([]) == []
  {
  }

  lemma IntsStep(v: seq<i32>, i: nat, before: seq<u8>)
    requires i < |v|
    ensures before + IntsBytes(v[i..]) == before + BigEndian(AsU32(v[i]), INT_SIZE) + IntsBytes(v[i + 1..])
  {
    hide BigEndian;
    assert v[i..][1..] == v[i + 1..];
  }

  method WriteLongs(w: Writer, v: seq<i64>)
    modifies w
    ensures w.buf == old(w.buf) + LongsBytes(v)
  {
    hide LongsBytes, BigEndian;
    assert v[0..] == v;
    NoLongs();
    for i := 0 to |v|
      invariant w.buf + LongsBytes(v[i..]) == old(w.buf) + LongsBytes(v)
    {
      LongsStep(v, i, w.buf);
      w.Fixed(AsU64(v[i]), LONG_SIZE);
    }
    assert v[|v|..] == [] && w.buf + [] == w.buf;
  }

  lemma NoLongs()
    ensures LongsBytes([]) == []
  {
  }

  lemma LongsStep(v: seq<i64>, i: nat, before: seq<u8>)
    requires i < |v|
    ensures before + LongsBytes(v[i..]) == before + BigEndian(AsU64(v[i]), LONG_SIZE) + LongsBytes(v[i + 1..])
  {
    hide BigEndian;
    assert v[i..][1..] == v[i + 1..];
  }

  method WriteNetwork(w: Writer, root: Option<Tag>)
    modifies w
    ensures w.buf == old(w.buf) + NetworkBytes(root)
  {
    hide PayloadBytes, TypeId;
    if root.None? {
      w.UByte(TAG_END);
      return;
    }
    w.UByte(TypeId(root.value));
    WritePayload(w, root.value);
  }

  method WriteDisk(w: Writer, name: Text, root: Option<Tag>)
    modifies w
    ensures w.buf == old(w.buf) + DiskBytes(name, root)
  {
    hide PayloadBytes, StringBytes, TypeId;
    if root.None? {
      w.UByte(TAG_END);
      return;
    }
    w.UByte(TypeId(root.value));
    WriteString(w, name);
    WritePayload(w, root.value);
  }

  // ---- Decoder ----
  // On an error the source returns a nil tag; callers look only at the reader's error.

  const NIL: Tag := TByte(0)

  method ReadString(r: Reader) returns (s: Text)
    requires r.Valid()
    modifies r
    ensures r.Got(ParseString(old(r.Rest())), s, old(r.err), old(r.pos))
  {
    var n := r.UShort();
    var b := r.Raw(n);
    if r.err.Some? {
      return [];
    }
    var d := Mutf8.Decode(b);
    if d.None? {
      r.Fail(BadModifiedUtf8);
      return [];
    }
    s := d.value;
  }

  method ReadCount(r: Reader) returns (n: nat)
    requires r.Valid()
    modifies r
    ensures r.Got(ParseCount(old(r.Rest())), n, old(r.err), old(r.pos))
  {
    var v := r.Int();
    if r.err.Some? {
      return 0;
    }
    if v < 0 {
      r.Fail(NbtNegativeLength);
      return 0;
    }
    n := v;
  }

  method ReadPayload(r: Reader, typ: u8, depth: nat) returns (t: Tag)
    requires r.Valid()
    modifies r
    ensures r.Got(ParsePayload(old(r.Rest()), typ, depth), t, old(r.err), old(r.pos))
    decreases |r.data| - r.pos, 2
  {
    if depth > MAX_DEPTH {
      r.Fail(NbtTooDeep);
      return NIL;
    }
    match typ {
      case 7 => t := ReadByteArray(r, depth);
      case 9 => t := ReadList(r, depth);
      case 10 => t := ReadCompound(r, depth);
      case 11 => t := ReadIntArray(r, depth);
      case 12 => t := ReadLongArray(r, depth);
      case _ => t := ReadScalar(r, typ);
    }
  }

  method ReadScalar(r: Reader, typ: u8) returns (t: Tag)
    requires r.Valid()
    modifies r
    ensures r.Got(ParseScalar(old(r.Rest()), typ), t, old(r.err), old(r.pos))
  {
    hide ParseByte, ParseShort, ParseInt, ParseLong, ParseFloat, ParseDouble, ParseString;
    match typ {
      case 1 => var v := r.Byte(); t := TByte(v);
      case 2 => var v := r.Short(); t := TShort(v);
      case 3 => var v := r.Int(); t := TInt(v);
      case 4 => var v := r.Long(); t := TLong(v);
      case 5 => var v := r.Float(); t := TFloat(v);
      case 6 => var v := r.Double(); t := TDouble(v);
      case 8 => var v := ReadString(r); t := TString(v);
      case _ => r.Fail(NbtUnknownTag(typ)); t := NIL;
    }
  }

  method ReadByteArray(r: Reader, depth: nat) returns (t: Tag)
    requires r.Valid() && depth <= MAX_DEPTH
    modifies r
    ensures r.Got(ParsePayload(old(r.Rest()), 7, depth), t, old(r.err), old(r.pos))
  {
    hide ParseCount;
    var n := ReadCount(r);
    if r.err.Some? {
      return NIL;
    }
    var b := r.Raw(n);
    t := TByteArray(b);
  }

  method ReadList(r: Reader, depth: nat) returns (t: Tag)
    requires r.Valid() && depth <= MAX_DEPTH
    modifies r
    ensures r.Got(ParsePayload(old(r.Rest()), 9, depth), t, old(r.err), old(r.pos))
    decreases |r.data| - r.pos, 1
  {
    hide ParseCount, ParsePayload;
    ghost var s0 := r.Rest();
    ListMeaning(s0, depth);
    var et := r.UByte();
    var n := ReadCount(r);
    if r.err.Some? {
      return NIL;
    }
    var elems: seq<Tag> := [];
    for i := 0 to n
      invariant r.Valid() && old(r.pos) < r.pos && r.err.None?
      invariant ParsePayload(s0, 9, depth) == ParseElems(r.Rest(), et, n - i, depth + 1, elems)
    {
      var e := ReadPayload(r, et, depth + 1);
      if r.err.Some? {
        return NIL;
      }
      elems := elems + [e];
    }
    t := TList(et, elems);
  }

  lemma ListMeaning(s: seq<u8>, depth: nat)
    requires depth <= MAX_DEPTH
    ensures ParseUByte(s).Err? ==> ParsePayload(s, 9, depth) == Err(ParseUByte(s).error)
    ensures ParseUByte(s).Ok? && ParseCount(s[1..]).Err? ==> ParsePayload(s, 9, depth) == Err(ParseCount(s[1..]).error)
    ensures ParseUByte(s).Ok? && ParseCount(s[1..]).Ok? ==>
              ParsePayload(s, 9, depth)
              == ParseElems(ParseCount(s[1..]).rest, s[0], ParseCount(s[1..]).value, depth + 1, [])
  {
    hide ParseCount, ParseElems;
  }

  method ReadCompound(r: Reader, depth: nat) returns (t: Tag)
    requires r.Valid() && depth <= MAX_DEPTH
    modifies r
    ensures r.Got(ParsePayload(old(r.Rest()), 10, depth), t, old(r.err), old(r.pos))
    decreases |r.data| - r.pos, 1
  {
    ghost var s0 := r.Rest();
    assert ParsePayload(s0, 10, depth) == ParseEntries(s0, depth + 1, []);
    hide ParsePayload, ParseString;
    var c := new Compound();
    while true
      invariant r.Valid() && old(r.pos) <= r.pos && c.Valid()
      invariant old(r.err).Some? ==> r.err == old(r.err) && r.pos == old(r.pos)
      invariant old(r.err).None? ==>
                  r.err.None? && ParsePayload(s0, 10, depth) == ParseEntries(r.Rest(), depth + 1, c.Entries())
      decreases |r.data| - r.pos
    {
      var ct := r.UByte();
      if r.err.Some? {
        return NIL;
      }
      if ct == TAG_END {
        break;
      }
      var name := ReadString(r);
      var val := ReadPayload(r, ct, depth + 1);
      if r.err.Some? {
        return NIL;
      }
      c.Set(name, val);
    }
    t := TCompound(c.Entries());
  }

  method ReadIntArray(r: Reader, depth: nat) returns (t: Tag)
    requires r.Valid() && depth <= MAX_DEPTH
    modifies r
    ensures r.Got(ParsePayload(old(r.Rest()), 11, depth), t, old(r.err), old(r.pos))
  {
    ghost var p := ParsePayload(r.Rest(), 11, depth);
    hide ParseCount, ParseInt;
    var n := ReadCount(r);
    if r.err.Some? {
      return NIL;
    }
    var arr: seq<i32> := [];
    for i := 0 to n
      invariant r.Valid() && old(r.pos) <= r.pos && r.err.None?
      invariant p == ParseInts(r.Rest(), n - i, arr)
    {
      var v := r.Int();
      if r.err.Some? {
        return NIL;
      }
      arr := arr + [v];
    }
    t := TIntArray(arr);
  }

  method ReadLongArray(r: Reader, depth: nat) returns (t: Tag)
    requires r.Valid() && depth <= MAX_DEPTH
    modifies r
    ensures r.Got(ParsePayload(old(r.Rest()), 12, depth), t, old(r.err), old(r.pos))
  {
    ghost var p := ParsePayload(r.Rest(), 12, depth);
    hide ParseCount, ParseLong;
    var n := ReadCount(r);
    if r.err.Some? {
      return NIL;
    }
    var arr: seq<i64> := [];
    for i := 0 to n
      invariant r.Valid() && old(r.pos) <= r.pos && r.err.None?
      invariant p == ParseLongs(r.Rest(), n - i, arr)
    {
      var v := r.Long();
      if r.err.Some? {
        return NIL;
      }
      arr := arr + [v];
    }
    t := TLongArray(arr);
  }

  method ReadNetwork(r: Reader) returns (root: Option<Tag>)
    requires r.Valid()
    modifies r
    ensures r.Got(ParseNetwork(old(r.Rest())), root, old(r.err), old(r.pos))
  {
    hide ParsePayload;
    var typ := r.UByte();
    if r.err.Some? || typ == TAG_END {
      return None;
    }
    var t := ReadPayload(r, typ, 0);
    root := Some(t);
  }

  method ReadDisk(r: Reader) returns (name: Text, root: Option<Tag>)
    requires r.Valid()
    modifies r
    ensures r.Got(ParseDisk(old(r.Rest())), (name, root), old(r.err), old(r.pos))
  {
    hide ParsePayload, ParseString;
    name, root := [], None;
    var typ := r.UByte();
    if r.err.Some? || typ == TAG_END {
      return;
    }
    name := ReadString(r);
    var t := ReadPayload(r, typ, 0);
    root := Some(t);
  }
}
