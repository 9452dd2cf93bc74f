/** Named Binary Tag trees: what the encoder writes, what the decoder accepts,
  * and how the two relate. */
module Nbt {
  import opened Bytes
  import opened Codec
  import opened Mutf8

  const MAX_DEPTH: nat := 512

  datatype Tag =
    | TByte(byte: i8)
    | TShort(short: i16)
    | TInt(int32: i32)
    | TLong(int64: i64)
    | TFloat(bits32: u32)
    | TDouble(bits64: u64)
    | TByteArray(bytes: seq<u8>)
    | TString(text: Text)
    | TList(elemType: u8, elems: seq<Tag>)
    | TCompound(entries: seq<Entry>)
    | TIntArray(ints: seq<i32>)
    | TLongArray(longs: seq<i64>)

  datatype Entry = Entry(name: Text, tag: Tag)

  const TAG_END: u8 := 0
  const TAG_COMPOUND: u8 := 10

  function TypeId(t: Tag): u8 {
    match t
    case TByte(_) => 1
    case TShort(_) => 2
    case TInt(_) => 3
    case TLong(_) => 4
    case TFloat(_) => 5
    case TDouble(_) => 6
    case TByteArray(_) => 7
    case TString(_) => 8
    case TList(_, _) => 9
    case TCompound(_) => TAG_COMPOUND
    case TIntArray(_) => 11
    case TLongArray(_) => 12
  }

  // ---- Compounds: named tags in first-insertion order ----

  function SetEntry(es: seq<Entry>, name: Text, tag: Tag): seq<Entry> {
    if es == [] then [Entry(name, tag)]
    else if es[0].name == name then [Entry(name, tag)] + es[1..]
    else [es[0]] + SetEntry(es[1..], name, tag)
  }

  predicate HasName(es: seq<Entry>, name: Text) {
    es != [] && (es[0].name == name || HasName(es[1..], name))
  }

  predicate DistinctNames(es: seq<Entry>) {
    es == [] || (!HasName(es[1..], es[0].name) && DistinctNames(es[1..]))
  }

  // ---- Writing ----

  function StringBytes(s: Text): seq<u8> {
    UShortBytes(AsU16(|EncodeMutf8(s)|)) + EncodeMutf8(s)
  }

  function CountBytes(n: nat): seq<u8> { IntBytes(AsI32(n)) }

  function PayloadBytes(t: Tag): seq<u8>
    decreases t, 1
  {
    match t
    case TByte(v) => [AsU8(v)]
    case TShort(v) => ShortBytes(v)
    case TInt(v) => IntBytes(v)
    case TLong(v) => LongBytes(v)
    case TFloat(v) => FloatBytes(v)
    case TDouble(v) => DoubleBytes(v)
    case TByteArray(v) => CountBytes(|v|) + v
    case TString(s) => StringBytes(s)
    case TList(et, es) => [if es == [] then TAG_END else et] + (CountBytes(|es|) + ElemsBytes(es))
    case TCompound(es) => EntriesBytes(es) + [TAG_END]
    case TIntArray(v) => CountBytes(|v|) + IntsBytes(v)
    case TLongArray(v) => CountBytes(|v|) + LongsBytes(v)
  }

  function ElemsBytes(es: seq<Tag>): seq<u8>
    decreases es, 0
  {
    if es == [] then [] else PayloadBytes(es[0]) + ElemsBytes(es[1..])
  }

  function EntryBytes(e: Entry): seq<u8>
    decreases e, 2
  {
    [TypeId(e.tag)] + (StringBytes(e.name) + PayloadBytes(e.tag))
  }

  function EntriesBytes(es: seq<Entry>): seq<u8>
    decreases es, 0
  {
    if es == [] then [] else EntryBytes(es[0]) + EntriesBytes(es[1..])
  }

  function IntsBytes(v: seq<i32>): seq<u8> {
    if v == [] then [] else IntBytes(v[0]) + IntsBytes(v[1..])
  }

  function LongsBytes(v: seq<i64>): seq<u8> {
    if v == [] then [] else LongBytes(v[0]) + LongsBytes(v[1..])
  }

  /** Nameless root; no root is a lone TAG_END. */
  function NetworkBytes(root: Option<Tag>): seq<u8> {
    match root
    case None => [TAG_END]
    case Some(t) => [TypeId(t)] + PayloadBytes(t)
  }

  function DiskBytes(name: Text, root: Option<Tag>): seq<u8> {
    match root
    case None => [TAG_END]
    case Some(t) => [TypeId(t)] + (StringBytes(name) + PayloadBytes(t))
  }

  // ---- Reading ----

  function ParseString(s: seq<u8>): Parsed<Text> {
    var (n, r) :- ParseUShort(s);
    var (b, r2) :- ParseRaw(r, n);
    match DecodeMutf8(b)
    case None => Err(BadModifiedUtf8)
    case Some(text) => Ok(text, r2)
  }

  function ParseCount(s: seq<u8>): Parsed<nat> {
    var (n, r) :- ParseInt(s);
    if n < 0 then Err(NbtNegativeLength) else Ok(n, r)
  }

  function ParseScalar(s: seq<u8>, typ: u8): Parsed<Tag> {
    match typ
    case 1 => var (v, r) :- ParseByte(s); Ok(TByte(v), r)
    case 2 => var (v, r) :- ParseShort(s); Ok(TShort(v), r)
    case 3 => var (v, r) :- ParseInt(s); Ok(TInt(v), r)
    case 4 => var (v, r) :- ParseLong(s); Ok(TLong(v), r)
    case 5 => var (v, r) :- ParseFloat(s); Ok(TFloat(v), r)
    case 6 => var (v, r) :- ParseDouble(s); Ok(TDouble(v), r)
    case 8 => var (v, r) :- ParseString(s); Ok(TString(v), r)
    case _ => Err(NbtUnknownTag(typ))
  }

  function ParsePayload(s: seq<u8>, typ: u8, depth: nat): (p: Parsed<Tag>)
    ensures p.Ok? ==> |p.rest| < |s|
    decreases |s|, 1
  {
    if depth > MAX_DEPTH then Err(NbtTooDeep)
    else if typ == 7 then
      var (n, r) :- ParseCount(s);
      var (b, r2) :- ParseRaw(r, n);
      Ok(TByteArray(b), r2)
    else if typ == 9 then
      var (et, r) :- ParseUByte(s);
      var (n, r2) :- ParseCount(r);
      ParseElems(r2, et, n, depth + 1, [])
    else if typ == 10 then ParseEntries(s, depth + 1, [])
    else if typ == 11 then
      var (n, r) :- ParseCount(s);
      ParseInts(r, n, [])
    else if typ == 12 then
      var (n, r) :- ParseCount(s);
      ParseLongs(r, n, [])
    else ParseScalar(s, typ)
  }

  function ParseElems(s: seq<u8>, et: u8, n: nat, depth: nat, acc: seq<Tag>): (p: Parsed<Tag>)
    ensures p.Ok? ==> |p.rest| <= |s|
    decreases |s|, 2
  {
    if n == 0 then Ok(TList(et, acc), s)
    else
      var (e, r) :- ParsePayload(s, et, depth);
      ParseElems(r, et, n - 1, depth, acc + [e])
  }

  function ParseEntries(s: seq<u8>, depth: nat, acc: seq<Entry>): (p: Parsed<Tag>)
    ensures p.Ok? ==> |p.rest| < |s|
    decreases |s|, 0
  {
    var (ct, r) :- ParseUByte(s);
    if ct == TAG_END then Ok(TCompound(acc), r)
    else
      var (name, r2) :- ParseString(r);
      var (v, r3) :- ParsePayload(r2, ct, depth);
      ParseEntries(r3, depth, SetEntry(acc, name, v))
  }

  function ParseInts(s: seq<u8>, n: nat, acc: seq<i32>): (p: Parsed<Tag>)
    ensures p.Ok? ==> |p.rest| <= |s|
    decreases n
  {
    if n == 0 then Ok(TIntArray(acc), s)
    else
      var (v, r) :- ParseInt(s);
      ParseInts(r, n - 1, acc + [v])
  }

  function ParseLongs(s: seq<u8>, n: nat, acc: seq<i64>): (p: Parsed<Tag>)
    ensures p.Ok? ==> |p.rest| <= |s|
    decreases n
  {
    if n == 0 then Ok(TLongArray(acc), s)
    else
      var (v, r) :- ParseLong(s);
      ParseLongs(r, n - 1, acc + [v])
  }

  function ParseNetwork(s: seq<u8>): Parsed<Option<Tag>> {
    var (typ, r) :- ParseUByte(s);
    if typ == TAG_END then Ok(None, r)
    else
      var (t, r2) :- ParsePayload(r, typ, 0); Ok(Some(t), r2)
  }

  function ParseDisk(s: seq<u8>): Parsed<(Text, Option<Tag>)> {
    var (typ, r) :- ParseUByte(s);
    if typ == TAG_END then Ok(([], None), r)
    else
      var (name, r2) :- ParseString(r);
      var (t, r3) :- ParsePayload(r2, typ, 0);
      Ok((name, Some(t)), r3)
  }

  // ---- Which trees survive ----

  predicate FitsString(s: Text) { |EncodeMutf8(s)| <= 65535 }

  /** Homogeneous lists, distinct keys, sizes within an int32. */
  predicate Shaped(t: Tag)
    decreases t, 1
  {
    match t
    case TByteArray(v) => |v| <= MAX_I32
    case TList(et, es) => |es| <= MAX_I32 && ShapedElems(es, et)
    case TCompound(es) => DistinctNames(es) && ShapedEntries(es)
    case TIntArray(v) => |v| <= MAX_I32
    case TLongArray(v) => |v| <= MAX_I32
    case _ => true
  }

  predicate ShapedElems(es: seq<Tag>, et: u8)
    decreases es, 0
  {
    es == [] || (TypeId(es[0]) == et && Shaped(es[0]) && ShapedElems(es[1..], et))
  }

  predicate ShapedEntries(es: seq<Entry>)
    decreases es, 0
  {
    es == [] || (Shaped(es[0].tag) && ShapedEntries(es[1..]))
  }

  /** Every string and every name takes at most 65535 encoded bytes. */
  predicate StringsFit(t: Tag)
    decreases t, 1
  {
    match t
    case TString(s) => FitsString(s)
    case TList(_, es) => StringsFitElems(es)
    case TCompound(es) => StringsFitEntries(es)
    case _ => true
  }

  predicate StringsFitElems(es: seq<Tag>)
    decreases es, 0
  {
    es == [] || (StringsFit(es[0]) && StringsFitElems(es[1..]))
  }

  predicate StringsFitEntries(es: seq<Entry>)
    decreases es, 0
  {
    es == [] || (FitsString(es[0].name) && StringsFit(es[0].tag) && StringsFitEntries(es[1..]))
  }

  function Max(a: nat, b: nat): nat { if a < b then b else a }

  /** How many containers enclose the innermost element. */
  function Nesting(t: Tag): nat
    decreases t, 1
  {
    match t
    case TList(_, es) => NestingElems(es)
    case TCompound(es) => NestingEntries(es)
    case _ => 0
  }

  function NestingElems(es: seq<Tag>): nat
    decreases es, 0
  {
    if es == [] then 0 else Max(1 + Nesting(es[0]), NestingElems(es[1..]))
  }

  function NestingEntries(es: seq<Entry>): nat
    decreases es, 0
  {
    if es == [] then 0 else Max(1 + Nesting(es[0].tag), NestingEntries(es[1..]))
  }

  function Nodes(t: Tag): nat
    decreases t, 1
  {
    match t
    case TList(_, es) => 1 + NodesElems(es)
    case TCompound(es) => 1 + NodesEntries(es)
    case _ => 1
  }

  function NodesElems(es: seq<Tag>): nat
    decreases es, 0
  {
    if es == [] then 0 else Nodes(es[0]) + NodesElems(es[1..])
  }

  function NodesEntries(es: seq<Entry>): nat
    decreases es, 0
  {
    if es == [] then 0 else Nodes(es[0].tag) + NodesEntries(es[1..])
  }

  /** The same tree with every empty list given element type TAG_END. */
  function Norm(t: Tag): (n: Tag)
    ensures TypeId(n) == TypeId(t)
    decreases t, 1
  {
    match t
    case TList(et, es) => TList(if es == [] then TAG_END else et, NormElems(es))
    case TCompound(es) => TCompound(NormEntries(es))
    case _ => t
  }

  function NormElems(es: seq<Tag>): (ns: seq<Tag>)
    ensures |ns| == |es|
    decreases es, 0
  {
    if es == [] then [] else [Norm(es[0])] + NormElems(es[1..])
  }

  function NormEntries(es: seq<Entry>): (ns: seq<Entry>)
    ensures |ns| == |es|
    decreases es, 0
  {
    if es == [] then [] else [Entry(es[0].name, Norm(es[0].tag))] + NormEntries(es[1..])
  }
}
