/** Paletted containers on the wire: the encoder and the client's decoder. */
module Container {
  import opened Bytes
  import opened Codec
  import opened Palette

  function WordsBytes(ws: seq<nat>): seq<u8> {
    if ws == [] then [] else BigEndian(ws[0], LONG_SIZE) + WordsBytes(ws[1..])
  }

  function ParseWords(s: seq<u8>, k: nat, acc: seq<nat>): Parsed<seq<nat>>
    decreases k
  {
    if k == 0 then Ok(acc, s)
    else
      var (w, r) :- ParseUnsigned(s, LONG_SIZE);
      ParseWords(r, k - 1, acc + [w])
  }

  function PaletteBytes(p: seq<u32>): seq<u8> {
    if p == [] then [] else VarIntBytes(AsI32(p[0])) + PaletteBytes(p[1..])
  }

  function ParsePalette(s: seq<u8>, n: nat, acc: seq<u32>): Parsed<seq<u32>>
    decreases n
  {
    if n == 0 then Ok(acc, s)
    else
      var (v, r) :- ParseVarInt(s);
      ParsePalette(r, n - 1, acc + [AsU32(v)])
  }

  // ---- The encoder's bytes ----

  function Indices(values: seq<u32>, p: seq<u32>): (r: seq<nat>)
    requires forall v :: v in values ==> v in p
    ensures |r| == |values| && forall i :: 0 <= i < |r| ==> r[i] < |p| && p[r[i]] == values[i]
  {
    seq(|values|, i requires 0 <= i < |values| => IndexOf(p, values[i]))
  }

  function AsNats(values: seq<u32>): (r: seq<nat>)
    ensures |r| == |values| && forall i :: 0 <= i < |r| ==> r[i] == values[i]
  {
    seq(|values|, i requires 0 <= i < |values| => values[i])
  }

  /** Too many distinct values for the widest palette: global ids are stored. */
  predicate IsDirect(values: seq<u32>, kind: Kind) {
    |Distinct(values)| != 1 && BitsFor(|Distinct(values)|) > kind.maxBits
  }

  function PackBytes(vs: seq<nat>, bits: nat): seq<u8>
    requires 1 <= bits <= 64
  {
    WordsBytes(Pack(vs, bits, PerWord(bits)))
  }

  function IndirectBits(values: seq<u32>, kind: Kind): nat {
    var b := BitsFor(|Distinct(values)|);
    if b < kind.minBits then kind.minBits else b
  }

  function ContainerBytes(values: seq<u32>, kind: Kind): seq<u8>
    requires ValidKind(kind)
  {
    var p := Distinct(values);
    DistinctFacts(values);
    if |p| == 1 then [0] + VarIntBytes(AsI32(p[0]))
    else if !IsDirect(values, kind) then
      var bits := IndirectBits(values, kind);
      [AsU8(bits)] + (VarIntBytes(AsI32(|p|)) + (PaletteBytes(p) + PackBytes(Indices(values, p), bits)))
    else [AsU8(kind.directBits)] + PackBytes(AsNats(values), kind.directBits)
  }

  // ---- The client's decoder ----

  function Unpack(words: seq<nat>, bits: nat, count: nat): (r: seq<nat>)
    requires 1 <= bits <= 64 && |words| == WordCount(count, PerWord(bits))
    ensures |r| == count
  {
    seq(count, i requires 0 <= i < count => EntryAt(words, bits, count, i))
  }

  function EntryAt(words: seq<nat>, bits: nat, count: nat, i: nat): nat
    requires 1 <= bits <= 64 && |words| == WordCount(count, PerWord(bits)) && i < count
  {
    WordIndexInRange(count, PerWord(bits), i);
    BitsAt(words, bits, PerWord(bits), i)
  }

  lemma WordIndexInRange(count: nat, per: nat, i: nat)
    requires per > 0 && i < count
    ensures i / per < WordCount(count, per)
    decreases count
  {
    WordCountStep(count, per);
    ShiftDivMod(i, per);
    if i >= per {
      WordIndexInRange(count - per, per, i - per);
    }
  }

  function ParsePacked(s: seq<u8>, bits: nat, count: nat): Parsed<seq<nat>>
    requires 1 <= bits <= 64
  {
    var (words, r) :- ParseWords(s, WordCount(count, PerWord(bits)), []);
    if |words| != WordCount(count, PerWord(bits)) then Err(Malformed)
    else Ok(Unpack(words, bits, count), r)
  }

  /** Bits per entry 0 is a single value; up to the kind's greatest indirect width
    * a palette follows; above it the entries are global ids. */
  function ParseContainer(s: seq<u8>, count: nat, kind: Kind): Parsed<seq<u32>> {
    var (bits, r) :- ParseUByte(s);
    if bits == 0 then
      var (v, r2) :- ParseVarInt(r); Ok(seq(count, _ => AsU32(v)), r2)
    else if bits > 64 then Err(Malformed)
    else if bits <= kind.maxBits then ParseIndirect(r, bits, count)
    else
      var (es, r2) :- ParsePacked(r, bits, count); Ok(AsIds(es), r2)
  }

  function AsIds(es: seq<nat>): (r: seq<u32>)
    ensures |r| == |es|
  {
    seq(|es|, i requires 0 <= i < |es| => AsU32(es[i]))
  }

  function ParseIndirect(s: seq<u8>, bits: nat, count: nat): Parsed<seq<u32>>
    requires 1 <= bits <= 64
  {
    var (n, r) :- ParseVarInt(s);
    if n < 0 then Err(NegativeLength)
    else
      var (p, r2) :- ParsePalette(r, n, []);
      var (es, r3) :- ParsePacked(r2, bits, count);
      if exists i :: 0 <= i < |es| && es[i] >= |p| then Err(Malformed)
      else Ok(LookUp(p, es), r3)
  }

  function LookUp(p: seq<u32>, es: seq<nat>): seq<u32>
    requires forall i :: 0 <= i < |es| ==> es[i] < |p|
  {
    seq(|es|, i requires 0 <= i < |es| => p[es[i]])
  }

  // ---- Round trip ----

  lemma WordRead(w: nat, rest: seq<u8>)
    requires w < TWO64
    ensures ParseUnsigned(BigEndian(w, LONG_SIZE) + rest, LONG_SIZE) == Ok(w, rest)
  {
    Pow64();
    UnsignedRoundTrip(w, LONG_SIZE, rest);
  }

  lemma {:induction false} WordsRead(ws: seq<nat>, acc: seq<nat>, rest: seq<u8>)
    requires forall i :: 0 <= i < |ws| ==> ws[i] < TWO64
    ensures ParseWords(WordsBytes(ws) + rest, |ws|, acc) == Ok(acc + ws, rest)
    decreases ws
  {
    hide ParseUnsigned, BigEndian;
    if ws == [] {
      assert [] + rest == rest && acc + ws == acc;
    } else {
      var tail := WordsBytes(ws[1..]) + rest;
      assert WordsBytes(ws) + rest == BigEndian(ws[0], LONG_SIZE) + tail;
      WordRead(ws[0], tail);
      WordsRead(ws[1..], acc + [ws[0]], rest);
      assert acc + [ws[0]] + ws[1..] == acc + ws;
    }
  }

  lemma {:induction false} PaletteRead(p: seq<u32>, acc: seq<u32>, rest: seq<u8>)
    ensures ParsePalette(PaletteBytes(p) + rest, |p|, acc) == Ok(acc + p, rest)
    decreases p
  {
    if p == [] {
      assert [] + rest == rest && acc + p == acc;
    } else {
      var tail := PaletteBytes(p[1..]) + rest;
      assert PaletteBytes(p) + rest == VarIntBytes(AsI32(p[0])) + tail;
      VarIntRoundTrip(AsI32(p[0]), tail);
      hide ParseVarInt, VarIntBytes;
      PaletteRead(p[1..], acc + [p[0]], rest);
      assert acc + [p[0]] + p[1..] == acc + p;
    }
  }

  function LowBits(v: nat, bits: nat): nat { v % Pow2(bits) }

  function Masked(vs: seq<nat>, bits: nat): (r: seq<nat>)
    ensures |r| == |vs|
  {
    seq(|vs|, i requires 0 <= i < |vs| => LowBits(vs[i], bits))
  }

  lemma MaskedSame(vs: seq<nat>, bits: nat)
    requires forall i :: 0 <= i < |vs| ==> vs[i] < Pow2(bits)
    ensures Masked(vs, bits) == vs
  {
    hide Pow2;
    forall i | 0 <= i < |vs| ensures LowBits(vs[i], bits) == vs[i] {
      SmallMod(vs[i], Pow2(bits));
    }
  }

  lemma SmallMod(v: nat, m: nat)
    requires v < m
    ensures v % m == v
  {
    DivModUnique(m, 0, v);
  }

  /** Packed entries come back cut to their width. */
  lemma PackedRead(vs: seq<nat>, bits: nat, rest: seq<u8>)
    requires 1 <= bits <= 64
    ensures ParsePacked(PackBytes(vs, bits) + rest, bits, |vs|) == Ok(Masked(vs, bits), rest)
  {
    var per := PerWord(bits);
    var ws := Pack(vs, bits, per);
    hide Pow2, Pack, PerWord, WordCount, BitsAt, WordsBytes, ParseWords;
    PackLength(vs, bits, per);
    forall i | 0 <= i < |ws| ensures ws[i] < TWO64 {
      PackIs64Bit(vs, bits, per, i);
    }
    WordsRead(ws, [], rest);
    assert [] + ws == ws;
    forall i | 0 <= i < |vs| ensures EntryAt(ws, bits, |vs|, i) == vs[i] % Pow2(bits) {
      PackEntry(vs, bits, per, i);
    }
    assert Unpack(ws, bits, |vs|) == Masked(vs, bits);
  }

  lemma SingleRead(values: seq<u32>, kind: Kind, rest: seq<u8>)
    requires ValidKind(kind) && |Distinct(values)| == 1
    ensures ParseContainer(ContainerBytes(values, kind) + rest, |values|, kind) == Ok(values, rest)
  {
    var p := Distinct(values);
    var s := ContainerBytes(values, kind) + rest;
    DistinctFacts(values);
    hide VarIntBytes, ParseVarInt, Distinct;
    VarIntRoundTrip(AsI32(p[0]), rest);
    assert s[1..] == VarIntBytes(AsI32(p[0])) + rest;
    assert forall i :: 0 <= i < |values| ==> values[i] in p;
    assert seq(|values|, _ => AsU32(AsI32(p[0]))) == values;
  }

  lemma IndirectWidth(values: seq<u32>, kind: Kind)
    requires ValidKind(kind) && !IsDirect(values, kind) && |Distinct(values)| != 1
    ensures 1 <= IndirectBits(values, kind) <= kind.maxBits
    ensures |Distinct(values)| <= Pow2(IndirectBits(values, kind)) && |Distinct(values)| <= MAX_I32
  {
    var n := |Distinct(values)|;
    var bits := IndirectBits(values, kind);
    Pow2Monotonic(BitsFor(n), bits);
    Pow2Monotonic(bits, 16);
    Pow16();
  }

  lemma IndirectBody(p: seq<u32>, ix: seq<nat>, bits: nat, rest: seq<u8>)
    requires 1 <= bits <= 64 && |p| <= Pow2(bits) && |p| <= MAX_I32
    requires forall i :: 0 <= i < |ix| ==> ix[i] < |p|
    ensures ParseIndirect(VarIntBytes(|p|) + (PaletteBytes(p) + (PackBytes(ix, bits) + rest)), bits, |ix|)
            == Ok(LookUp(p, ix), rest)
  {
    hide VarIntBytes, ParseVarInt, PackBytes, ParsePacked, Pow2, ParsePalette, PaletteBytes;
    var tail := PackBytes(ix, bits) + rest;
    VarIntRoundTrip(|p|, PaletteBytes(p) + tail);
    PaletteRead(p, [], tail);
    assert [] + p == p;
    PackedRead(ix, bits, rest);
    MaskedSame(ix, bits);
  }

  lemma LookUpIndices(values: seq<u32>, p: seq<u32>)
    requires forall v :: v in values ==> v in p
    ensures LookUp(p, Indices(values, p)) == values
  {
  }

  function IndirectBytes(p: seq<u32>, ix: seq<nat>, bits: nat): seq<u8>
    requires 1 <= bits <= 64
  {
    VarIntBytes(AsI32(|p|)) + (PaletteBytes(p) + PackBytes(ix, bits))
  }

  lemma IndirectHead(values: seq<u32>, kind: Kind)
    requires ValidKind(kind) && !IsDirect(values, kind) && |Distinct(values)| != 1
    ensures var p, bits := Distinct(values), IndirectBits(values, kind);
            && 1 <= bits <= kind.maxBits && |p| <= Pow2(bits) && |p| <= MAX_I32
            && (forall v :: v in values ==> v in p)
            && ContainerBytes(values, kind) == [bits] + IndirectBytes(p, Indices(values, p), bits)
  {
    hide VarIntBytes, PackBytes, PaletteBytes, BitsFor, Distinct, Indices;
    DistinctFacts(values);
    IndirectWidth(values, kind);
  }

  lemma IndirectRead(values: seq<u32>, kind: Kind, rest: seq<u8>)
    requires ValidKind(kind) && !IsDirect(values, kind) && |Distinct(values)| != 1
    ensures ParseContainer(ContainerBytes(values, kind) + rest, |values|, kind) == Ok(values, rest)
  {
    hide ContainerBytes, VarIntBytes, Distinct, PackBytes, IndirectBits, Pow2, PaletteBytes, ParseIndirect;
    hide LookUp, Indices, BitsFor, ParsePacked, ParseVarInt;
    var p := Distinct(values);
    var bits := IndirectBits(values, kind);
    IndirectHead(values, kind);
    LookUpIndices(values, p);
    var ix := Indices(values, p);
    IndirectBody(p, ix, bits, rest);
    assert IndirectBytes(p, ix, bits) + rest == VarIntBytes(|p|) + (PaletteBytes(p) + (PackBytes(ix, bits) + rest));
    HeadByte(bits, IndirectBytes(p, ix, bits), rest);
  }

  lemma HeadByte(b: u8, body: seq<u8>, rest: seq<u8>)
    ensures ParseUByte([b] + body + rest) == Ok(b, body + rest)
  {
    assert ([b] + body + rest)[1..] == body + rest;
  }

  /** What the client sees: the cells themselves, except that global ids are cut
    * to the direct width. */
  function Kept(values: seq<u32>, kind: Kind): (r: seq<u32>)
    requires ValidKind(kind)
    ensures |r| == |values|
  {
    if IsDirect(values, kind) then AsIds(Masked(AsNats(values), kind.directBits)) else values
  }

  lemma DirectRead(values: seq<u32>, kind: Kind, rest: seq<u8>)
    requires ValidKind(kind) && IsDirect(values, kind)
    ensures ParseContainer(ContainerBytes(values, kind) + rest, |values|, kind) == Ok(Kept(values, kind), rest)
  {
    var bits := kind.directBits;
    var vs := AsNats(values);
    var s := ContainerBytes(values, kind) + rest;
    assert s[1..] == PackBytes(vs, bits) + rest;
    hide PackBytes, ParsePacked, Distinct, BitsFor;
    PackedRead(vs, bits, rest);
  }

  lemma ContainerRead(values: seq<u32>, kind: Kind, rest: seq<u8>)
    requires ValidKind(kind)
    ensures ParseContainer(ContainerBytes(values, kind) + rest, |values|, kind) == Ok(Kept(values, kind), rest)
  {
    hide ParseContainer, ContainerBytes, AsIds;
    if IsDirect(values, kind) {
      DirectRead(values, kind, rest);
    } else if |Distinct(values)| == 1 {
      SingleRead(values, kind, rest);
    } else {
      IndirectRead(values, kind, rest);
    }
  }

  /** Decoding returns the original cells in the single-valued and indirect
    * regimes, and in the direct one exactly when every id fits the direct width. */
  lemma ContainerRoundTripIff(values: seq<u32>, kind: Kind, rest: seq<u8>)
    requires ValidKind(kind)
    ensures ParseContainer(ContainerBytes(values, kind) + rest, |values|, kind) == Ok(values, rest)
            <==> (IsDirect(values, kind) ==> forall v :: v in values ==> v < Pow2(kind.directBits))
  {
    ContainerRead(values, kind, rest);
    hide ParseContainer, ContainerBytes, Pow2;
    var m := Pow2(kind.directBits);
    if IsDirect(values, kind) {
      if forall v :: v in values ==> v < m {
        forall i | 0 <= i < |values| ensures Kept(values, kind)[i] == values[i] {
          assert values[i] in values;
          SmallMod(values[i], m);
        }
        assert Kept(values, kind) == values;
      } else {
        var v :| v in values && v >= m;
        var i :| 0 <= i < |values| && values[i] == v;
        assert v % m < m;
        assert Kept(values, kind)[i] == AsU32(v % m) != values[i];
      }
    }
  }

  // ---- The width byte ----

  /** How many bits so many values take, up to the sizes that matter. */
  lemma BitsTable(n: nat)
    ensures n <= 2 ==> BitsFor(n) <= 1
    ensures 2 < n <= 4 ==> BitsFor(n) == 2
    ensures 4 < n <= 8 ==> BitsFor(n) == 3
    ensures 8 < n <= 16 ==> BitsFor(n) == 4
    ensures 16 < n <= 32 ==> BitsFor(n) == 5
    ensures 32 < n <= 64 ==> BitsFor(n) == 6
    ensures 64 < n <= 128 ==> BitsFor(n) == 7
    ensures 128 < n <= 256 ==> BitsFor(n) == 8
    ensures n > 256 ==> BitsFor(n) > 8
  {
    SmallPowers();
    hide BitsFor, Pow2;
    var b := BitsFor(n);
    if b > 8 {
      Pow2Monotonic(8, b - 1);
    }
  }

  lemma SmallPowers()
    ensures Pow2(0) == 1 && Pow2(1) == 2 && Pow2(2) == 4 && Pow2(3) == 8 && Pow2(4) == 16
    ensures Pow2(5) == 32 && Pow2(6) == 64 && Pow2(7) == 128 && Pow2(8) == 256
  {
  }

  /** A block container starts with 0 for one value, a width from 4 to 8 for up to
    * 256 values, and 15 for more. */
  lemma BlockWidth(values: seq<u32>)
    ensures var n := |ValueSet(values)|;
            && ValidKind(BLOCK_PALETTE)
            && ContainerBytes(values, BLOCK_PALETTE) != []
            && ContainerBytes(values, BLOCK_PALETTE)[0]
               == if n == 1 then 0 else if n <= 16 then 4 else if n <= 32 then 5 else if n <= 64 then 6
                  else if n <= 128 then 7 else if n <= 256 then 8 else 15
  {
    hide BitsFor, Distinct, PackBytes, PaletteBytes, VarIntBytes, Indices;
    DistinctCount(values);
    BitsTable(|Distinct(values)|);
  }

  /** With more than 256 values there is no palette: the ids themselves follow, 15 bits each. */
  lemma DirectForm(values: seq<u32>)
    requires |ValueSet(values)| > 256
    ensures ValidKind(BLOCK_PALETTE)
    ensures ContainerBytes(values, BLOCK_PALETTE) == [15] + WordsBytes(Pack(AsNats(values), 15, PerWord(15)))
  {
    hide BitsFor, Distinct, WordsBytes, Pack, PerWord;
    DistinctCount(values);
    BitsTable(|Distinct(values)|);
  }

  /** A biome container starts with 0, 1, 2 or 3 for up to 8 values, and 7 for more. */
  lemma BiomeWidth(values: seq<u32>)
    ensures var n := |ValueSet(values)|;
            && ValidKind(BIOME_PALETTE)
            && ContainerBytes(values, BIOME_PALETTE) != []
            && ContainerBytes(values, BIOME_PALETTE)[0]
               == if n == 1 then 0 else if n <= 2 then 1 else if n <= 4 then 2 else if n <= 8 then 3 else 7
  {
    hide BitsFor, Distinct, PackBytes, PaletteBytes, VarIntBytes, Indices;
    DistinctCount(values);
    BitsTable(|Distinct(values)|);
  }

  // ---- The imperative encoder ----

  method ComputeBitsFor(n: nat) returns (bits: nat)
    ensures bits == BitsFor(n)
  {
    bits := 0;
    while Pow2(bits) < n
      invariant BitsFrom(n, 0) == BitsFrom(n, bits)
      decreases n - Pow2(bits)
    {
      bits := bits + 1;
    }
  }

  function Mapped(f: u32 -> nat, values: seq<u32>): (r: seq<nat>)
    ensures |r| == |values| && forall i :: 0 <= i < |r| ==> r[i] == f(values[i])
  {
    seq(|values|, i requires 0 <= i < |values| => f(values[i]))
  }

  /** The first `k` of the remaining entries make one word. */
  lemma PackFlush(vs: seq<nat>, bits: nat, per: nat, k: nat)
    requires 0 < k <= per && k <= |vs| && (k == per || k == |vs|)
    ensures WordsBytes(Pack(vs, bits, per))
            == BigEndian(Word(vs[..k], bits), LONG_SIZE) + WordsBytes(Pack(vs[k..], bits, per))
  {
    hide Word, BigEndian;
    assert vs[..|vs|] == vs;
    var ws := Pack(vs, bits, per);
    assert ws[0] == Word(vs[..k], bits);
    assert ws[1..] == Pack(vs[k..], bits, per);
  }

  lemma WordSnoc(vs: seq<nat>, from: nat, to: nat, bits: nat)
    requires from <= to < |vs|
    ensures Word(vs[from..to + 1], bits)
            == Word(vs[from..to], bits) + vs[to] % Pow2(bits) * Pow2((to - from) * bits)
  {
    hide Pow2;
    var s := vs[from..to + 1];
    assert s[..|s| - 1] == vs[from..to] && s[|s| - 1] == vs[to];
  }

  /** `cur |= (map2idx(v) & mask) << (n * bits)`, one word per `64 / bits` entries. */
  method WriteLongs(w: Writer, values: seq<u32>, bits: nat, map2idx: u32 -> nat)
    requires 1 <= bits <= 64
    modifies w
    ensures w.buf == old(w.buf) + PackBytes(Mapped(map2idx, values), bits)
  {
    var per := PerWord(bits);
    WritePacked(w, values, bits, per, map2idx);
  }

  method WritePacked(w: Writer, values: seq<u32>, bits: nat, per: nat, map2idx: u32 -> nat)
    requires per > 0
    modifies w
    ensures w.buf == old(w.buf) + WordsBytes(Pack(Mapped(map2idx, values), bits, per))
  {
    hide Pow2, Word, Pack, WordsBytes, BigEndian, Mapped;
    ghost var vs := Mapped(map2idx, values);
    assert vs[0..] == vs;
    EmptyWord(vs[0..0], bits);
    var cur: nat, n: nat := 0, 0;
    for i := 0 to |values|
      invariant n < per && n <= i && cur == Word(vs[i - n..i], bits)
      invariant w.buf + WordsBytes(Pack(vs[i - n..], bits, per)) == old(w.buf) + WordsBytes(Pack(vs, bits, per))
    {
      WordSnoc(vs, i - n, i, bits);
      cur := cur + map2idx(values[i]) % Pow2(bits) * Pow2(n * bits);
      n := n + 1;
      if n == per {
        ghost var from := i + 1 - n;
        FlushStep(w.buf, vs, from, i + 1, bits, per);
        w.Fixed(cur, LONG_SIZE);
        cur, n := 0, 0;
        EmptyWord(vs[i + 1..i + 1], bits);
      }
    }
    ghost var from := |values| - n;
    if n > 0 {
      FlushStep(w.buf, vs, from, |vs|, bits, per);
      assert vs[from..|vs|] == vs[from..];
      w.Fixed(cur, LONG_SIZE);
    }
    EmptyPack(vs[|vs|..], bits, per);
  }

  lemma EmptyWord(vs: seq<nat>, bits: nat)
    ensures vs == [] ==> Word(vs, bits) == 0
  {
  }

  lemma EmptyPack(vs: seq<nat>, bits: nat, per: nat)
    requires per > 0
    ensures vs == [] ==> WordsBytes(Pack(vs, bits, per)) == []
  {
  }

  lemma FlushStep(buf: seq<u8>, vs: seq<nat>, from: nat, to: nat, bits: nat, per: nat)
    requires from < to <= |vs| && per > 0 && to - from <= per && (to - from == per || to == |vs|)
    ensures buf + WordsBytes(Pack(vs[from..], bits, per))
            == buf + BigEndian(Word(vs[from..to], bits), LONG_SIZE) + WordsBytes(Pack(vs[to..], bits, per))
  {
    hide Pow2, Word, Pack, WordsBytes, BigEndian;
    PackFlush(vs[from..], bits, per, to - from);
    assert vs[from..][..to - from] == vs[from..to];
    assert vs[from..][to - from..] == vs[to..];
  }

  method WritePalette(w: Writer, p: seq<u32>)
    modifies w
    ensures w.buf == old(w.buf) + PaletteBytes(p)
  {
    hide VarIntBytes;
    for i := 0 to |p|
      invariant w.buf + PaletteBytes(p[i..]) == old(w.buf) + PaletteBytes(p)
    {
      assert p[i..][1..] == p[i + 1..];
      ghost var before := w.buf;
      w.VarInt(AsI32(p[i]));
      assert before + (VarIntBytes(AsI32(p[i])) + PaletteBytes(p[i + 1..])) == w.buf + PaletteBytes(p[i + 1..]);
    }
  }

  /** The palette in first-seen order, and the map that inverts it. */
  method BuildPalette(values: seq<u32>) returns (palette: seq<u32>, index: map<u32, nat>)
    ensures palette == Distinct(values)
    ensures forall v :: v in index <==> v in palette
    ensures forall k :: 0 <= k < |palette| ==> index[palette[k]] == k
  {
    palette, index := [], map[];
    for i := 0 to |values|
      invariant palette == Distinct(values[..i])
      invariant forall v :: v in index <==> v in palette
      invariant forall k :: 0 <= k < |palette| ==> index[palette[k]] == k
    {
      var v := values[i];
      assert values[..i + 1][..i] == values[..i];
      if v !in index {
        index := index[v := |palette|];
        palette := palette + [v];
      }
    }
    assert values[..|values|] == values;
  }

  method WritePalettedContainer(w: Writer, values: seq<u32>, kind: Kind)
    requires ValidKind(kind)
    modifies w
    ensures w.buf == old(w.buf) + ContainerBytes(values, kind)
  {
    hide PackBytes, VarIntBytes, PaletteBytes, Distinct, BitsFor, Pow2;
    var palette, index := BuildPalette(values);
    DistinctFacts(values);
    if |palette| == 1 {
      w.UByte(0);
      w.VarInt(AsI32(palette[0]));
      return;
    }
    var bits := ComputeBitsFor(|palette|);
    if bits <= kind.maxBits {
      if bits < kind.minBits {
        bits := kind.minBits;
      }
      w.UByte(AsU8(bits));
      w.VarInt(AsI32(|palette|));
      WritePalette(w, palette);
      var f: u32 -> nat := v => if v in index then index[v] else 0;
      IndexedValues(values, palette, index, f);
      WriteLongs(w, values, bits, f);
      return;
    }
    w.UByte(AsU8(kind.directBits));
    var id: u32 -> nat := v => v;
    assert Mapped(id, values) == AsNats(values);
    WriteLongs(w, values, kind.directBits, id);
  }

  lemma IndexedValues(values: seq<u32>, palette: seq<u32>, index: map<u32, nat>, f: u32 -> nat)
    requires forall v :: v in values ==> v in palette
    requires forall v :: v in index <==> v in palette
    requires forall k :: 0 <= k < |palette| ==> index[palette[k]] == k
    requires forall v: u32 :: f(v) == if v in index then index[v] else 0
    ensures Mapped(f, values) == Indices(values, palette)
  {
    forall i | 0 <= i < |values| ensures f(values[i]) == IndexOf(palette, values[i]) {
      assert values[i] in palette;
      var k := IndexOf(palette, values[i]);
      assert index[palette[k]] == k;
    }
  }
}
