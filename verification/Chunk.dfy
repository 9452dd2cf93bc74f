/** Chunk columns: sparse overrides over flat terrain, as the Chunk Data body,
  * and the client's reading of that body. */
module Chunk {
  import opened Bytes
  import opened Codec
  import opened Palette
  import opened Container

  const SECTION_COUNT: nat := 24
  const SECTION_BLOCKS: nat := 4096
  const SECTION_BIOMES: nat := 64
  const COLUMN_CELLS: nat := 256
  const COLUMN_BLOCKS: nat := 98304
  const SURFACE_HEIGHT: u32 := 4
  const HEIGHTMAP_BITS: nat := 9

  const AIR: u32 := 0
  const GRASS_BLOCK: u32 := 9
  const DIRT: u32 := 10
  const BEDROCK: u32 := 85
  const PLAINS_BIOME: u32 := 40

  type Overrides = map<nat, u32>

  /** The terrain before any change, by column-local index. */
  function FlatBlock(idx: nat): u32 {
    var layer := idx / COLUMN_CELLS;
    if layer == 0 then BEDROCK
    else if layer <= 2 then DIRT
    else if layer == 3 then GRASS_BLOCK
    else AIR
  }

  function Cell(ov: Overrides, idx: nat): u32 {
    if idx in ov then ov[idx] else FlatBlock(idx)
  }

  function SectionCells(ov: Overrides, s: nat): (cells: seq<u32>)
    ensures |cells| == SECTION_BLOCKS
  {
    seq<u32>(SECTION_BLOCKS, i requires 0 <= i < SECTION_BLOCKS => Cell(ov, s * SECTION_BLOCKS + i))
  }

  function Biomes(): (cells: seq<u32>)
    ensures |cells| == SECTION_BIOMES
  {
    seq(SECTION_BIOMES, i requires 0 <= i < SECTION_BIOMES => PLAINS_BIOME)
  }

  function NonAir(cells: seq<u32>): (n: nat)
    ensures n <= |cells|
  {
    if cells == [] then 0
    else NonAir(cells[..|cells| - 1]) + if cells[|cells| - 1] != AIR then 1 else 0
  }

  // ---- The encoder's bytes ----

  function SectionBytes(ov: Overrides, s: nat): seq<u8> {
    ShortBytes(AsI16(NonAir(SectionCells(ov, s))))
    + (ShortBytes(0)
       + (ContainerBytes(SectionCells(ov, s), BLOCK_PALETTE) + ContainerBytes(Biomes(), BIOME_PALETTE)))
  }

  /** Sections `from` and above. */
  function SectionsBytes(ov: Overrides, from: nat): seq<u8>
    requires from <= SECTION_COUNT
    decreases SECTION_COUNT - from
  {
    if from == SECTION_COUNT then [] else SectionBytes(ov, from) + SectionsBytes(ov, from + 1)
  }

  function SurfaceHeights(): (r: seq<u32>)
    ensures |r| == COLUMN_CELLS
  {
    seq(COLUMN_CELLS, i requires 0 <= i < COLUMN_CELLS => SURFACE_HEIGHT)
  }

  function HeightmapWords(): seq<nat> {
    Pack(AsNats(SurfaceHeights()), HEIGHTMAP_BITS, PerWord(HEIGHTMAP_BITS))
  }

  function HeightmapBytes(kind: i32): seq<u8> {
    VarIntBytes(kind) + (VarIntBytes(AsI32(|HeightmapWords()|)) + WordsBytes(HeightmapWords()))
  }

  function BitSetBytes(longs: seq<nat>): seq<u8> {
    VarIntBytes(AsI32(|longs|)) + WordsBytes(longs)
  }

  function FullBright(): (b: seq<u8>)
    ensures |b| == 2048
  {
    seq(2048, i requires 0 <= i < 2048 => 0xFF)
  }

  function ByteArrayBytes(b: seq<u8>): seq<u8> { VarIntBytes(AsI32(|b|)) + b }

  /** No block entities; sky-light masks and two full-bright arrays; no block light. */
  function TailBytes(): seq<u8> { VarIntBytes(0) + (MasksBytes() + LightBytes()) }

  function MasksBytes(): seq<u8> {
    BitSetBytes([6]) + (BitSetBytes([]) + (BitSetBytes([1]) + BitSetBytes([7])))
  }

  function LightBytes(): seq<u8> {
    VarIntBytes(2) + (ByteArrayBytes(FullBright()) + (ByteArrayBytes(FullBright()) + VarIntBytes(0)))
  }

  /** Three heightmaps: the surface, motion-blocking without and with leaves. */
  function FrontBytes(): seq<u8> {
    VarIntBytes(3) + (HeightmapBytes(1) + (HeightmapBytes(5) + HeightmapBytes(4)))
  }

  function PayloadBytes(ov: Overrides): seq<u8> {
    FrontBytes() + (ByteArrayBytes(SectionsBytes(ov, 0)) + TailBytes())
  }

  // ---- The client's decoder ----

  datatype Section = Section(nonAir: i16, blocks: seq<u32>, biomes: seq<u32>)

  function ParseSection(s: seq<u8>): Parsed<Section> {
    var (count, r) :- ParseShort(s);
    var (zero, r2) :- ParseShort(r);
    var (blocks, r3) :- ParseContainer(r2, SECTION_BLOCKS, BLOCK_PALETTE);
    var (biomes, r4) :- ParseContainer(r3, SECTION_BIOMES, BIOME_PALETTE);
    Ok(Section(count, blocks, biomes), r4)
  }

  function ParseSections(s: seq<u8>, n: nat, acc: seq<Section>): Parsed<seq<Section>>
    decreases n
  {
    if n == 0 then Ok(acc, s)
    else
      var (x, r) :- ParseSection(s);
      ParseSections(r, n - 1, acc + [x])
  }

  datatype Heightmap = Heightmap(kind: i32, words: seq<nat>)

  function ParseHeightmaps(s: seq<u8>, n: nat, acc: seq<Heightmap>): Parsed<seq<Heightmap>>
    decreases n
  {
    if n == 0 then Ok(acc, s)
    else
      var (kind, r) :- ParseVarInt(s);
      var (words, r2) :- ParseBitSet(r);
      ParseHeightmaps(r2, n - 1, acc + [Heightmap(kind, words)])
  }

  function ParseBitSet(s: seq<u8>): Parsed<seq<nat>> {
    var (n, r) :- ParseVarInt(s);
    if n < 0 then Err(NegativeLength) else ParseWords(r, n, [])
  }

  function ParseByteArray(s: seq<u8>): Parsed<seq<u8>> {
    var (n, r) :- ParseVarInt(s); ParseRaw(r, n)
  }

  function ParseByteArrays(s: seq<u8>, n: nat, acc: seq<seq<u8>>): Parsed<seq<seq<u8>>>
    decreases n
  {
    if n == 0 then Ok(acc, s)
    else
      var (b, r) :- ParseByteArray(s);
      ParseByteArrays(r, n - 1, acc + [b])
  }

  function ParseCounted(s: seq<u8>): Parsed<seq<seq<u8>>> {
    var (n, r) :- ParseVarInt(s);
    if n < 0 then Err(NegativeLength) else ParseByteArrays(r, n, [])
  }

  datatype Light = Light(skyMask: seq<nat>, blockMask: seq<nat>, emptySky: seq<nat>, emptyBlock: seq<nat>,
                         sky: seq<seq<u8>>, block: seq<seq<u8>>)

  function ParseLight(s: seq<u8>): Parsed<Light> {
    var (a, r) :- ParseBitSet(s);
    var (b, r2) :- ParseBitSet(r);
    var (c, r3) :- ParseBitSet(r2);
    var (d, r4) :- ParseBitSet(r3);
    var (sky, r5) :- ParseCounted(r4);
    var (block, r6) :- ParseCounted(r5);
    Ok(Light(a, b, c, d, sky, block), r6)
  }

  datatype Column = Column(heightmaps: seq<Heightmap>, sections: seq<Section>, light: Light)

  /** The length prefix must cover exactly the sections, and no block entities follow. */
  function ParseColumn(s: seq<u8>): Parsed<Column> {
    var (n, r) :- ParseVarInt(s);
    if n < 0 then Err(NegativeLength)
    else
      var (maps, r2) :- ParseHeightmaps(r, n, []);
      var (size, r3) :- ParseVarInt(r2);
      var (sections, r4) :- ParseSections(r3, SECTION_COUNT, []);
      if |r3| - |r4| != size then Err(Malformed)
      else
        var (entities, r5) :- ParseVarInt(r4);
        if entities != 0 then Err(Malformed)
        else
          var (light, r6) :- ParseLight(r5);
          Ok(Column(maps, sections, light), r6)
  }

  // ---- Round trip ----

  lemma KindsValid()
    ensures ValidKind(BLOCK_PALETTE) && ValidKind(BIOME_PALETTE)
  {
  }

  lemma {:induction false} OneValue(values: seq<u32>, v: u32)
    requires values != [] && forall i :: 0 <= i < |values| ==> values[i] == v
    ensures Distinct(values) == [v]
  {
    if |values| > 1 {
      OneValue(values[..|values| - 1], v);
    } else {
      assert Distinct(values[..0]) == [];
    }
  }

  lemma BiomesSingle()
    ensures Kept(Biomes(), BIOME_PALETTE) == Biomes()
  {
    OneValue(Biomes(), PLAINS_BIOME);
  }

  /** What the client gets for section `s`. */
  function SectionSeen(ov: Overrides, s: nat): Section {
    Section(NonAir(SectionCells(ov, s)), Kept(SectionCells(ov, s), BLOCK_PALETTE), Biomes())
  }

  lemma SectionRead(ov: Overrides, s: nat, rest: seq<u8>)
    ensures ParseSection(SectionBytes(ov, s) + rest) == Ok(SectionSeen(ov, s), rest)
  {
    hide ShortBytes, ParseShort, ContainerBytes, ParseContainer, Kept, SectionCells, Biomes, NonAir;
    var cells := SectionCells(ov, s);
    var r3 := ContainerBytes(Biomes(), BIOME_PALETTE) + rest;
    var r2 := ContainerBytes(cells, BLOCK_PALETTE) + r3;
    assert SectionBytes(ov, s) + rest == ShortBytes(AsI16(NonAir(cells))) + (ShortBytes(0) + r2);
    ShortRoundTrip(AsI16(NonAir(cells)), ShortBytes(0) + r2);
    ShortRoundTrip(0, r2);
    ContainerRead(cells, BLOCK_PALETTE, r3);
    ContainerRead(Biomes(), BIOME_PALETTE, rest);
    BiomesSingle();
  }

  function SectionsSeen(ov: Overrides, from: nat): (r: seq<Section>)
    requires from <= SECTION_COUNT
    ensures |r| == SECTION_COUNT - from
  {
    seq(SECTION_COUNT - from, i requires 0 <= i < SECTION_COUNT - from => SectionSeen(ov, from + i))
  }

  lemma SectionsSeenFrom(ov: Overrides, from: nat)
    requires from <= SECTION_COUNT
    ensures from == SECTION_COUNT ==> SectionsSeen(ov, from) == []
    ensures from < SECTION_COUNT ==>
              SectionsSeen(ov, from) == [SectionSeen(ov, from)] + SectionsSeen(ov, from + 1)
  {
    hide SectionSeen;
  }

  /** What the client makes of a whole column. */
  function ColumnSeen(ov: Overrides): Column {
    Column(Heightmaps(), SectionsSeen(ov, 0), LightSeen())
  }

  lemma {:induction false} SectionsRead(ov: Overrides, from: nat, acc: seq<Section>, rest: seq<u8>)
    requires from <= SECTION_COUNT
    ensures ParseSections(SectionsBytes(ov, from) + rest, SECTION_COUNT - from, acc)
            == Ok(acc + SectionsSeen(ov, from), rest)
    decreases SECTION_COUNT - from
  {
    hide SectionBytes, ParseSection, SectionSeen, SectionsSeen;
    SectionsSeenFrom(ov, from);
    if from == SECTION_COUNT {
      assert [] + rest == rest && acc + [] == acc;
    } else {
      var tail := SectionsBytes(ov, from + 1) + rest;
      assert SectionsBytes(ov, from) + rest == SectionBytes(ov, from) + tail;
      SectionRead(ov, from, tail);
      SectionsRead(ov, from + 1, acc + [SectionSeen(ov, from)], rest);
      assert acc + [SectionSeen(ov, from)] + SectionsSeen(ov, from + 1)
             == acc + ([SectionSeen(ov, from)] + SectionsSeen(ov, from + 1));
    }
  }

  // ---- Sizes ----

  lemma {:induction false} WordsLength(ws: seq<nat>)
    ensures |WordsBytes(ws)| == 8 * |ws|
  {
    if ws != [] {
      WordsLength(ws[1..]);
    }
  }

  lemma {:induction false} PaletteLength(p: seq<u32>)
    ensures |PaletteBytes(p)| <= 5 * |p|
  {
    hide VarIntBytes;
    if p != [] {
      VarIntRoundTrip(AsI32(p[0]), []);
      PaletteLength(p[1..]);
    }
  }

  lemma {:induction false} PackShort(vs: seq<nat>, bits: nat, per: nat)
    requires per > 0
    ensures |Pack(vs, bits, per)| <= |vs|
    decreases |vs|
  {
    hide Word;
    if |vs| > per {
      PackShort(vs[per..], bits, per);
    }
  }

  lemma PackBytesLength(vs: seq<nat>, bits: nat)
    requires 1 <= bits <= 64
    ensures |PackBytes(vs, bits)| <= 8 * |vs|
  {
    hide Pack, WordsBytes;
    PackShort(vs, bits, PerWord(bits));
    WordsLength(Pack(vs, bits, PerWord(bits)));
  }

  lemma ContainerLength(values: seq<u32>, kind: Kind)
    requires ValidKind(kind)
    ensures |ContainerBytes(values, kind)| <= 6 + 13 * |values|
  {
    hide VarIntBytes, PaletteBytes, PackBytes, Distinct, BitsFor, Pow2, IndirectBits, Indices;
    var p := Distinct(values);
    DistinctFacts(values);
    if |p| == 1 {
      VarIntRoundTrip(AsI32(p[0]), []);
    } else if !IsDirect(values, kind) {
      IndirectHead(values, kind);
      VarIntRoundTrip(AsI32(|p|), []);
      PaletteLength(p);
      PackBytesLength(Indices(values, p), IndirectBits(values, kind));
    } else {
      PackBytesLength(AsNats(values), kind.directBits);
    }
  }

  lemma SectionLength(ov: Overrides, s: nat)
    ensures |SectionBytes(ov, s)| <= 60000
  {
    hide ContainerBytes, SectionCells, Biomes;
    ContainerLength(SectionCells(ov, s), BLOCK_PALETTE);
    ContainerLength(Biomes(), BIOME_PALETTE);
  }

  lemma {:induction false} SectionsLength(ov: Overrides, from: nat)
    requires from <= SECTION_COUNT
    ensures |SectionsBytes(ov, from)| <= 60000 * (SECTION_COUNT - from)
    decreases SECTION_COUNT - from
  {
    hide SectionBytes;
    if from < SECTION_COUNT {
      SectionLength(ov, from);
      SectionsLength(ov, from + 1);
    }
  }

  // ---- Heightmaps and light ----

  lemma BitSetRead(longs: seq<nat>, rest: seq<u8>)
    requires |longs| <= MAX_I32 && forall i :: 0 <= i < |longs| ==> longs[i] < TWO64
    ensures ParseBitSet(BitSetBytes(longs) + rest) == Ok(longs, rest)
  {
    hide VarIntBytes, ParseVarInt, WordsBytes, ParseWords;
    assert BitSetBytes(longs) + rest == VarIntBytes(|longs|) + (WordsBytes(longs) + rest);
    VarIntRoundTrip(|longs|, WordsBytes(longs) + rest);
    WordsRead(longs, [], rest);
    assert [] + longs == longs;
  }

  lemma HeightmapWordsFit()
    ensures |HeightmapWords()| <= 256 && forall i :: 0 <= i < |HeightmapWords()| ==> HeightmapWords()[i] < TWO64
  {
    hide Pack, PerWord;
    var vs := AsNats(SurfaceHeights());
    var per := PerWord(HEIGHTMAP_BITS);
    PackShort(vs, HEIGHTMAP_BITS, per);
    forall i | 0 <= i < |HeightmapWords()| ensures HeightmapWords()[i] < TWO64 {
      PackIs64Bit(vs, HEIGHTMAP_BITS, per, i);
    }
  }

  lemma HeightmapRead(kind: i32, n: nat, acc: seq<Heightmap>, rest: seq<u8>)
    requires n > 0
    ensures ParseHeightmaps(HeightmapBytes(kind) + rest, n, acc)
            == ParseHeightmaps(rest, n - 1, acc + [Heightmap(kind, HeightmapWords())])
  {
    hide VarIntBytes, ParseVarInt, WordsBytes, ParseBitSet, HeightmapWords;
    HeightmapWordsFit();
    var ws := HeightmapWords();
    assert HeightmapBytes(kind) + rest == VarIntBytes(kind) + (BitSetBytes(ws) + rest);
    VarIntRoundTrip(kind, BitSetBytes(ws) + rest);
    BitSetRead(ws, rest);
  }

  function Heightmaps(): seq<Heightmap> {
    [Heightmap(1, HeightmapWords()), Heightmap(5, HeightmapWords()), Heightmap(4, HeightmapWords())]
  }

  lemma HeightmapsRead(rest: seq<u8>)
    ensures ParseHeightmaps(HeightmapBytes(1) + (HeightmapBytes(5) + (HeightmapBytes(4) + rest)), 3, [])
            == Ok(Heightmaps(), rest)
  {
    hide HeightmapBytes, HeightmapWords, ParseHeightmaps;
    var h := (k: i32) => Heightmap(k, HeightmapWords());
    HeightmapRead(1, 3, [], HeightmapBytes(5) + (HeightmapBytes(4) + rest));
    HeightmapRead(5, 2, [] + [h(1)], HeightmapBytes(4) + rest);
    HeightmapRead(4, 1, [] + [h(1)] + [h(5)], rest);
    NoMoreHeightmaps([] + [h(1)] + [h(5)] + [h(4)], rest);
    assert [] + [h(1)] + [h(5)] + [h(4)] == Heightmaps();
  }

  lemma NoMoreHeightmaps(acc: seq<Heightmap>, rest: seq<u8>)
    ensures ParseHeightmaps(rest, 0, acc) == Ok(acc, rest)
  {
  }

  lemma ByteArrayRead(b: seq<u8>, rest: seq<u8>)
    requires |b| <= MAX_I32
    ensures ParseByteArray(ByteArrayBytes(b) + rest) == Ok(b, rest)
  {
    hide VarIntBytes, ParseVarInt;
    assert ByteArrayBytes(b) + rest == VarIntBytes(|b|) + (b + rest);
    VarIntRoundTrip(|b|, b + rest);
    assert (b + rest)[..|b|] == b && (b + rest)[|b|..] == rest;
  }

  function LightSeen(): Light {
    Light([6], [], [1], [7], [FullBright(), FullBright()], [])
  }

  lemma ArraysRead(rest: seq<u8>)
    ensures ParseCounted(VarIntBytes(2) + (ByteArrayBytes(FullBright()) + (ByteArrayBytes(FullBright()) + rest)))
            == Ok([FullBright(), FullBright()], rest)
    ensures ParseCounted(VarIntBytes(0) + rest) == Ok([], rest)
  {
    hide VarIntBytes, ParseVarInt, ByteArrayBytes, ParseByteArray, FullBright;
    var b := FullBright();
    VarIntRoundTrip(2, ByteArrayBytes(b) + (ByteArrayBytes(b) + rest));
    VarIntRoundTrip(0, rest);
    ByteArrayRead(b, ByteArrayBytes(b) + rest);
    ByteArrayRead(b, rest);
    assert [] + [b] + [b] == [b, b];
  }

  lemma LightRead(rest: seq<u8>)
    ensures ParseLight(MasksBytes() + (LightBytes() + rest)) == Ok(LightSeen(), rest)
  {
    hide BitSetBytes, ParseBitSet, VarIntBytes, ByteArrayBytes, ParseCounted, FullBright, LightBytes, MasksBytes;
    var r4 := LightBytes() + rest;
    var b := FullBright();
    MasksSplit(r4);
    BitSetRead([6], BitSetBytes([]) + (BitSetBytes([1]) + (BitSetBytes([7]) + r4)));
    BitSetRead([], BitSetBytes([1]) + (BitSetBytes([7]) + r4));
    BitSetRead([1], BitSetBytes([7]) + r4);
    BitSetRead([7], r4);
    LightSplit(rest);
    ArraysRead(VarIntBytes(0) + rest);
    ArraysRead(rest);
  }

  lemma MasksSplit(rest: seq<u8>)
    ensures MasksBytes() + rest
            == BitSetBytes([6]) + (BitSetBytes([]) + (BitSetBytes([1]) + (BitSetBytes([7]) + rest)))
  {
    hide BitSetBytes;
  }

  lemma LightSplit(rest: seq<u8>)
    ensures LightBytes() + rest
            == VarIntBytes(2)
               + (ByteArrayBytes(FullBright()) + (ByteArrayBytes(FullBright()) + (VarIntBytes(0) + rest)))
  {
    hide VarIntBytes, ByteArrayBytes, FullBright;
  }

  /** Exactly what the client decodes from a column's body, for every override map. */
  lemma ColumnRead(ov: Overrides, rest: seq<u8>)
    ensures ParseColumn(PayloadBytes(ov) + rest) == Ok(ColumnSeen(ov), rest)
  {
    hide VarIntBytes, ParseVarInt, HeightmapBytes, ParseHeightmaps, SectionsBytes, ParseSections, SectionsSeen;
    hide MasksBytes, LightBytes, ParseLight, Heightmaps, LightSeen;
    hide FrontBytes, TailBytes, ByteArrayBytes, PayloadBytes;
    var sections := SectionsBytes(ov, 0);
    SectionsLength(ov, 0);
    var light := MasksBytes() + (LightBytes() + rest);
    var r4 := VarIntBytes(0) + light;
    var r3 := sections + r4;
    var r2 := VarIntBytes(|sections|) + r3;
    var r := HeightmapBytes(1) + (HeightmapBytes(5) + (HeightmapBytes(4) + r2));
    PayloadSplit(ov, rest);
    TailSplit(rest);
    FrontSplit(r2);
    SizedSplit(sections, r4);
    VarIntRoundTrip(3, r);
    HeightmapsRead(r2);
    VarIntRoundTrip(|sections|, r3);
    SectionsRead(ov, 0, [], r4);
    assert [] + SectionsSeen(ov, 0) == SectionsSeen(ov, 0);
    VarIntRoundTrip(0, light);
    LightRead(rest);
  }

  lemma PayloadSplit(ov: Overrides, rest: seq<u8>)
    ensures PayloadBytes(ov) + rest == FrontBytes() + (ByteArrayBytes(SectionsBytes(ov, 0)) + (TailBytes() + rest))
  {
    hide FrontBytes, ByteArrayBytes, SectionsBytes, TailBytes;
  }

  lemma FrontSplit(rest: seq<u8>)
    ensures FrontBytes() + rest
            == VarIntBytes(3) + (HeightmapBytes(1) + (HeightmapBytes(5) + (HeightmapBytes(4) + rest)))
  {
    hide VarIntBytes, HeightmapBytes;
  }

  lemma SizedSplit(b: seq<u8>, rest: seq<u8>)
    requires |b| <= MAX_I32
    ensures ByteArrayBytes(b) + rest == VarIntBytes(|b|) + (b + rest)
  {
    hide VarIntBytes;
  }

  lemma TailSplit(rest: seq<u8>)
    ensures TailBytes() + rest == VarIntBytes(0) + (MasksBytes() + (LightBytes() + rest))
  {
    hide VarIntBytes, MasksBytes, LightBytes;
  }

  // ---- The client's cells ----

  /** The cell at a column-local index as the client decoded it. */
  function CellAt(col: Column, idx: nat): u32
    requires idx / SECTION_BLOCKS < |col.sections|
    requires idx % SECTION_BLOCKS < |col.sections[idx / SECTION_BLOCKS].blocks|
  {
    col.sections[idx / SECTION_BLOCKS].blocks[idx % SECTION_BLOCKS]
  }

  /** The section has few enough distinct states for a palette, or only states of at most 15 bits. */
  predicate SectionFits(ov: Overrides, s: nat) {
    IsDirect(SectionCells(ov, s), BLOCK_PALETTE) ==> forall v :: v in SectionCells(ov, s) ==> v < 0x8000
  }

  lemma SectionExactIff(ov: Overrides, s: nat)
    ensures Kept(SectionCells(ov, s), BLOCK_PALETTE) == SectionCells(ov, s) <==> SectionFits(ov, s)
  {
    hide SectionCells, IsDirect, Kept, ParseContainer, ContainerBytes;
    ContainerRead(SectionCells(ov, s), BLOCK_PALETTE, []);
    ContainerRoundTripIff(SectionCells(ov, s), BLOCK_PALETTE, []);
    assert Pow2(15) == 0x8000;
  }

  ghost predicate ShowsColumn(col: Column, ov: Overrides) {
    && |col.sections| == SECTION_COUNT
    && (forall s :: 0 <= s < SECTION_COUNT ==> |col.sections[s].blocks| == SECTION_BLOCKS)
    && forall idx: nat :: idx < COLUMN_BLOCKS ==> CellAt(col, idx) == Cell(ov, idx)
  }

  /** The client shows every cell of the column as set, or flat, exactly when each
    * of the 24 sections fits. */
  lemma ColumnExactIff(ov: Overrides, rest: seq<u8>)
    ensures ParseColumn(PayloadBytes(ov) + rest).Ok? && ParseColumn(PayloadBytes(ov) + rest).rest == rest
    ensures ShowsColumn(ParseColumn(PayloadBytes(ov) + rest).value, ov)
            <==> forall s :: 0 <= s < SECTION_COUNT ==> SectionFits(ov, s)
  {
    hide ParseColumn, PayloadBytes, SectionFits, Kept, Heightmaps, LightSeen, NonAir, Biomes, Cell;
    KindsValid();
    ColumnRead(ov, rest);
    var col := ColumnSeen(ov);
    if forall s :: 0 <= s < SECTION_COUNT ==> SectionFits(ov, s) {
      forall idx: nat | idx < COLUMN_BLOCKS ensures CellAt(col, idx) == Cell(ov, idx) {
        FitCell(ov, idx);
      }
    }
    if ShowsColumn(col, ov) {
      forall s | 0 <= s < SECTION_COUNT ensures SectionFits(ov, s) {
        ShownSection(col, ov, s);
        SectionExactIff(ov, s);
      }
    }
  }

  lemma FitCell(ov: Overrides, idx: nat)
    requires idx < COLUMN_BLOCKS && SectionFits(ov, idx / SECTION_BLOCKS)
    ensures ValidKind(BLOCK_PALETTE)
    ensures Kept(SectionCells(ov, idx / SECTION_BLOCKS), BLOCK_PALETTE)[idx % SECTION_BLOCKS] == Cell(ov, idx)
  {
    hide SectionFits, Kept, Cell;
    SectionExactIff(ov, idx / SECTION_BLOCKS);
  }

  lemma ShownSection(col: Column, ov: Overrides, s: nat)
    requires ShowsColumn(col, ov) && s < SECTION_COUNT
    ensures col.sections[s].blocks == SectionCells(ov, s)
  {
    hide Cell;
    forall i | 0 <= i < SECTION_BLOCKS ensures col.sections[s].blocks[i] == SectionCells(ov, s)[i] {
      var idx := s * SECTION_BLOCKS + i;
      assert CellAt(col, idx) == Cell(ov, idx);
    }
  }

  // ---- The imperative encoder ----

  /** One section of flat terrain: bedrock, dirt, dirt, grass at the bottom, air above. */
  method SuperflatBlocks(s: nat) returns (blocks: array<u32>)
    ensures fresh(blocks) && blocks.Length == SECTION_BLOCKS
    ensures forall i :: 0 <= i < SECTION_BLOCKS ==> blocks[i] == FlatBlock(s * SECTION_BLOCKS + i)
  {
    blocks := new u32[SECTION_BLOCKS](_ => AIR);
    if s != 0 {
      forall i | 0 <= i < SECTION_BLOCKS ensures blocks[i] == FlatBlock(s * SECTION_BLOCKS + i) {
        HighIsAir(s * SECTION_BLOCKS + i);
      }
      return;
    }
    for i := 0 to blocks.Length
      invariant forall j :: 0 <= j < i ==> blocks[j] == FlatBlock(j)
    {
      match i / COLUMN_CELLS {
        case 0 => blocks[i] := BEDROCK;
        case 1 => blocks[i] := DIRT;
        case 2 => blocks[i] := DIRT;
        case 3 => blocks[i] := GRASS_BLOCK;
        case _ => blocks[i] := AIR;
      }
    }
  }

  lemma HighIsAir(idx: nat)
    requires idx >= SECTION_BLOCKS
    ensures FlatBlock(idx) == AIR
  {
  }

  /** Flat blocks with the overrides of this section applied, in whatever order the map yields them. */
  method OverriddenBlocks(s: nat, ov: Overrides) returns (blocks: array<u32>)
    ensures fresh(blocks) && blocks[..] == SectionCells(ov, s)
  {
    hide FlatBlock;
    blocks := SuperflatBlocks(s);
    var base := s * SECTION_BLOCKS;
    var todo := ov.Keys;
    while todo != {}
      invariant todo <= ov.Keys
      invariant forall i :: 0 <= i < SECTION_BLOCKS ==>
                  blocks[i] == if base + i in ov && base + i !in todo then ov[base + i] else FlatBlock(base + i)
    {
      var idx :| idx in todo;
      todo := todo - {idx};
      if base <= idx < base + SECTION_BLOCKS {
        blocks[idx - base] := ov[idx];
      }
    }
    forall i | 0 <= i < SECTION_BLOCKS ensures blocks[i] == SectionCells(ov, s)[i] {
      assert SectionCells(ov, s)[i] == Cell(ov, base + i);
    }
  }

  method CountNonAir(blocks: array<u32>) returns (n: nat)
    ensures n == NonAir(blocks[..])
  {
    n := 0;
    for i := 0 to blocks.Length
      invariant n == NonAir(blocks[..i])
    {
      assert blocks[..i + 1][..i] == blocks[..i];
      if blocks[i] != AIR {
        n := n + 1;
      }
    }
    assert blocks[..blocks.Length] == blocks[..];
  }

  method PlainsBiomes() returns (biomes: array<u32>)
    ensures fresh(biomes) && biomes[..] == Biomes()
  {
    biomes := new u32[SECTION_BIOMES](_ => 0);
    for i := 0 to biomes.Length
      invariant forall j :: 0 <= j < i ==> biomes[j] == PLAINS_BIOME
    {
      biomes[i] := PLAINS_BIOME;
    }
  }

  method WriteSection(w: Writer, s: nat, ov: Overrides)
    modifies w
    ensures w.buf == old(w.buf) + SectionBytes(ov, s)
  {
    hide ContainerBytes, SectionCells, Biomes, NonAir, BigEndian;
    KindsValid();
    var blocks := OverriddenBlocks(s, ov);
    var nonAir := CountNonAir(blocks);
    w.Fixed(AsU16(AsI16(nonAir)), SHORT_SIZE);
    w.Fixed(AsU16(0), SHORT_SIZE);
    WritePalettedContainer(w, blocks[..], BLOCK_PALETTE);
    var biomes := PlainsBiomes();
    WritePalettedContainer(w, biomes[..], BIOME_PALETTE);
  }

  method WriteSections(w: Writer, ov: Overrides)
    modifies w
    ensures w.buf == old(w.buf) + SectionsBytes(ov, 0)
  {
    hide SectionBytes, SectionsBytes;
    for s := 0 to SECTION_COUNT
      invariant w.buf + SectionsBytes(ov, s) == old(w.buf) + SectionsBytes(ov, 0)
    {
      SectionsStep(ov, s, w.buf);
      WriteSection(w, s, ov);
    }
    NoSections(ov, w.buf);
  }

  lemma SectionsStep(ov: Overrides, s: nat, before: seq<u8>)
    requires s < SECTION_COUNT
    ensures before + SectionsBytes(ov, s) == before + SectionBytes(ov, s) + SectionsBytes(ov, s + 1)
  {
    hide SectionBytes;
  }

  lemma NoSections(ov: Overrides, before: seq<u8>)
    ensures before + SectionsBytes(ov, SECTION_COUNT) == before
  {
  }

  method SurfaceColumn() returns (column: array<u32>)
    ensures fresh(column) && column[..] == SurfaceHeights()
  {
    column := new u32[COLUMN_CELLS](_ => 0);
    for i := 0 to column.Length
      invariant forall j :: 0 <= j < i ==> column[j] == SURFACE_HEIGHT
    {
      column[i] := SURFACE_HEIGHT;
    }
  }

  method WriteHeightmap(w: Writer, kind: i32, column: seq<u32>)
    requires column == SurfaceHeights()
    modifies w
    ensures w.buf == old(w.buf) + HeightmapBytes(kind)
  {
    hide VarIntBytes, WordsBytes, Pack, PerWord;
    w.VarInt(kind);
    var hw := new Writer();
    var id: u32 -> nat := v => v;
    assert Mapped(id, column) == AsNats(SurfaceHeights());
    WriteLongs(hw, column, HEIGHTMAP_BITS, id);
    assert hw.buf == WordsBytes(HeightmapWords());
    WordsLength(HeightmapWords());
    w.VarInt(AsI32(|hw.buf| / 8));
    w.Raw(hw.buf);
  }

  method WriteBitSet(w: Writer, longs: seq<nat>)
    requires forall i :: 0 <= i < |longs| ==> longs[i] < TWO64
    modifies w
    ensures w.buf == old(w.buf) + BitSetBytes(longs)
  {
    hide VarIntBytes, BigEndian;
    w.VarInt(AsI32(|longs|));
    ghost var start := w.buf;
    for i := 0 to |longs|
      invariant w.buf + WordsBytes(longs[i..]) == start + WordsBytes(longs)
    {
      assert longs[i..][1..] == longs[i + 1..];
      ghost var before := w.buf;
      w.Fixed(longs[i], LONG_SIZE);
      assert before + (BigEndian(longs[i], LONG_SIZE) + WordsBytes(longs[i + 1..]))
             == w.buf + WordsBytes(longs[i + 1..]);
    }
    assert longs[|longs|..] == [] && w.buf == start + WordsBytes(longs);
  }

  method WriteByteArray(w: Writer, b: seq<u8>)
    modifies w
    ensures w.buf == old(w.buf) + ByteArrayBytes(b)
  {
    w.VarInt(AsI32(|b|));
    w.Raw(b);
  }

  method WriteTail(w: Writer)
    modifies w
    ensures w.buf == old(w.buf) + TailBytes()
  {
    hide VarIntBytes, MasksBytes, LightBytes;
    w.VarInt(0);
    WriteMasks(w);
    WriteLight(w);
  }

  method WriteMasks(w: Writer)
    modifies w
    ensures w.buf == old(w.buf) + MasksBytes()
  {
    hide BitSetBytes;
    WriteBitSet(w, [6]);
    WriteBitSet(w, []);
    WriteBitSet(w, [1]);
    WriteBitSet(w, [7]);
  }

  method WriteLight(w: Writer)
    modifies w
    ensures w.buf == old(w.buf) + LightBytes()
  {
    hide VarIntBytes, ByteArrayBytes, FullBright;
    w.VarInt(2);
    WriteByteArray(w, FullBright());
    WriteByteArray(w, FullBright());
    w.VarInt(0);
  }

  method WriteFront(w: Writer)
    modifies w
    ensures w.buf == old(w.buf) + FrontBytes()
  {
    hide VarIntBytes, HeightmapBytes;
    var column := SurfaceColumn();
    w.VarInt(3);
    WriteHeightmap(w, 1, column[..]);
    WriteHeightmap(w, 5, column[..]);
    WriteHeightmap(w, 4, column[..]);
  }

  method BuildPayload(ov: Overrides) returns (body: seq<u8>)
    ensures body == PayloadBytes(ov)
  {
    hide FrontBytes, SectionsBytes, TailBytes, ByteArrayBytes;
    var w := new Writer();
    WriteFront(w);
    assert w.buf == FrontBytes();
    var sw := new Writer();
    WriteSections(sw, ov);
    assert sw.buf == SectionsBytes(ov, 0);
    WriteByteArray(w, sw.buf);
    WriteTail(w);
    assert w.buf == FrontBytes() + (ByteArrayBytes(sw.buf) + TailBytes());
    body := w.buf;
  }
}
