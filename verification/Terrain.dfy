/** Chunk payloads in numbers: the counts each section announces, the sections of
  * untouched terrain byte by byte, and what surrounds the sections. */
module Terrain {
  import opened Bytes
  import opened Codec
  import opened Palette
  import opened Container
  import opened Chunk
  import opened World

  // ---- The announced counts ----

  /** The cells that hold anything but state 0. */
  function Solid(cells: seq<u32>): set<nat> { set i: nat | i < |cells| && cells[i] != 0 }

  lemma {:induction false} NonAirCount(cells: seq<u32>)
    ensures NonAir(cells) == |Solid(cells)|
  {
    if cells != [] {
      var n := |cells| - 1;
      NonAirCount(cells[..n]);
      assert Solid(cells) == Solid(cells[..n]) + if cells[n] != 0 then {n} else {};
    }
  }

  /** What the history left at cell `i` of section `s` of chunk (cx, cz). */
  function LeftAt(changes: seq<Change>, cx: int, cz: int, s: nat, i: nat): u32 {
    BlockAfter(changes, 16 * cx + i % 16, 16 * s - 64 + i / 256, 16 * cz + i / 16 % 16)
  }

  /** The cells of a section at which it left something. */
  function Filled(changes: seq<Change>, cx: int, cz: int, s: nat): set<nat> {
    set i: nat | i < 4096 && LeftAt(changes, cx, cz, s, i) != 0
  }

  lemma CellPosition(cx: int, cz: int, s: nat, i: nat)
    requires i < 4096
    ensures PositionOf(cx, cz, s * SECTION_BLOCKS + i)
            == (16 * cx + i % 16, 16 * s - 64 + i / 256, 16 * cz + i / 16 % 16)
  {
    var idx := s * SECTION_BLOCKS + i;
    DivModUnique(16, s * 256 + i / 16, i % 16);
    DivModUnique(256, s * 16 + i / 256, i % 256);
    DivNested(i, 16, 16);
    DivModUnique(16, s * 16 + i / 256, i / 16 % 16);
    assert idx == i % 16 + 16 * (s * 256 + i / 16);
    assert idx == i % 256 + 256 * (s * 16 + i / 256);
    assert s * 256 + i / 16 == i / 16 % 16 + 16 * (s * 16 + i / 256);
  }

  lemma CellIsLeft(changes: seq<Change>, cx: int, cz: int, s: nat, i: nat)
    requires s < 24 && i < 4096
    ensures SectionCells(ColumnOf(UpdatedAll(changes), (cx, cz)), s)[i] == LeftAt(changes, cx, cz, s, i)
  {
    hide UpdatedAll, BlockAfter, Cell, PositionOf;
    CellPosition(cx, cz, s, i);
    StoreHoldsHistory(changes, cx, cz, s * SECTION_BLOCKS + i);
  }

  lemma SolidIsFilled(changes: seq<Change>, cx: int, cz: int, s: nat)
    requires s < 24
    ensures Solid(SectionCells(ColumnOf(UpdatedAll(changes), (cx, cz)), s)) == Filled(changes, cx, cz, s)
  {
    hide UpdatedAll, SectionCells, LeftAt, ColumnOf;
    forall i: nat | i < 4096
      ensures SectionCells(ColumnOf(UpdatedAll(changes), (cx, cz)), s)[i] == LeftAt(changes, cx, cz, s, i)
    {
      CellIsLeft(changes, cx, cz, s, i);
    }
  }

  /** After any sequence of changes, every section announces exactly how many of its
    * positions hold anything. */
  lemma PayloadCounts(changes: seq<Change>, cx: int, cz: int, s: nat, rest: seq<u8>)
    requires s < 24
    ensures var col := ParseColumn(RenderedChunk(UpdatedAll(changes), cx, cz) + rest);
            col.Ok? && |col.value.sections| == 24 && col.value.sections[s].nonAir == |Filled(changes, cx, cz, s)|
  {
    hide ParseColumn, PayloadBytes, UpdatedAll, NonAir, Kept, Biomes, Filled, SectionCells, ColumnOf, Solid;
    hide Heightmaps, LightSeen;
    var ov := ColumnOf(UpdatedAll(changes), (cx, cz));
    ColumnRead(ov, rest);
    NonAirCount(SectionCells(ov, s));
    SolidIsFilled(changes, cx, cz, s);
  }

  /** And with states below 32768 each cell shows what the history left there. */
  lemma PayloadCells(changes: seq<Change>, cx: int, cz: int, s: nat, i: nat, rest: seq<u8>)
    requires forall j :: 0 <= j < |changes| ==> changes[j].state < 0x8000
    requires s < 24 && i < 4096
    ensures var col := ParseColumn(RenderedChunk(UpdatedAll(changes), cx, cz) + rest);
            && col.Ok? && col.rest == rest
            && |col.value.sections| == 24 && |col.value.sections[s].blocks| == 4096
            && col.value.sections[s].blocks[i] == LeftAt(changes, cx, cz, s, i)
  {
    hide ParseColumn, RenderedChunk, UpdatedAll, BlockAfter, PositionOf;
    PayloadShowsHistory(changes, cx, cz, rest);
    CellPosition(cx, cz, s, i);
    var col := ParseColumn(RenderedChunk(UpdatedAll(changes), cx, cz) + rest).value;
    var idx := s * SECTION_BLOCKS + i;
    assert CellAt(col, idx) == col.sections[s].blocks[i];
  }

  // ---- Untouched terrain, byte by byte ----

  /** Untouched cells of section 0: a layer of 85, two of 10, one of 9, and 0 above. */
  lemma FloorCells(i: nat)
    requires i < 4096
    ensures SectionCells(map[], 0)[i] == if i < 256 then 85 else if i < 768 then 10 else if i < 1024 then 9 else 0
  {
    assert SectionCells(map[], 0)[i] == Cell(map[], i);
  }

  lemma AirCells(s: nat, i: nat)
    requires 1 <= s && i < 4096
    ensures SectionCells(map[], s)[i] == 0
  {
    assert SectionCells(map[], s)[i] == Cell(map[], s * SECTION_BLOCKS + i);
  }

  lemma {:induction false} SolidBelow(cells: seq<u32>, k: nat)
    requires k <= |cells|
    requires forall i :: 0 <= i < k ==> cells[i] != 0
    requires forall i :: k <= i < |cells| ==> cells[i] == 0
    ensures NonAir(cells) == k
  {
    if cells != [] {
      SolidBelow(cells[..|cells| - 1], if k == |cells| then k - 1 else k);
    }
  }

  lemma FloorCount()
    ensures NonAir(SectionCells(map[], 0)) == 1024
  {
    hide SectionCells, NonAir;
    forall i | 0 <= i < 4096
      ensures SectionCells(map[], 0)[i] == if i < 256 then 85 else if i < 768 then 10 else if i < 1024 then 9 else 0
    {
      FloorCells(i);
    }
    SolidBelow(SectionCells(map[], 0), 1024);
  }

  lemma AirCount(s: nat)
    requires 1 <= s
    ensures NonAir(SectionCells(map[], s)) == 0 && Distinct(SectionCells(map[], s)) == [0]
  {
    hide SectionCells, NonAir, Distinct;
    forall i | 0 <= i < 4096 ensures SectionCells(map[], s)[i] == 0 {
      AirCells(s, i);
    }
    SolidBelow(SectionCells(map[], s), 0);
    OneValue(SectionCells(map[], s), 0);
  }

  /** Untouched, the floor announces 1024 blocks and every other section none. */
  lemma UntouchedCounts(rest: seq<u8>)
    ensures var col := ParseColumn(PayloadBytes(map[]) + rest);
            && col.Ok? && |col.value.sections| == 24 && col.value.sections[0].nonAir == 1024
            && forall s :: 1 <= s < 24 ==> col.value.sections[s].nonAir == 0
  {
    hide ParseColumn, PayloadBytes, SectionCells, NonAir, Kept, Biomes, Heightmaps, LightSeen;
    ColumnRead(map[], rest);
    FloorCount();
    forall s | 1 <= s < 24 ensures NonAir(SectionCells(map[], s)) == 0 {
      AirCount(s);
    }
  }

  lemma SmallVarInts()
    ensures forall v: i32 :: 0 <= v < 128 ==> VarIntBytes(v) == [v]
  {
  }

  lemma BiomeBytes()
    ensures ValidKind(BIOME_PALETTE) && ContainerBytes(Biomes(), BIOME_PALETTE) == [0x00, 0x28]
  {
    hide VarIntBytes, Distinct, Biomes;
    SmallVarInts();
    PlainsEverywhere();
    OneValue(Biomes(), 40);
  }

  lemma PlainsEverywhere()
    ensures |Biomes()| == 64 && forall i :: 0 <= i < 64 ==> Biomes()[i] == 40
  {
  }

  lemma ShortZero()
    ensures ShortBytes(0) == [0x00, 0x00] && ShortBytes(1024) == [0x04, 0x00]
  {
    assert BigEndian(0, 1) == [0] && BigEndian(4, 1) == [4];
  }

  /** Every section of air is eight bytes. */
  lemma AirSection(s: nat)
    requires 1 <= s
    ensures SectionBytes(map[], s) == [0x00, 0x00, 0x00, 0x00, 0x00, 0x00, 0x00, 0x28]
  {
    hide SectionCells, NonAir, Distinct, VarIntBytes, ShortBytes, Biomes;
    AirCount(s);
    SmallVarInts();
    ShortZero();
    hide ContainerBytes;
    AirContainer(s);
    BiomeBytes();
  }

  lemma AirContainer(s: nat)
    requires 1 <= s
    ensures ValidKind(BLOCK_PALETTE) && ContainerBytes(SectionCells(map[], s), BLOCK_PALETTE) == [0x00, 0x00]
  {
    hide SectionCells, NonAir, Distinct, VarIntBytes;
    AirCount(s);
    SmallVarInts();
  }

  function FloorPalette(n: nat): seq<u32> {
    if n == 0 then [] else if n <= 256 then [85] else if n <= 768 then [85, 10] else if n <= 1024 then [85, 10, 9]
    else [85, 10, 9, 0]
  }

  lemma {:induction false} FloorDistinct(n: nat)
    requires n <= 4096
    ensures Distinct(SectionCells(map[], 0)[..n]) == FloorPalette(n)
  {
    hide SectionCells;
    if n > 0 {
      var cells := SectionCells(map[], 0);
      FloorDistinct(n - 1);
      FloorCells(n - 1);
      assert cells[..n][..n - 1] == cells[..n - 1] && cells[..n][n - 1] == cells[n - 1];
    }
  }

  /** The palette index of a cell of the floor. */
  function FloorIndex(i: nat): nat { if i < 256 then 0 else if i < 768 then 1 else if i < 1024 then 2 else 3 }

  lemma FloorIndices()
    ensures Distinct(SectionCells(map[], 0)) == [85, 10, 9, 0]
    ensures var p := Distinct(SectionCells(map[], 0));
            && (forall v :: v in SectionCells(map[], 0) ==> v in p)
            && forall i :: 0 <= i < 4096 ==> Indices(SectionCells(map[], 0), p)[i] == FloorIndex(i)
  {
    hide SectionCells, Distinct;
    var cells := SectionCells(map[], 0);
    FloorDistinct(4096);
    assert cells[..4096] == cells;
    DistinctFacts(cells);
    forall i | 0 <= i < 4096 ensures Indices(cells, [85, 10, 9, 0])[i] == FloorIndex(i) {
      FloorCells(i);
    }
  }

  /** The floor: its count, a palette of four at four bits, its cells sixteen to a
    * word, and one biome. */
  lemma FloorSection() returns (ws: seq<nat>)
    ensures SectionBytes(map[], 0)
            == [0x04, 0x00, 0x00, 0x00, 0x04, 0x04, 0x55, 0x0A, 0x09, 0x00] + WordsBytes(ws) + [0x00, 0x28]
    ensures |ws| == 256 && |WordsBytes(ws)| == 2048
    ensures forall w, k :: 0 <= w < 256 && 0 <= k < 16 ==> ws[w] / Pow2(k * 4) % 16 == FloorIndex(k + 16 * w)
  {
    hide SectionCells, NonAir, Distinct, VarIntBytes, ShortBytes, Biomes, Pack, WordsBytes, Indices, ContainerBytes;
    FloorCount();
    ShortZero();
    ws := FloorContainer();
    BiomeBytes();
    var head := [0x04, 0x04, 0x55, 0x0A, 0x09, 0x00];
    assert [0x04, 0x00] + ([0x00, 0x00] + (head + WordsBytes(ws) + [0x00, 0x28]))
           == [0x04, 0x00, 0x00, 0x00] + head + WordsBytes(ws) + [0x00, 0x28];
  }

  lemma FloorContainer() returns (ws: seq<nat>)
    ensures ValidKind(BLOCK_PALETTE)
    ensures ContainerBytes(SectionCells(map[], 0), BLOCK_PALETTE)
            == [0x04, 0x04, 0x55, 0x0A, 0x09, 0x00] + WordsBytes(ws)
    ensures |ws| == 256 && |WordsBytes(ws)| == 2048
    ensures forall w, k :: 0 <= w < 256 && 0 <= k < 16 ==> ws[w] / Pow2(k * 4) % 16 == FloorIndex(k + 16 * w)
  {
    hide SectionCells, NonAir, Distinct, VarIntBytes, Pack, WordsBytes, Indices, BitsFor, PaletteBytes, Pow2;
    var cells := SectionCells(map[], 0);
    FloorIndices();
    BitsTable(4);
    var ix := Indices(cells, [85, 10, 9, 0]);
    ws := Pack(ix, 4, PerWord(4));
    FloorPaletteBytes();
    SmallVarInts();
    FloorWords(ix);
    WordsLength(ws);
  }

  lemma FloorPaletteBytes()
    ensures PaletteBytes([85, 10, 9, 0]) == [0x55, 0x0A, 0x09, 0x00]
  {
    hide VarIntBytes;
    SmallVarInts();
    var p: seq<u32> := [85, 10, 9, 0];
    assert p[1..] == [10, 9, 0] && p[1..][1..] == [9, 0] && p[1..][1..][1..] == [0] && p[1..][1..][1..][1..] == [];
    assert PaletteBytes([0]) == [0x00];
  }

  lemma FloorWords(ix: seq<nat>)
    requires |ix| == 4096 && forall i :: 0 <= i < 4096 ==> ix[i] == FloorIndex(i)
    ensures var ws := Pack(ix, 4, PerWord(4));
            && |ws| == 256
            && forall w, k :: 0 <= w < 256 && 0 <= k < 16 ==> ws[w] / Pow2(k * 4) % 16 == FloorIndex(k + 16 * w)
  {
    hide Pack;
    PackedCount(ix, 4);
    assert Pow2(4) == 16;
    forall w, k | 0 <= w < 256 && 0 <= k < 16
      ensures Pack(ix, 4, PerWord(4))[w] / Pow2(k * 4) % 16 == FloorIndex(k + 16 * w)
    {
      FloorWord(ix, w, k);
    }
  }

  lemma FloorWord(ix: seq<nat>, w: nat, k: nat)
    requires |ix| == 4096 && w < 256 && k < 16 && ix[k + 16 * w] == FloorIndex(k + 16 * w)
    ensures w < |Pack(ix, 4, PerWord(4))|
    ensures Pack(ix, 4, PerWord(4))[w] / Pow2(k * 4) % 16 == FloorIndex(k + 16 * w)
  {
    assert Pow2(4) == 16;
    hide Pack;
    PackedWords(ix, 4, 16, w, k);
  }

  // ---- Around the sections ----

  /** The heightmaps and the light are the same for every column: three maps of 37
    * words that say 4 in each of 256 columns, seven to a word; sky light for the two
    * lowest sections, full everywhere, and no block light. */
  lemma Envelope(ov: Overrides, rest: seq<u8>)
    ensures var c := ParseColumn(PayloadBytes(ov) + rest);
            && c.Ok? && |c.value.heightmaps| == 3 && |c.value.sections| == 24
            && c.value.heightmaps[0].kind == 1 && c.value.heightmaps[1].kind == 5 && c.value.heightmaps[2].kind == 4
            && (forall m :: 0 <= m < 3 ==> AllFour(c.value.heightmaps[m].words))
            && (forall s :: 0 <= s < 24 ==> AllPlains(c.value.sections[s].biomes))
            && c.value.light.skyMask == [6] && c.value.light.blockMask == []
            && c.value.light.emptySky == [1] && c.value.light.emptyBlock == [7]
            && |c.value.light.sky| == 2 && c.value.light.block == []
            && Bright(c.value.light.sky[0]) && Bright(c.value.light.sky[1])
  {
    hide ParseColumn, PayloadBytes, HeightmapWords, AllFour, Bright, FullBright, Biomes, AllPlains, Kept, NonAir;
    hide SectionCells;
    ColumnRead(ov, rest);
    HeightsFour();
    PlainsEverywhere();
    BrightEverywhere();
    PlainsAll();
  }

  predicate AllPlains(biomes: seq<u32>) { |biomes| == 64 && forall i :: 0 <= i < 64 ==> biomes[i] == 40 }

  predicate AllFour(words: seq<nat>) {
    |words| == 37 && forall w, k :: 0 <= w < 37 && 0 <= k < 7 && k + 7 * w < 256 ==> words[w] / Pow2(k * 9) % 512 == 4
  }

  predicate Bright(b: seq<u8>) { |b| == 2048 && forall i :: 0 <= i < 2048 ==> b[i] == 0xFF }

  lemma BrightEverywhere()
    ensures Bright(FullBright())
  {
  }

  lemma PlainsAll()
    ensures AllPlains(Biomes())
  {
  }

  lemma HeightsFour()
    ensures AllFour(HeightmapWords())
  {
    hide Pack;
    var vs := AsNats(SurfaceHeights());
    assert forall i :: 0 <= i < 256 ==> vs[i] == 4;
    PackedCount(vs, 9);
    forall w, k | 0 <= w < 37 && 0 <= k < 7 && k + 7 * w < 256 ensures HeightmapWords()[w] / Pow2(k * 9) % 512 == 4 {
      HeightFour(vs, w, k);
    }
  }

  lemma HeightFour(vs: seq<nat>, w: nat, k: nat)
    requires |vs| == 256 && k < 7 && k + 7 * w < 256 && vs[k + 7 * w] == 4
    ensures w < |Pack(vs, 9, PerWord(9))| && Pack(vs, 9, PerWord(9))[w] / Pow2(k * 9) % 512 == 4
  {
    assert Pow2(9) == 512;
    hide Pack;
    PackedWords(vs, 9, 7, w, k);
  }

  /** The front of every body: three heightmaps, 37 longs each. */
  lemma FrontForm() returns (heights: seq<u8>)
    ensures |heights| == 296 && heights == WordsBytes(HeightmapWords())
    ensures FrontBytes()
            == [3] + (([1] + ([37] + heights)) + (([5] + ([37] + heights)) + ([4] + ([37] + heights))))
  {
    hide VarIntBytes, HeightmapWords, WordsBytes, AllFour;
    heights := WordsBytes(HeightmapWords());
    ThirtySeven();
    WordsLength(HeightmapWords());
    SmallVarInts();
  }

  lemma ThirtySeven()
    ensures |HeightmapWords()| == 37
  {
    hide HeightmapWords;
    HeightsFour();
  }

  function Long(v: u8): seq<u8> { [0, 0, 0, 0, 0, 0, 0, v] }

  lemma OneLong(v: u8)
    ensures BitSetBytes([v]) == [1] + Long(v)
  {
    hide VarIntBytes;
    SmallVarInts();
    var ws: seq<nat> := [v];
    assert ws[1..] == [] && WordsBytes(ws) == BigEndian(v, 8) + WordsBytes([]);
    LongBytesOf(v);
  }

  lemma LongBytesOf(v: u8)
    ensures BigEndian(v, 8) + [] == Long(v)
  {
    assert v / 256 == 0 && v % 256 == v;
    assert BigEndian(0, 7) == [0, 0, 0, 0, 0, 0, 0];
    assert BigEndian(v, 8) == BigEndian(0, 7) + [v];
  }

  /** The end of every body: no block entities, four masks, two arrays of 2048 bytes,
    * and no block light. */
  lemma TailForm()
    ensures TailBytes()
            == [0] + ((([1] + Long(6)) + (([0] + []) + (([1] + Long(1)) + ([1] + Long(7)))))
                      + ([2] + (([0x80, 0x10] + FullBright()) + (([0x80, 0x10] + FullBright()) + [0]))))
    ensures Bright(FullBright())
  {
    hide VarIntBytes, FullBright, Bright, Long;
    OneLong(6);
    OneLong(1);
    OneLong(7);
    SmallVarInts();
    BrightEverywhere();
    TwoThousand();
  }

  lemma TwoThousand()
    ensures VarIntBytes(2048) == [0x80, 0x10]
  {
  }

  /** Between them the sections, after their size, from the bottom up. */
  lemma PayloadForm(ov: Overrides)
    ensures var secs := SectionsBytes(ov, 0);
            PayloadBytes(ov) == FrontBytes() + ((VarIntBytes(AsI32(|secs|)) + secs) + TailBytes())
    ensures forall s :: 0 <= s < 24 ==> SectionsBytes(ov, s) == SectionBytes(ov, s) + SectionsBytes(ov, s + 1)
    ensures SectionsBytes(ov, 24) == []
  {
    hide VarIntBytes, SectionBytes, FrontBytes, TailBytes;
  }
}
