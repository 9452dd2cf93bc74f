/** The shared block world: sparse changes over flat terrain, addressed by
  * absolute position, rendered column by column. */
module World {
  import opened Bytes
  import opened Container
  import opened Chunk

  const MIN_BUILD_Y: int := -64
  const BUILD_HEIGHT: int := 384

  type ChunkKey = (int, int)
  type Store = map<ChunkKey, Overrides>

  // ---- Addresses ----

  /** `c >> 4` */
  function ChunkCoord(c: i32): int { c / 16 }

  predicate Buildable(y: int) { MIN_BUILD_Y <= y < MIN_BUILD_Y + BUILD_HEIGHT }

  /** The column-local index, or none outside the buildable height. */
  function BlockIndex(x: i32, y: i32, z: i32): (r: Option<nat>)
    ensures r.Some? <==> Buildable(y)
    ensures r.Some? ==> r.value < COLUMN_BLOCKS
  {
    if !Buildable(y) then None else Some((y - MIN_BUILD_Y) * 256 + z % 16 * 16 + x % 16)
  }

  /** The absolute position of a column's cell. */
  function PositionOf(cx: int, cz: int, idx: nat): (int, int, int) {
    (16 * cx + idx % 16, idx / 256 + MIN_BUILD_Y, 16 * cz + idx / 16 % 16)
  }

  /** Chunk and index name a buildable position uniquely: both directions of the bijection. */
  lemma AddressOfPosition(x: i32, y: i32, z: i32)
    requires Buildable(y)
    ensures PositionOf(ChunkCoord(x), ChunkCoord(z), BlockIndex(x, y, z).value) == (x, y, z)
  {
    var h, zz, xx := y - MIN_BUILD_Y, z % 16, x % 16;
    var idx := h * 256 + zz * 16 + xx;
    DivModUnique(16, h * 16 + zz, xx);
    DivModUnique(16, h, zz);
    DivModUnique(256, h, zz * 16 + xx);
  }

  lemma PositionOfAddress(cx: int, cz: int, idx: nat)
    requires idx < COLUMN_BLOCKS && -0x800_0000 <= cx < 0x800_0000 && -0x800_0000 <= cz < 0x800_0000
    ensures var p := PositionOf(cx, cz, idx);
            && Buildable(p.1) && ChunkCoord(p.0) == cx && ChunkCoord(p.2) == cz
            && BlockIndex(p.0, p.1, p.2) == Some(idx)
  {
    DivNested(idx, 16, 16);
    DivModUnique(16, cx, idx % 16);
    DivModUnique(16, cz, idx / 16 % 16);
  }

  // ---- The store as a function of its history ----

  datatype Change = Change(x: i32, y: i32, z: i32, state: u32)

  function ColumnOf(store: Store, key: ChunkKey): Overrides {
    if key in store then store[key] else map[]
  }

  function Updated(store: Store, c: Change): Store {
    var idx := BlockIndex(c.x, c.y, c.z);
    if idx.None? then store
    else
      var key := (ChunkCoord(c.x), ChunkCoord(c.z));
      store[key := ColumnOf(store, key)[idx.value := c.state]]
  }

  function UpdatedAll(changes: seq<Change>): Store {
    if changes == [] then map[]
    else Updated(UpdatedAll(changes[..|changes| - 1]), changes[|changes| - 1])
  }

  /** The plain map from positions to states: the last change at a position wins. */
  function BlockAfter(changes: seq<Change>, x: int, y: int, z: int): u32 {
    if changes == [] then FlatAt(y)
    else
      var c := changes[|changes| - 1];
      if (c.x, c.y, c.z) == (x, y, z) then c.state else BlockAfter(changes[..|changes| - 1], x, y, z)
  }

  /** Bedrock at -64, dirt to -62, grass at -61, air above. */
  function FlatAt(y: int): u32 {
    if y == -64 then BEDROCK
    else if y == -63 || y == -62 then DIRT
    else if y == -61 then GRASS_BLOCK
    else AIR
  }

  lemma {:induction false} StoreHoldsHistory(changes: seq<Change>, cx: int, cz: int, idx: nat)
    requires idx < COLUMN_BLOCKS
    ensures var p := PositionOf(cx, cz, idx);
            Cell(ColumnOf(UpdatedAll(changes), (cx, cz)), idx) == BlockAfter(changes, p.0, p.1, p.2)
  {
    var p := PositionOf(cx, cz, idx);
    if changes == [] {
      assert idx / 256 == p.1 + 64;
    } else {
      var init, c := changes[..|changes| - 1], changes[|changes| - 1];
      StoreHoldsHistory(init, cx, cz, idx);
      if Buildable(c.y) {
        AddressOfPosition(c.x, c.y, c.z);
        if (c.x, c.y, c.z) == p {
          SameAddress(c, cx, cz, idx);
        }
      }
    }
  }

  /** The state at a position is that of the last change made there. */
  lemma {:induction false} LastChangeWins(changes: seq<Change>, k: nat)
    requires k < |changes|
    requires forall j :: k < j < |changes| ==>
               (changes[j].x, changes[j].y, changes[j].z) != (changes[k].x, changes[k].y, changes[k].z)
    ensures BlockAfter(changes, changes[k].x, changes[k].y, changes[k].z) == changes[k].state
  {
    if k < |changes| - 1 {
      LastChangeWins(changes[..|changes| - 1], k);
    }
  }

  /** And without any it is the terrain: 85 at the bottom, twice 10, 9, and 0 above. */
  lemma {:induction false} TerrainStays(changes: seq<Change>, x: int, y: int, z: int)
    requires forall j :: 0 <= j < |changes| ==> (changes[j].x, changes[j].y, changes[j].z) != (x, y, z)
    ensures BlockAfter(changes, x, y, z)
            == if y == -64 then 85 else if y == -63 || y == -62 then 10 else if y == -61 then 9 else 0
  {
    if changes != [] {
      TerrainStays(changes[..|changes| - 1], x, y, z);
    }
  }

  lemma SameAddress(c: Change, cx: int, cz: int, idx: nat)
    requires idx < COLUMN_BLOCKS && (c.x, c.y, c.z) == PositionOf(cx, cz, idx)
    ensures ChunkCoord(c.x) == cx && ChunkCoord(c.z) == cz && BlockIndex(c.x, c.y, c.z) == Some(idx)
  {
    DivModUnique(16, cx, idx % 16);
    DivModUnique(16, cz, idx / 16 % 16);
    PositionOfAddress(cx, cz, idx);
  }

  // ---- Chunk payloads ----

  /** What the client must see of chunk (cx, cz): every cell as last set, or flat. */
  ghost predicate ShowsHistory(col: Column, changes: seq<Change>, cx: int, cz: int) {
    && |col.sections| == SECTION_COUNT
    && (forall s :: 0 <= s < SECTION_COUNT ==> |col.sections[s].blocks| == SECTION_BLOCKS)
    && forall idx: nat :: idx < COLUMN_BLOCKS ==>
         var p := PositionOf(cx, cz, idx);
         CellAt(col, idx) == BlockAfter(changes, p.0, p.1, p.2)
  }

  function RenderedChunk(store: Store, cx: int, cz: int): seq<u8> {
    PayloadBytes(ColumnOf(store, (cx, cz)))
  }

  /** After any sequence of changes, the decoded payload of any chunk shows, cell by
    * cell, the state last set at that absolute position or the flat terrain,
    * exactly when each of its sections fits a palette or 15-bit ids. */
  lemma PayloadShowsHistoryIff(changes: seq<Change>, cx: int, cz: int, rest: seq<u8>)
    ensures var col := ParseColumn(RenderedChunk(UpdatedAll(changes), cx, cz) + rest);
            && col.Ok? && col.rest == rest
            && (ShowsHistory(col.value, changes, cx, cz)
                <==> forall s :: 0 <= s < SECTION_COUNT ==> SectionFits(ColumnOf(UpdatedAll(changes), (cx, cz)), s))
  {
    hide ParseColumn, PayloadBytes, SectionFits, UpdatedAll, BlockAfter, Cell, PositionOf;
    var ov := ColumnOf(UpdatedAll(changes), (cx, cz));
    ColumnExactIff(ov, rest);
    var col := ParseColumn(PayloadBytes(ov) + rest).value;
    forall idx: nat | idx < COLUMN_BLOCKS
      ensures var p := PositionOf(cx, cz, idx); Cell(ov, idx) == BlockAfter(changes, p.0, p.1, p.2)
    {
      StoreHoldsHistory(changes, cx, cz, idx);
    }
  }

  /** With states below 32768, as the game's own are, every section fits. */
  lemma PayloadShowsHistory(changes: seq<Change>, cx: int, cz: int, rest: seq<u8>)
    requires forall i :: 0 <= i < |changes| ==> changes[i].state < 0x8000
    ensures var col := ParseColumn(RenderedChunk(UpdatedAll(changes), cx, cz) + rest);
            col.Ok? && col.rest == rest && ShowsHistory(col.value, changes, cx, cz)
  {
    hide ParseColumn, RenderedChunk, UpdatedAll, ShowsHistory, SectionFits;
    PayloadShowsHistoryIff(changes, cx, cz, rest);
    forall s | 0 <= s < SECTION_COUNT ensures SectionFits(ColumnOf(UpdatedAll(changes), (cx, cz)), s) {
      StatesFit(changes, cx, cz, s);
    }
  }

  lemma StatesFit(changes: seq<Change>, cx: int, cz: int, s: nat)
    requires forall i :: 0 <= i < |changes| ==> changes[i].state < 0x8000
    requires s < SECTION_COUNT
    ensures SectionFits(ColumnOf(UpdatedAll(changes), (cx, cz)), s)
  {
    hide UpdatedAll, IsDirect, Cell;
    var ov := ColumnOf(UpdatedAll(changes), (cx, cz));
    forall i | 0 <= i < SECTION_BLOCKS ensures SectionCells(ov, s)[i] < 0x8000 {
      CellBound(changes, cx, cz, s * SECTION_BLOCKS + i);
    }
  }

  lemma CellBound(changes: seq<Change>, cx: int, cz: int, idx: nat)
    requires forall i :: 0 <= i < |changes| ==> changes[i].state < 0x8000
    requires idx < COLUMN_BLOCKS
    ensures Cell(ColumnOf(UpdatedAll(changes), (cx, cz)), idx) < 0x8000
  {
    hide UpdatedAll, PositionOf, BlockAfter, Cell;
    StoreHoldsHistory(changes, cx, cz, idx);
    var p := PositionOf(cx, cz, idx);
    StatesBound(changes, p.0, p.1, p.2);
  }

  lemma {:induction false} StatesBound(changes: seq<Change>, x: int, y: int, z: int)
    requires forall i :: 0 <= i < |changes| ==> changes[i].state < 0x8000
    ensures BlockAfter(changes, x, y, z) < 0x8000
  {
    if changes != [] {
      StatesBound(changes[..|changes| - 1], x, y, z);
    }
  }

  // ---- The imperative world ----

  class BlockWorld {
    var overrides: Store
    const superflatPayload: seq<u8>  // shared by every unmodified column

    ghost predicate Valid()
      reads this
    {
      superflatPayload == PayloadBytes(map[])
    }

    constructor ()
      ensures Valid() && overrides == map[]
    {
      var pristine := BuildPayload(map[]);
      overrides := map[];
      superflatPayload := pristine;
    }

    method SetBlock(x: i32, y: i32, z: i32, state: u32) returns (ok: bool)
      modifies this
      ensures ok <==> -64 <= y < 320
      ensures overrides == Updated(old(overrides), Change(x, y, z, state))
    {
      hide PayloadBytes, BlockIndex;
      var idx := BlockIndex(x, y, z);
      if idx.None? {
        return false;
      }
      var key := (ChunkCoord(x), ChunkCoord(z));
      if key !in overrides {
        overrides := overrides[key := map[]];
      }
      var col: Overrides := overrides[key];
      col := col[idx.value := state];
      overrides := overrides[key := col];
      return true;
    }

    method ChunkPayload(cx: int, cz: int) returns (body: seq<u8>)
      requires Valid()
      ensures body == RenderedChunk(overrides, cx, cz)
    {
      hide PayloadBytes;
      var col: Overrides := if (cx, cz) in overrides then overrides[(cx, cz)] else map[];
      if |col| == 0 {
        assert col == map[];
        return superflatPayload;
      }
      var cp: Overrides, todo := map[], col.Keys;
      while todo != {}
        invariant todo <= col.Keys && cp.Keys == col.Keys - todo
        invariant forall k :: k in cp ==> cp[k] == col[k]
      {
        var k :| k in todo;
        cp := cp[k := col[k]];
        todo := todo - {k};
      }
      assert cp == col;
      body := BuildPayload(cp);
    }
  }
}
