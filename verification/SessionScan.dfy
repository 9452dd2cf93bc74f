/** The nested loops over a chunk view, with their wrapping 32-bit counters: when
  * they end, and which columns they visit. */
module SessionScan {
  import opened Bytes
  import opened Session

  /** The counter after `k` increments. */
  function At(first: i32, k: nat): i32 { AsI32(first + k) }

  /** A counter that starts at `first` and wraps passes `last` at some time exactly
    * when `last` is not the largest int32. */
  lemma LoopEndsIff(first: i32, last: i32)
    ensures (exists k: nat :: At(first, k) > last) <==> last != MAX_I32
  {
    if last != MAX_I32 {
      var k: nat := MAX_I32 - first;
      assert At(first, k) == MAX_I32;
    }
  }

  lemma SideOverflow(c: i32)
    ensures Fits(c) ==> ScanFirst(c) == c - VIEW_DISTANCE && ScanLast(c) == c + VIEW_DISTANCE
    ensures !Fits(c) ==> ScanFirst(c) > ScanLast(c)
  {
  }

  // ---- Scans that end ----

  /** The columns still to visit from a cursor on, when neither counter wraps. */
  predicate Ahead(cx: i32, cz: i32, at: Cursor, a: i32, b: i32) {
    && a <= ScanLast(cx) && ScanFirst(cz) <= b <= ScanLast(cz)
    && match at
       case AtRow(x) => x <= a
       case AtCell(x, z) => x < a || (x == a && z <= b)
  }

  /** Loop bodies that suffice from a cursor on. */
  function Needed(cx: i32, cz: i32, at: Cursor): int {
    match at
    case AtRow(x) => 18 * (ScanLast(cx) - x + 1)
    case AtCell(x, z) => 18 * (ScanLast(cx) - x) + ScanLast(cz) - z + 1
  }

  /** Within the view: rows and cells between the two ends, or one past the last. */
  predicate Inside(cx: i32, cz: i32, at: Cursor) {
    match at
    case AtRow(x) => ScanFirst(cx) <= x <= ScanLast(cx) + 1
    case AtCell(x, z) => ScanFirst(cx) <= x <= ScanLast(cx) && ScanFirst(cz) <= z <= ScanLast(cz) + 1
  }

  predicate Narrow(cx: i32, cz: i32) {
    && ScanLast(cx) < MAX_I32 && ScanLast(cz) < MAX_I32
    && ScanLast(cx) - ScanFirst(cx) == 2 * VIEW_DISTANCE && ScanLast(cz) - ScanFirst(cz) == 2 * VIEW_DISTANCE
  }

  lemma {:induction false} WalkVisits(cx: i32, cz: i32, at: Cursor, rounds: nat, a: i32, b: i32)
    requires Narrow(cx, cz) && Inside(cx, cz, at) && rounds >= Needed(cx, cz, at)
    ensures var w := Walk(cx, cz, at, rounds);
            w.ended && ((a, b) in w.cols <==> Ahead(cx, cz, at, a, b))
    decreases rounds, if at.AtCell? then 1 else 0
  {
    hide ScanFirst, ScanLast, Walk, Ahead;
    WalkStep(cx, cz, at, rounds);
    AheadStep(cx, cz, at, a, b);
    match at {
      case AtRow(x) =>
        if x <= ScanLast(cx) {
          WalkVisits(cx, cz, AtCell(x, ScanFirst(cz)), rounds - 1, a, b);
        }
      case AtCell(x, z) =>
        if z > ScanLast(cz) {
          WalkVisits(cx, cz, AtRow(x + 1), rounds, a, b);
        } else {
          WalkVisits(cx, cz, AtCell(x, z + 1), rounds - 1, a, b);
        }
    }
  }

  lemma WalkStep(cx: i32, cz: i32, at: Cursor, rounds: nat)
    ensures Walk(cx, cz, at, rounds)
            == match at
               case AtRow(x) =>
                 if x > ScanLast(cx) then Walked([], true)
                 else if rounds == 0 then Walked([], false)
                 else Walk(cx, cz, AtCell(x, ScanFirst(cz)), rounds - 1)
               case AtCell(x, z) =>
                 if z > ScanLast(cz) then Walk(cx, cz, AtRow(AsI32(x + 1)), rounds)
                 else if rounds == 0 then Walked([], false)
                 else
                   var w := Walk(cx, cz, AtCell(x, AsI32(z + 1)), rounds - 1);
                   Walked([(x, z)] + w.cols, w.ended)
  {
    hide ScanFirst, ScanLast, AsI32;
  }

  lemma AheadStep(cx: i32, cz: i32, at: Cursor, a: i32, b: i32)
    requires Narrow(cx, cz) && Inside(cx, cz, at)
    ensures match at
            case AtRow(x) =>
              Ahead(cx, cz, at, a, b) <==> x <= ScanLast(cx) && Ahead(cx, cz, AtCell(x, ScanFirst(cz)), a, b)
            case AtCell(x, z) =>
              Ahead(cx, cz, at, a, b)
              <==> if z > ScanLast(cz) then Ahead(cx, cz, AtRow(x + 1), a, b)
                   else (a, b) == (x, z) || Ahead(cx, cz, AtCell(x, z + 1), a, b)
  {
    hide ScanFirst, ScanLast;
  }

  /** Rows without cells: the inner view overflows. */
  lemma {:induction false} WalkVisitsNone(cx: i32, cz: i32, at: Cursor, rounds: nat)
    requires ScanLast(cx) < MAX_I32 && ScanFirst(cz) > ScanLast(cz)
    requires at.AtRow? ==> at.x <= ScanLast(cx) + 1 && rounds >= ScanLast(cx) - at.x + 1
    requires at.AtCell? ==> at.x <= ScanLast(cx) && at.z > ScanLast(cz) && rounds >= ScanLast(cx) - at.x
    ensures Walk(cx, cz, at, rounds) == Walked([], true)
    decreases rounds, if at.AtCell? then 1 else 0
  {
    hide ScanFirst, ScanLast;
    match at {
      case AtRow(x) =>
        if x <= ScanLast(cx) {
          WalkVisitsNone(cx, cz, AtCell(x, ScanFirst(cz)), rounds - 1);
        }
      case AtCell(x, z) =>
        WalkVisitsNone(cx, cz, AtRow(x + 1), rounds);
    }
  }

  // ---- Scans that do not ----

  /** Once the inner loop runs up to the largest int32, or the outer one does, nothing ends them. */
  lemma {:induction false} WalkForever(cx: i32, cz: i32, at: Cursor, rounds: nat)
    requires ScanLast(cx) == MAX_I32 || (ScanLast(cz) == MAX_I32 && at.AtCell?)
    ensures !Walk(cx, cz, at, rounds).ended
    decreases rounds, if at.AtCell? then 1 else 0
  {
    hide ScanFirst, ScanLast;
    match at {
      case AtRow(x) =>
        if rounds > 0 {
          WalkForever(cx, cz, AtCell(x, ScanFirst(cz)), rounds - 1);
        }
      case AtCell(x, z) =>
        if z > ScanLast(cz) {
          WalkForever(cx, cz, AtRow(AsI32(x + 1)), rounds);
        } else if rounds > 0 {
          WalkForever(cx, cz, AtCell(x, AsI32(z + 1)), rounds - 1);
        }
    }
  }

  // ---- The scan as a whole ----

  /** A scan ends or not as `ScanEnds` says, and within the first rounds if at all;
    * one that ends has visited exactly the wanted columns: the whole square, or
    * nothing when one side overflows 32 bits. */
  lemma ScanIsWant(cx: i32, cz: i32, rounds: nat)
    requires rounds >= SCAN_ROUNDS
    ensures var w := Scan(cx, cz, rounds);
            && (w.ended <==> ScanEnds(cx, cz))
            && (w.ended ==> forall c :: c in w.cols <==> c in Want(cx, cz))
  {
    hide Walk;
    SideOverflow(cx);
    SideOverflow(cz);
    if ScanEnds(cx, cz) {
      if !Fits(cx) {
        EmptyOuter(cx, cz, rounds);
      } else if !Fits(cz) {
        WalkVisitsNone(cx, cz, AtRow(ScanFirst(cx)), rounds);
      } else {
        forall a: i32, b: i32
          ensures Scan(cx, cz, rounds).ended
          ensures (a, b) in Scan(cx, cz, rounds).cols <==> Ahead(cx, cz, AtRow(ScanFirst(cx)), a, b)
        {
          WalkVisits(cx, cz, AtRow(ScanFirst(cx)), rounds, a, b);
        }
        WalkVisits(cx, cz, AtRow(ScanFirst(cx)), rounds, 0, 0);
        SquareAhead(cx, cz, Scan(cx, cz, rounds).cols);
      }
    } else {
      NeverEnds(cx, cz, rounds);
    }
  }

  lemma EmptyOuter(cx: i32, cz: i32, rounds: nat)
    requires ScanFirst(cx) > ScanLast(cx)
    ensures Scan(cx, cz, rounds) == Walked([], true)
  {
  }

  lemma SquareAhead(cx: i32, cz: i32, cols: seq<ChunkPos>)
    requires Fits(cx) && Fits(cz)
    requires forall a: i32, b: i32 :: (a, b) in cols <==> Ahead(cx, cz, AtRow(ScanFirst(cx)), a, b)
    ensures forall c :: c in cols <==> c in Want(cx, cz)
  {
    forall c: ChunkPos ensures c in cols <==> c in Want(cx, cz) {
      var (a, b) := c;
      assert c == (a, b);
    }
  }

  lemma NeverEnds(cx: i32, cz: i32, rounds: nat)
    requires !ScanEnds(cx, cz)
    ensures !Scan(cx, cz, rounds).ended
  {
    hide ScanFirst, ScanLast;
    if ScanLast(cx) == MAX_I32 {
      WalkForever(cx, cz, AtRow(ScanFirst(cx)), rounds);
    } else if rounds > 0 {
      WalkForever(cx, cz, AtCell(ScanFirst(cx), ScanFirst(cz)), rounds - 1);
    }
  }

  /** However long it is watched, the scan ends at some time exactly when `ScanEnds` says so. */
  lemma ScanEndsIff(cx: i32, cz: i32)
    ensures (exists rounds :: Scan(cx, cz, rounds).ended) <==> ScanEnds(cx, cz)
  {
    hide Scan, ScanEnds;
    if ScanEnds(cx, cz) {
      ScanIsWant(cx, cz, SCAN_ROUNDS);
      assert Scan(cx, cz, SCAN_ROUNDS).ended;
    } else {
      forall rounds: nat ensures !Scan(cx, cz, rounds).ended {
        NeverEnds(cx, cz, rounds);
      }
    }
  }

  const LAST_CENTRE: i32 := 2147483639

  /** The one centre, on either axis, whose view ends exactly at the largest int32:
    * a player at 34359738224 blocks is in that chunk. */
  lemma EndlessCentre(su: Setup, c: i32)
    ensures ScanLast(c) == MAX_I32 <==> c == LAST_CENTRE
    ensures ChunkOf(su, 34359738224.0) == LAST_CENTRE
    ensures !ScanEnds(LAST_CENTRE, c) && !ScanEnds(0, LAST_CENTRE)
  {
    assert (34359738224.0 / 16.0).Floor == LAST_CENTRE;
  }
}
