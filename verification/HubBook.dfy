/** What clients show over whole runs, exactly, as a book kept while the hub runs:
  * which UUIDs a client lists, when it saw an entity ahead of its profile, and
  * which of the blocks it was told of are current. */
module HubBook {
  import opened Bytes
  import opened World
  import opened Hub
  import opened HubViews
  import Codec

  /** Since a viewer's join: the UUIDs whose last processed join or leave was a
    * leave, whether nobody has jumped under such a UUID, and the changes made to
    * the world. */
  datatype Book = Book(left: set<Uuid>, ordered: bool, changes: seq<Change>)

  const NEW_BOOK := Book({}, true, [])

  function Noted(s: State, ev: Event, v: EntityId, b: Book): Book {
    match ev
    case Join(r, _, _) => if r.eid == v then NEW_BOOK else b.(left := b.left - {r.uuid})
    case Leave(eid) => if eid in s.players then b.(left := b.left + {s.players[eid].uuid}) else b
    case Move(m) =>
      if m.eid in s.players && m.eid != v && Classify(s.players[m.eid], m).Jumped? && s.players[m.eid].uuid in b.left
      then b.(ordered := false) else b
    case SetBlock(c) => if Effective(s, ev) then b.(changes := b.changes + [c]) else b
    case _ => b
  }

  function BookOf(s: State, run: seq<Event>, v: EntityId, b: Book): Book
    requires PossibleRun(s, run)
    decreases run
  {
    if run == [] then b else BookOf(Apply(s, run[0]), run[1..], v, Noted(s, run[0], v, b))
  }

  ghost predicate Online(players: Players, u: Uuid) {
    exists e :: e in players && players[e].uuid == u
  }

  /** Listed are exactly the online UUIDs that are not booked as left, each with the
    * profile of an online owner. */
  ghost predicate ListedAsBooked(players: Players, listed: map<Uuid, Profile>, left: set<Uuid>) {
    && (forall u :: u in listed <==> Online(players, u) && u !in left)
    && (forall u :: u in listed ==> exists e :: Owner(players, e, u, listed[u]))
  }

  /** The last change that clients are told was made at `p`. */
  function LastTold(changes: seq<Change>, p: Pos): (r: Option<Change>)
    ensures r.Some? ==> ToldAt(r.value) == p && r.value in changes
  {
    if changes == [] then None
    else
      var c := changes[|changes| - 1];
      if ToldAt(c) == p then Some(c) else LastTold(changes[..|changes| - 1], p)
  }

  /** The blocks a client was told of are the changes since its join, each where
    * packing puts it; the last one told of at a position is the world's if it was
    * made there. */
  ghost predicate BlocksAsTold(world: Option<Store>, blocks: map<Pos, i32>, changes: seq<Change>) {
    && (forall p :: p in blocks <==> LastTold(changes, p).Some?)
    && forall p :: p in blocks ==>
         var c := LastTold(changes, p).value;
         && world.Some? && Buildable(p.1) && blocks[p] == AsI32(c.state)
         && (At(c) == p ==> StateAt(world.value, p) == c.state)
  }

  ghost predicate Booked(s: State, v: EntityId, b: Book) {
    v in s.players && s.players[v].out.drops == 0 ==>
      var c := ViewOf(s.players[v]);
      ListedAsBooked(s.players, c.listed, b.left) && c.ordered == b.ordered
      && BlocksAsTold(s.world, c.blocks, b.changes)
  }

  /** Every event keeps a booked list booked. */
  lemma ListedNoted(s: State, ev: Event, v: EntityId, players: Players, listed: map<Uuid, Profile>, b: Book)
    requires Possible(s, ev) && Roster(s, ev, players) && v in s.players && ListedAsBooked(s.players, listed, b.left)
    ensures ListedAsBooked(players, ListedAfter(s, ev, listed), Noted(s, ev, v, b).left)
  {
    hide Roster, VisitsAll, Classify;
    PeopleStay(s, ev, players);
    var (after, left) := (ListedAfter(s, ev, listed), Noted(s, ev, v, b).left);
    forall u ensures u in after <==> Online(players, u) && u !in left {
      OnlineAfter(s, ev, players, u);
    }
    forall u | u in after ensures exists e :: Owner(players, e, u, after[u]) {
      if ev.Join? && u == ev.r.uuid {
        assert Owner(players, ev.r.eid, u, after[u]);
      } else {
        var e :| Owner(s.players, e, u, listed[u]);
        assert Owner(players, e, u, after[u]);
      }
    }
  }

  /** Who is online under a UUID after an event. */
  lemma OnlineAfter(s: State, ev: Event, players: Players, u: Uuid)
    requires Possible(s, ev) && Roster(s, ev, players)
    ensures ev.Join? ==> (Online(players, u) <==> Online(s.players, u) || u == ev.r.uuid)
    ensures ev.Leave? && ev.eid in s.players && u == s.players[ev.eid].uuid ==> Online(s.players, u)
    ensures !ev.Join? && !(ev.Leave? && ev.eid in s.players && u == s.players[ev.eid].uuid) ==>
              (Online(players, u) <==> Online(s.players, u))
  {
    hide Roster, VisitsAll;
    PeopleStay(s, ev, players);
    if Online(s.players, u) {
      var e :| e in s.players && s.players[e].uuid == u;
      assert e in players ==> players[e].uuid == u;
    }
    if Online(players, u) {
      var e :| e in players && players[e].uuid == u;
      assert e in s.players ==> s.players[e].uuid == u;
    }
    if ev.Join? {
      assert ev.r.eid in players && players[ev.r.eid].uuid == ev.r.uuid;
    }
  }

  /** A player that jumps is online, so it is listed exactly when it is not booked as left. */
  lemma OrderNoted(s: State, ev: Event, v: EntityId, c: Client, b: Book)
    requires v in s.players && Possible(s, ev) && ListedAsBooked(s.players, c.listed, b.left) && c.ordered == b.ordered
    ensures OrderedAfter(s, ev, v, c) == Noted(s, ev, v, b).ordered
  {
    hide Classify, VisitsAll;
    if ev.Move? && ev.m.eid in s.players {
      assert Online(s.players, s.players[ev.m.eid].uuid);
    }
  }

  lemma LastToldOf(changes: seq<Change>, c: Change, p: Pos)
    ensures LastTold(changes + [c], p) == if ToldAt(c) == p then Some(c) else LastTold(changes, p)
  {
    assert (changes + [c])[..|changes|] == changes;
  }

  /** Every change keeps the told blocks booked. */
  lemma BlocksNoted(store: Store, c: Change, blocks: map<Pos, i32>, changes: seq<Change>)
    requires Buildable(c.y) && BlocksAsTold(Some(store), blocks, changes)
    ensures BlocksAsTold(Some(Updated(store, c)), blocks[ToldAt(c) := AsI32(c.state)], changes + [c])
  {
    hide Updated, StateAt, LastTold, ToldAt;
    var after := blocks[ToldAt(c) := AsI32(c.state)];
    forall p: Pos ensures LastTold(changes + [c], p) == if ToldAt(c) == p then Some(c) else LastTold(changes, p) {
      LastToldOf(changes, c, p);
    }
    forall p | p in after && At(LastTold(changes + [c], p).value) == p
      ensures StateAt(Updated(store, c), p) == LastTold(changes + [c], p).value.state
    {
      StateAfterUpdate(store, c, p);
      SameTold(LastTold(changes + [c], p).value, c);
    }
  }

  lemma SameTold(a: Change, b: Change)
    ensures At(a) == At(b) ==> ToldAt(a) == ToldAt(b)
  {
    hide Codec.AsPacked;
  }

  lemma WorldNoted(s: State, ev: Event, v: EntityId, blocks: map<Pos, i32>, b: Book)
    requires v in s.players && Possible(s, ev) && BlocksAsTold(s.world, blocks, b.changes)
    ensures BlocksAsTold(WorldAfter(s, ev), BlocksAfter(s, ev, blocks), Noted(s, ev, v, b).changes)
  {
    hide Updated, BlocksAsTold, VisitsAll, Classify, ToldAt;
    if Effective(s, ev) {
      BlocksNoted(s.world.value, ev.c, blocks, b.changes);
    }
  }

  lemma StepBooked(s: State, ev: Event, v: EntityId, b: Book)
    requires Possible(s, ev) && AllSee(s) && Booked(s, v, b)
    ensures Booked(Apply(s, ev), v, Noted(s, ev, v, b))
  {
    hide Apply, Told, Roster, SpawnedExactly, ReplayFrom, ViewOf, Welcome, VisitsAll;
    hide ListedExactly, ListedAsBooked, BlocksAsTold, Noted, ListedAfter, OrderedAfter;
    var s' := Apply(s, ev);
    RosterAfter(s, ev);
    WorldApplied(s, ev);
    if v in s'.players && s'.players[v].out.drops == 0 {
      if v in s.players {
        ToldDelivered(s, ev, v);
        var c := ViewOf(s.players[v]);
        StepView(s, ev, s'.players, v, c);
        ListedNoted(s, ev, v, s'.players, c.listed, b);
        OrderNoted(s, ev, v, c, b);
        WorldNoted(s, ev, v, c.blocks, b);
      } else {
        OnlyJoinAdds(s, ev, v);
        NewcomerDelivered(s, ev);
        WelcomeShows(s, ev.r, ev, s'.players);
        FirstBook(s, ev, v, b, s', ViewOf(s'.players[v]).listed);
      }
    }
  }

  /** A newcomer's list is exact and its book empty. */
  lemma FirstBook(s: State, ev: Event, v: EntityId, b: Book, s': State, listed: map<Uuid, Profile>)
    requires ev.Join? && ev.r.eid == v && ListedExactly(s'.players, listed)
    ensures Noted(s, ev, v, b) == NEW_BOOK && ListedAsBooked(s'.players, listed, {})
    ensures BlocksAsTold(s'.world, map[], [])
  {
    forall u ensures u in listed <==> Online(s'.players, u) {
      if u in listed {
        var e :| Owner(s'.players, e, u, listed[u]);
        assert e in s'.players && s'.players[e].uuid == u;
      }
    }
  }

  lemma {:induction false} EveryRunBooked(s: State, run: seq<Event>, v: EntityId, b: Book)
    requires AllSee(s) && Booked(s, v, b) && PossibleRun(s, run)
    ensures Booked(RunFrom(s, run), v, BookOf(s, run, v, b))
    decreases run
  {
    hide AllSee, Apply, Possible, Booked, Noted;
    if run != [] {
      StepAllSee(s, run[0]);
      StepBooked(s, run[0], v, b);
      EveryRunBooked(Apply(s, run[0]), run[1..], v, Noted(s, run[0], v, b));
    }
  }

  /** Over every run from an empty hub, a client nothing was dropped for has spawned
    * exactly the other online players as the hub has them. It lists a UUID if and
    * only if somebody is online under it and, since the client's own join, the last
    * processed join or leave under it was not a leave; every listed profile is that
    * of an online owner. It saw an entity ahead of its profile if and only if
    * somebody jumped while unlisted. It was told of the blocks changed since its
    * join, each at the position that packing leaves; one is current if and only if
    * the last change told of there was made there, or made the state that the
    * hub's world has there. */
  lemma PresenceReplay(world: Option<Store>, run: seq<Event>, v: EntityId)
    requires PossibleRun(Start(world), run)
    requires var s := RunFrom(Start(world), run); v in s.players && s.players[v].out.drops == 0
    ensures var s := RunFrom(Start(world), run); var c := ViewOf(s.players[v]);
            var b := BookOf(Start(world), run, v, NEW_BOOK);
            && c.known && SpawnedExactly(s.players, v, c.spawned)
            && ListedAsBooked(s.players, c.listed, b.left) && c.ordered == b.ordered
            && (forall p :: p in c.blocks <==> LastTold(b.changes, p).Some?)
            && forall p :: p in c.blocks ==>
                 var last := LastTold(b.changes, p).value;
                 && s.world.Some? && Buildable(p.1) && c.blocks[p] == AsI32(last.state)
                 && (c.blocks[p] == AsI32(StateAt(s.world.value, p))
                     <==> At(last) == p || last.state == StateAt(s.world.value, p))
  {
    hide PossibleRun, RunFrom, BookOf, ViewOf, SpawnedExactly, ListedAsBooked, StateAt, LastTold;
    EveryRunSees(Start(world), run);
    EveryRunBooked(Start(world), run, v, NEW_BOOK);
  }

  /** So the blocks a client was told of are all current when every change since its
    * join was made where positions can be packed. */
  lemma BlocksWithinLimits(world: Option<Store>, run: seq<Event>, v: EntityId)
    requires PossibleRun(Start(world), run)
    requires var s := RunFrom(Start(world), run); v in s.players && s.players[v].out.drops == 0
    requires forall c :: c in BookOf(Start(world), run, v, NEW_BOOK).changes ==> Codec.PositionFits(c.x, c.y, c.z)
    ensures var s := RunFrom(Start(world), run); BlocksCurrent(s.world, ViewOf(s.players[v]).blocks)
  {
    hide PossibleRun, RunFrom, BookOf, ViewOf, SpawnedExactly, ListedAsBooked, StateAt, LastTold;
    PresenceReplay(world, run, v);
    var b := BookOf(Start(world), run, v, NEW_BOOK);
    forall c | c in b.changes ensures ToldAt(c) == At(c) {
      Codec.PackedFits(At(c));
    }
  }

  /** Without a shared leave the list is simply the online players, and no entity came early. */
  lemma ListsWithoutSharedLeaves(world: Option<Store>, run: seq<Event>, v: EntityId)
    requires PossibleRun(Start(world), run) && NoSharedLeave(Start(world), run)
    requires var s := RunFrom(Start(world), run); v in s.players && s.players[v].out.drops == 0
    ensures var s := RunFrom(Start(world), run); var c := ViewOf(s.players[v]);
            c.ordered && ListedExactly(s.players, c.listed)
  {
    hide PossibleRun, RunFrom, NoSharedLeave, ViewOf, ListedExactly;
    EveryRunLists(Start(world), run);
  }

  /** Right after any leave no client lists the leaver's UUID, whoever else is online under it. */
  lemma LeaveUnlistsEverywhere(s: State, eid: EntityId, v: EntityId)
    requires AllSee(s) && eid in s.players
    requires var s' := Apply(s, Leave(eid)); v in s'.players && s'.players[v].out.drops == 0
    ensures s.players[eid].uuid !in ViewOf(Apply(s, Leave(eid)).players[v]).listed
  {
    hide Apply, Told, Roster, SpawnedExactly, ReplayFrom, ViewOf, Welcome, VisitsAll;
    var s' := Apply(s, Leave(eid));
    RosterAfter(s, Leave(eid));
    OnlyJoins(s, Leave(eid), v);
    ToldDelivered(s, Leave(eid), v);
    StepView(s, Leave(eid), s'.players, v, ViewOf(s.players[v]));
  }

  lemma OnlyJoins(s: State, ev: Event, v: EntityId)
    requires Possible(s, ev) && !ev.Join? && v in Apply(s, ev).players
    ensures v in s.players
  {
    hide Apply;
    if v !in s.players {
      OnlyJoinAdds(s, ev, v);
    }
  }
}
