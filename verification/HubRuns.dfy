/** Properties of whole hub runs beside the clients' views: movement never drifts,
  * the world is the history of its changes, and who is online. */
module HubRuns {
  import opened Bytes
  import opened Chunk
  import opened World
  import opened Hub
  import opened HubViews
  import opened HubBook
  import Codec
  import Session

  // ---- Distinct UUIDs ----

  ghost predicate DistinctUuids(players: Players) {
    forall a, b :: a in players && b in players && players[a].uuid == players[b].uuid ==> a == b
  }

  /** Nobody joins under a UUID that is online. */
  predicate FreshUuids(s: State, run: seq<Event>)
    requires PossibleRun(s, run)
    decreases run
  {
    run == []
    || (&& (run[0].Join? ==> forall e :: e in s.players ==> s.players[e].uuid != run[0].r.uuid)
        && FreshUuids(Apply(s, run[0]), run[1..]))
  }

  lemma StepKeepsDistinct(s: State, ev: Event)
    requires Possible(s, ev) && DistinctUuids(s.players)
    requires ev.Join? ==> forall e :: e in s.players ==> s.players[e].uuid != ev.r.uuid
    ensures DistinctUuids(Apply(s, ev).players) && !SharedLeave(s, ev)
  {
    hide Apply, Roster, Possible;
    RosterAfter(s, ev);
    PeopleStay(s, ev, Apply(s, ev).players);
  }

  lemma {:induction false} FreshUuidsSuffice(s: State, run: seq<Event>)
    requires PossibleRun(s, run) && DistinctUuids(s.players) && FreshUuids(s, run)
    ensures NoSharedLeave(s, run) && DistinctUuids(RunFrom(s, run).players)
    decreases run
  {
    hide Apply, DistinctUuids, SharedLeave, Possible;
    if run != [] {
      StepKeepsDistinct(s, run[0]);
      FreshUuidsSuffice(Apply(s, run[0]), run[1..]);
    }
  }

  /** While UUIDs of online players are distinct, an undropped client's player list
    * is the registry itself: UUID by UUID, each with its own profile. */
  lemma PlayerListIsRegistry(world: Option<Store>, run: seq<Event>, v: EntityId)
    requires PossibleRun(Start(world), run) && FreshUuids(Start(world), run)
    requires var s := RunFrom(Start(world), run); v in s.players && s.players[v].out.drops == 0
    ensures var s := RunFrom(Start(world), run); var c := ViewOf(s.players[v]);
            && c.ordered
            && (forall e :: e in s.players ==>
                  s.players[e].uuid in c.listed && c.listed[s.players[e].uuid] == s.players[e].profile)
            && (forall u :: u in c.listed ==> exists e :: e in s.players && s.players[e].uuid == u)
  {
    hide PossibleRun, RunFrom, FreshUuids, NoSharedLeave, ViewOf, SpawnedExactly;
    FreshUuidsSuffice(Start(world), run);
    ListsWithoutSharedLeaves(world, run, v);
    var s := RunFrom(Start(world), run);
    var c := ViewOf(s.players[v]);
    forall e | e in s.players ensures c.listed[s.players[e].uuid] == s.players[e].profile {
      var o :| Owner(s.players, o, s.players[e].uuid, c.listed[s.players[e].uuid]);
      assert o == e;
    }
  }

  lemma {:induction false} RoomDelivers(o: Outbox, ps: seq<Packet>)
    requires o.pending + |ps| <= o.capacity
    ensures EnqueueAll(o, ps) == o.(log := o.log + ps, pending := o.pending + |ps|)
    decreases ps
  {
    if ps == [] {
      assert o.log + ps == o.log;
    } else {
      RoomDelivers(Enqueue(o, ps[0]), ps[1..]);
      assert o.log + ps == o.log + [ps[0]] + ps[1..];
    }
  }

  function SharedRun(r1: JoinRequest, r2: JoinRequest): seq<Event> {
    [Join(r1, [], []), Join(r2, [r1.eid], [r1.eid]), Leave(r1.eid)]
  }

  lemma SharedRunStates(r1: JoinRequest, r2: JoinRequest, world: Option<Store>)
    requires r1.eid != r2.eid && r2.capacity >= 4
    ensures var (s, run) := (Start(world), SharedRun(r1, r2));
            && Possible(s, run[0]) && Possible(Apply(s, run[0]), run[1])
            && var s2 := Apply(Apply(s, run[0]), run[1]);
               && Possible(s2, run[2]) && s2.players.Keys == {r1.eid, r2.eid}
               && s2.players[r1.eid].uuid == r1.uuid && s2.players[r2.eid].uuid == r2.uuid
               && r2.eid in Apply(s2, run[2]).players && Apply(s2, run[2]).players[r2.eid].out.drops == 0
  {
    hide EnqueueAll, DegToAngle;
    var (s, run) := (Start(world), SharedRun(r1, r2));
    var s1 := Apply(s, run[0]);
    assert s1.players.Keys == {r1.eid};
    assert VisitsAll([r1.eid], s1.players);
    var o := PlayerOf(r2).out;
    var w := Welcome(s1.players, PlayerOf(r2), [r1.eid], [r1.eid]);
    RoomDelivers(o, w);
    var s2 := Apply(s1, run[1]);
    RoomDelivers(s2.players[r2.eid].out, [RemoveEntities([r1.eid]), PlayerInfoRemove([r1.uuid])]);
  }

  /** Two players under one UUID: when the first leaves, the second is missing from
    * its own list, although nothing was dropped. */
  lemma SharedUuidUnlists(r1: JoinRequest, r2: JoinRequest, world: Option<Store>)
    requires r1.eid != r2.eid && r1.uuid == r2.uuid && r2.capacity >= 4
    ensures var (s, run) := (Start(world), SharedRun(r1, r2));
            && PossibleRun(s, run)
            && var end := RunFrom(s, run).players;
               && r2.eid in end && end[r2.eid].out.drops == 0
               && r2.uuid !in ViewOf(end[r2.eid]).listed
  {
    hide Apply, Possible, ViewOf, SharedLeave, AllSee, AllList;
    var (s, run) := (Start(world), SharedRun(r1, r2));
    SharedRunStates(r1, r2, world);
    ThreeEvents(s, run[0], run[1], run[2]);
    SecondUnlisted(r1, r2, world);
  }

  lemma ThreeEvents(s: State, a: Event, b: Event, c: Event)
    requires Possible(s, a) && Possible(Apply(s, a), b) && Possible(Apply(Apply(s, a), b), c)
    ensures PossibleRun(s, [a, b, c]) && RunFrom(s, [a, b, c]) == Apply(Apply(Apply(s, a), b), c)
  {
    hide Apply, Possible;
    assert [a, b, c][1..] == [b, c] && [b, c][1..] == [c] && [c][1..] == [];
    var s2 := Apply(Apply(s, a), b);
    assert PossibleRun(Apply(s2, c), []) && RunFrom(Apply(s2, c), []) == Apply(s2, c);
    assert PossibleRun(s2, [c]) && RunFrom(s2, [c]) == Apply(s2, c);
    assert PossibleRun(Apply(s, a), [b, c]) && RunFrom(Apply(s, a), [b, c]) == Apply(s2, c);
  }

  lemma SecondUnlisted(r1: JoinRequest, r2: JoinRequest, world: Option<Store>)
    requires r1.eid != r2.eid && r1.uuid == r2.uuid && r2.capacity >= 4
    requires var (s, run) := (Start(world), SharedRun(r1, r2));
             Possible(s, run[0]) && Possible(Apply(s, run[0]), run[1])
    ensures var (s, run) := (Start(world), SharedRun(r1, r2));
            var end := Apply(Apply(Apply(s, run[0]), run[1]), run[2]).players;
            r2.eid in end && r2.uuid !in ViewOf(end[r2.eid]).listed
  {
    hide Apply, Possible, ViewOf, AllSee;
    var (s, run) := (Start(world), SharedRun(r1, r2));
    SharedRunStates(r1, r2, world);
    StartSees(world);
    StepAllSee(s, run[0]);
    StepAllSee(Apply(s, run[0]), run[1]);
    LeaveUnlistsEverywhere(Apply(Apply(s, run[0]), run[1]), r1.eid, r2.eid);
  }

  lemma StartSees(world: Option<Store>)
    ensures AllSee(Start(world))
  {
  }

  // ---- Blocks placed beyond the packed range ----

  function PlacedRun(r: JoinRequest, c: Change): seq<Event> { [Join(r, [], []), SetBlock(c)] }

  lemma PlacedRunStates(r: JoinRequest, c: Change)
    requires r.capacity >= 2
    ensures var (s, run) := (Start(Some(map[])), PlacedRun(r, c));
            && Possible(s, run[0])
            && var s1 := Apply(s, run[0]);
               && s1.players.Keys == {r.eid} && s1.world == s.world && s1.players[r.eid].out.drops == 0
               && ViewOf(s1.players[r.eid]).blocks == map[] && Possible(s1, run[1])
               && r.eid in Apply(s1, run[1]).players && Apply(s1, run[1]).players[r.eid].out.drops == 0
  {
    hide EnqueueAll, DegToAngle, ViewOf, ReplayFrom;
    var (s, run) := (Start(Some(map[])), PlacedRun(r, c));
    var s1 := Apply(s, run[0]);
    RoomDelivers(PlayerOf(r).out, Welcome(map[], PlayerOf(r), [], []));
    NewcomerDelivered(s, run[0]);
    RosterAfter(s, run[0]);
    WelcomeShows(s, r, run[0], s1.players);
    RoomDelivers(s1.players[r.eid].out, [UpdatePacket(c)]);
  }

  /** A player clicks a position that fits, and the cell next to it does not fit: the
    * hub's world changes there, and the client is told of a change elsewhere. */
  lemma PlacedBeyond(r: JoinRequest, x: i32, y: i32, z: i32, face: i32, state: u32)
    requires r.capacity >= 2 && Codec.PositionFits(x, y, z)
    requires var p := Session.PlaceAgainst(x, y, z, face);
             !Codec.PositionFits(p.0, p.1, p.2) && Buildable(p.1) && state != FlatAt(p.1)
    ensures var p := Session.PlaceAgainst(x, y, z, face);
            var c := Change(p.0, p.1, p.2, state);
            var (s, run) := (Start(Some(map[])), PlacedRun(r, c));
            && PossibleRun(s, run)
            && var end := RunFrom(s, run);
               && r.eid in end.players && end.players[r.eid].out.drops == 0
               && ViewOf(end.players[r.eid]).blocks == map[ToldAt(c) := AsI32(state)] && ToldAt(c) != p
               && end.world.Some? && StateAt(end.world.value, p) == state
               && StateAt(end.world.value, ToldAt(c)) == FlatAt(p.1)
  {
    hide Apply, Possible, ViewOf, AllSee, StateAt, Updated, Codec.AsPacked, Codec.PositionFits;
    var p := Session.PlaceAgainst(x, y, z, face);
    var c := Change(p.0, p.1, p.2, state);
    var (s, run) := (Start(Some(map[])), PlacedRun(r, c));
    PlacedRunStates(r, c);
    var s1 := Apply(s, run[0]);
    TwoEvents(s, run[0], run[1]);
    StartSees(s.world);
    StepAllSee(s, run[0]);
    Codec.PackedFits(p);
    FlatWorld(ToldAt(c));
    WorldApplied(s1, run[1]);
    StateAfterUpdate(map[], c, p);
    StateAfterUpdate(map[], c, ToldAt(c));
    OneBlockTold(s1, c, r.eid);
  }

  lemma FlatWorld(p: Pos)
    requires Buildable(p.1)
    ensures StateAt(map[], p) == FlatAt(p.1)
  {
    AddressOfPosition(p.0, p.1, p.2);
    StoreHoldsHistory([], ChunkCoord(p.0), ChunkCoord(p.2), BlockIndex(p.0, p.1, p.2).value);
  }

  lemma OneBlockTold(s: State, c: Change, v: EntityId)
    requires AllSee(s) && v in s.players && Effective(s, SetBlock(c)) && ViewOf(s.players[v]).blocks == map[]
    requires var s' := Apply(s, SetBlock(c)); v in s'.players && s'.players[v].out.drops == 0
    ensures ViewOf(Apply(s, SetBlock(c)).players[v]).blocks == map[ToldAt(c) := AsI32(c.state)]
  {
    hide Apply, Told, ViewOf, ReplayFrom, SpawnedExactly;
    RosterAfter(s, SetBlock(c));
    ToldDelivered(s, SetBlock(c), v);
    StepView(s, SetBlock(c), Apply(s, SetBlock(c)).players, v, ViewOf(s.players[v]));
  }

  lemma TwoEvents(s: State, a: Event, b: Event)
    requires Possible(s, a) && Possible(Apply(s, a), b)
    ensures PossibleRun(s, [a, b]) && RunFrom(s, [a, b]) == Apply(Apply(s, a), b)
  {
    hide Apply, Possible;
    assert [a, b][1..] == [b] && [b][1..] == [];
    var s2 := Apply(Apply(s, a), b);
    assert PossibleRun(s2, []) && RunFrom(s2, []) == s2;
    assert PossibleRun(Apply(s, a), [b]) && RunFrom(Apply(s, a), [b]) == s2;
  }

  /** The eastern edge: a click at x = 33554431 on the east face places at 33554432,
    * and the clients are told of x = -33554432. */
  lemma PlacedEast(r: JoinRequest, y: i32, z: i32, state: u32)
    requires r.capacity >= 2 && Buildable(y) && -0x200_0000 <= z < 0x200_0000 && state != FlatAt(y)
    ensures var c := Change(0x200_0000, y, z, state);
            && Session.PlaceAgainst(0x1FF_FFFF, y, z, 5) == At(c) && ToldAt(c) == (-0x200_0000, y, z)
            && PossibleRun(Start(Some(map[])), PlacedRun(r, c))
            && var end := RunFrom(Start(Some(map[])), PlacedRun(r, c));
               && r.eid in end.players && end.players[r.eid].out.drops == 0
               && ViewOf(end.players[r.eid]).blocks == map[(-0x200_0000, y, z) := AsI32(state)]
               && end.world.Some? && StateAt(end.world.value, (-0x200_0000, y, z)) != state
  {
    hide PossibleRun, RunFrom, ViewOf, StateAt, Codec.AsPacked;
    Codec.PackedFits((0x200_0000, y, z));
    PlacedBeyond(r, 0x1FF_FFFF, y, z, 5, state);
  }

  // ---- Movement ----

  function After(p: Player, moves: seq<MoveRequest>): Player
    decreases moves
  {
    if moves == [] then p else After(Moved(p, moves[0]), moves[1..])
  }

  function Sent(p: Player, moves: seq<MoveRequest>): seq<Packet>
    decreases moves
  {
    if moves == [] then [] else MovePackets(p, moves[0]) + Sent(Moved(p, moves[0]), moves[1..])
  }

  /** What a listener accumulates: the last spawn position and the sums of the deltas since. */
  datatype Track = Track(spawn: Vec, dx: int, dy: int, dz: int)

  function Heard(t: Track, p: Packet): Track {
    match p
    case AddEntity(_, _, pos, _, _, _) => Track(pos, 0, 0, 0)
    case MoveEntityPos(_, d, _) => Track(t.spawn, t.dx + d.dx, t.dy + d.dy, t.dz + d.dz)
    case MoveEntityPosRot(_, d, _, _, _) => Track(t.spawn, t.dx + d.dx, t.dy + d.dy, t.dz + d.dz)
    case _ => t
  }

  function Follow(t: Track, ps: seq<Packet>): Track
    decreases ps
  {
    if ps == [] then t else Follow(Heard(t, ps[0]), ps[1..])
  }

  function PositionOn(t: Track): Vec {
    Vec(t.spawn.x + t.dx as real / POSITION_DELTA_UNIT,
        t.spawn.y + t.dy as real / POSITION_DELTA_UNIT,
        t.spawn.z + t.dz as real / POSITION_DELTA_UNIT)
  }

  lemma {:induction false} FollowAppend(t: Track, a: seq<Packet>, b: seq<Packet>)
    ensures Follow(t, a + b) == Follow(Follow(t, a), b)
    decreases a
  {
    hide Heard;
    if a == [] {
      assert a + b == b;
    } else {
      FollowAppend(Heard(t, a[0]), a[1..], b);
      assert (a + b)[1..] == a[1..] + b;
    }
  }

  lemma FollowNothing(t: Track)
    ensures Follow(t, []) == t
  {
  }

  lemma FollowPair(t: Track, p: Packet, q: Packet)
    ensures Follow(t, [p]) == Heard(t, p)
    ensures Follow(t, [p, q]) == Heard(Heard(t, p), q)
  {
    hide Heard;
    assert [p, q][1..] == [q] && [q][1..] == [] && [p][1..] == [];
    assert Follow(Heard(t, p), []) == Heard(t, p);
    assert Follow(Heard(t, p), [q]) == Follow(Heard(Heard(t, p), q), []);
  }

  lemma OneMoveFollowed(p: Player, t: Track, m: MoveRequest)
    requires PositionOn(t) == p.pos
    ensures PositionOn(Follow(t, MovePackets(p, m))) == Moved(p, m).pos
  {
    hide DegToAngle, Trunc, Follow, Classify;
    var ps := MovePackets(p, m);
    if |ps| == 2 {
      FollowPair(t, ps[0], ps[1]);
    } else if |ps| == 1 {
      FollowPair(t, ps[0], ps[0]);
    } else {
      FollowNothing(t);
    }
    if Classify(p, m).Stepped? {
      StillSteps(p, m);
    }
  }

  /** The recorded position is the last spawn position plus the sum of the deltas
    * sent since, over 4096, after any sequence of moves. */
  lemma {:induction false} NoDrift(p: Player, t: Track, moves: seq<MoveRequest>)
    requires PositionOn(t) == p.pos
    ensures PositionOn(Follow(t, Sent(p, moves))) == After(p, moves).pos
    decreases moves
  {
    hide MovePackets, Moved, Heard, PositionOn;
    if moves != [] {
      var ps := MovePackets(p, moves[0]);
      OneMoveFollowed(p, t, moves[0]);
      FollowAppend(t, ps, Sent(Moved(p, moves[0]), moves[1..]));
      NoDrift(Moved(p, moves[0]), Follow(t, ps), moves[1..]);
    }
  }

  function MovesOf(run: seq<Event>, e: EntityId): seq<MoveRequest> {
    if run == [] then []
    else if run[0].Move? && run[0].m.eid == e then [run[0].m] + MovesOf(run[1..], e)
    else MovesOf(run[1..], e)
  }

  /** Whatever else happens in between, a player's record changes by its own moves only. */
  lemma {:induction false} RecordIsOwnMoves(s: State, run: seq<Event>, e: EntityId)
    requires PossibleRun(s, run) && e in s.players && Leave(e) !in run
    ensures e in RunFrom(s, run).players
    ensures SamePerson(After(s.players[e], MovesOf(run, e)), RunFrom(s, run).players[e])
    decreases run
  {
    hide Apply, Moved, VisitsAll;
    if run != [] {
      var s' := Apply(s, run[0]);
      RosterAfter(s, run[0]);
      assert Leave(e) !in run[1..];
      RecordIsOwnMoves(s', run[1..], e);
      if run[0].Move? && run[0].m.eid == e {
        var ms := MovesOf(run, e);
        assert ms[1..] == MovesOf(run[1..], e);
        MovesIgnoreOutbox(Moved(s.players[e], ms[0]), s'.players[e], ms[1..]);
      } else {
        MovesIgnoreOutbox(s.players[e], s'.players[e], MovesOf(run, e));
      }
    }
  }

  lemma {:induction false} MovesIgnoreOutbox(p: Player, q: Player, moves: seq<MoveRequest>)
    requires SamePerson(p, q)
    ensures SamePerson(After(p, moves), After(q, moves))
    decreases moves
  {
    hide DegToAngle, Scaled, StepOf;
    if moves != [] {
      MovesIgnoreOutbox(Moved(p, moves[0]), Moved(q, moves[0]), moves[1..]);
    }
  }

  // ---- The world ----

  function Changes(run: seq<Event>): seq<Change> {
    if run == [] then []
    else if run[0].SetBlock? then [run[0].c] + Changes(run[1..])
    else Changes(run[1..])
  }

  lemma {:induction false} WorldIsHistory(s: State, run: seq<Event>, before: seq<Change>)
    requires PossibleRun(s, run) && s.world == Some(UpdatedAll(before))
    ensures RunFrom(s, run).world == Some(UpdatedAll(before + Changes(run)))
    decreases run
  {
    hide Apply, Possible, Updated, UpdatedAll;
    if run == [] {
      assert before + Changes(run) == before;
    } else {
      var s' := Apply(s, run[0]);
      WorldApplied(s, run[0]);
      if run[0].SetBlock? {
        var c := run[0].c;
        OneMoreChange(before, c);
        WorldIsHistory(s', run[1..], before + [c]);
        assert before + Changes(run) == before + [c] + Changes(run[1..]);
      } else {
        WorldIsHistory(s', run[1..], before);
      }
    }
  }

  lemma OneMoreChange(before: seq<Change>, c: Change)
    ensures UpdatedAll(before + [c]) == Updated(UpdatedAll(before), c)
    ensures !Buildable(c.y) ==> UpdatedAll(before + [c]) == UpdatedAll(before)
  {
    assert (before + [c])[..|before|] == before;
  }

  /** After any run of the hub over a new world, every chunk sent to a client shows
    * the blocks as the run's block events left them. */
  lemma ChunksAfterRun(run: seq<Event>, cx: int, cz: int, rest: seq<u8>)
    requires PossibleRun(Start(Some(map[])), run)
    requires forall i :: 0 <= i < |Changes(run)| ==> Changes(run)[i].state < 0x8000
    ensures var s := RunFrom(Start(Some(map[])), run);
            && s.world.Some?
            && var col := ParseColumn(RenderedChunk(s.world.value, cx, cz) + rest);
               col.Ok? && col.rest == rest && ShowsHistory(col.value, Changes(run), cx, cz)
  {
    hide RunFrom, PossibleRun, ParseColumn, RenderedChunk, ShowsHistory;
    WorldIsHistory(Start(Some(map[])), run, []);
    assert [] + Changes(run) == Changes(run);
    PayloadShowsHistory(Changes(run), cx, cz, rest);
  }

  // ---- What reaches a client ----

  /** A chat line goes to everyone with room for it, the sender included, under the sender's name. */
  lemma ChatReaches(s: State, sender: EntityId, msg: string, v: EntityId)
    requires sender in s.players && v in s.players && s.players[v].out.pending < s.players[v].out.capacity
    ensures var (before, after) := (s.players[v].out, Apply(s, Chat(sender, msg)).players[v].out);
            after.log == before.log + [SystemChat("<" + s.players[sender].profile.name + "> " + msg)]
  {
    hide EnqueueAll;
    RoomDelivers(s.players[v].out, [SystemChat("<" + s.players[sender].profile.name + "> " + msg)]);
  }

  /** A joining player is recorded as it asked, its angles as bytes. */
  lemma JoinRecorded(s: State, ev: Event)
    requires ev.Join? && Possible(s, ev)
    ensures ev.r.eid in Apply(s, ev).players
    ensures var p := Apply(s, ev).players[ev.r.eid];
            && p.eid == ev.r.eid && p.uuid == ev.r.uuid && p.profile == ev.r.profile && p.pos == ev.r.pos
            && p.yaw == DegToAngle(ev.r.yaw) && p.pitch == DegToAngle(ev.r.pitch)
  {
    hide DegToAngle, VisitsAll, EnqueueAll, Welcome;
  }

  // ---- Who is online ----

  /** What the last join or leave of `e` that the hub processed was. */
  function LastJoined(run: seq<Event>, e: EntityId, before: bool): bool
    decreases run
  {
    if run == [] then before
    else if run[0].Join? && run[0].r.eid == e then LastJoined(run[1..], e, true)
    else if run[0] == Leave(e) then LastJoined(run[1..], e, false)
    else LastJoined(run[1..], e, before)
  }

  /** A player is registered if and only if the last of its joins and leaves, in
    * processing order, was a join. */
  lemma {:induction false} OnlineIff(s: State, run: seq<Event>, e: EntityId)
    requires PossibleRun(s, run)
    ensures e in RunFrom(s, run).players <==> LastJoined(run, e, e in s.players)
    decreases run
  {
    hide Apply, Roster, Possible;
    if run != [] {
      RosterAfter(s, run[0]);
      PeopleStay(s, run[0], Apply(s, run[0]).players);
      OnlineIff(Apply(s, run[0]), run[1..], e);
    }
  }

  /** Join and leave travel on separate channels: a leave processed first is
    * ignored, and its player stays registered. */
  lemma OvertakenLeave(world: Option<Store>, r: JoinRequest)
    ensures var run := [Leave(r.eid), Join(r, [], [])];
            && PossibleRun(Start(world), run)
            && r.eid in RunFrom(Start(world), run).players
  {
    var s := Start(world);
    var run := [Leave(r.eid), Join(r, [], [])];
    assert Apply(s, run[0]) == s;
    assert run[1..][1..] == [] && run[1..][0] == run[1];
    assert Possible(s, run[1]);
    assert PossibleRun(s, run[1..]);
    assert PossibleRun(s, run);
    assert LastJoined(run[1..], r.eid, false);
    OnlineIff(s, run, r.eid);
  }
}
