/** What clients know: replaying a client's packets rebuilds the hub's registry,
  * over every run of events, and agrees with its world except where packing a
  * position changes it. */
module HubViews {
  import opened Bytes
  import opened Chunk
  import opened World
  import opened Hub
  import Codec

  // ---- The client's replay ----

  datatype Entity = Entity(uuid: Uuid, pos: Vec, yaw: u8, pitch: u8, head: u8)

  type Pos = (i32, i32, i32)

  /** `ordered`: no entity was spawned before its profile was listed; `known`: no
    * movement came for an entity that was not spawned. */
  datatype Client = Client(listed: map<Uuid, Profile>, spawned: map<EntityId, Entity>, blocks: map<Pos, i32>,
                           ordered: bool, known: bool)

  const NEWCOMER := Client(map[], map[], map[], true, true)

  function Listing(listed: map<Uuid, Profile>, es: seq<InfoEntry>): map<Uuid, Profile>
    decreases es
  {
    if es == [] then listed else Listing(listed[es[0].uuid := es[0].profile], es[1..])
  }

  function Turned(e: Entity, p: Packet): Entity {
    match p
    case MoveEntityPos(_, d, _) => e.(pos := Advanced(e.pos, d))
    case MoveEntityPosRot(_, d, yaw, pitch, _) => e.(pos := Advanced(e.pos, d), yaw := yaw, pitch := pitch)
    case MoveEntityRot(_, yaw, pitch, _) => e.(yaw := yaw, pitch := pitch)
    case RotateHead(_, head) => e.(head := head)
    case _ => e
  }

  /** A block update names the position that its packed bytes carry. */
  function Receive(c: Client, p: Packet): Client {
    match p
    case PlayerInfoUpdate(es) => c.(listed := Listing(c.listed, es))
    case PlayerInfoRemove(us) => c.(listed := map u | u in c.listed && u !in us :: c.listed[u])
    case AddEntity(eid, uuid, pos, yaw, pitch, head) =>
      c.(spawned := c.spawned[eid := Entity(uuid, pos, yaw, pitch, head)], ordered := c.ordered && uuid in c.listed)
    case RemoveEntities(es) => c.(spawned := map e | e in c.spawned && e !in es :: c.spawned[e])
    case SystemChat(_) => c
    case BlockUpdate(x, y, z, state) => c.(blocks := c.blocks[Codec.AsPacked((x, y, z)) := state])
    case _ =>
      if p.eid !in c.spawned then c.(known := false)
      else c.(spawned := c.spawned[p.eid := Turned(c.spawned[p.eid], p)])
  }

  function ReplayFrom(c: Client, ps: seq<Packet>): Client
    decreases ps
  {
    if ps == [] then c else ReplayFrom(Receive(c, ps[0]), ps[1..])
  }

  lemma {:induction false} ReplayAppend(c: Client, a: seq<Packet>, b: seq<Packet>)
    ensures ReplayFrom(c, a + b) == ReplayFrom(ReplayFrom(c, a), b)
    decreases a
  {
    hide Receive;
    if a == [] {
      assert a + b == b;
    } else {
      ReplayAppend(Receive(c, a[0]), a[1..], b);
      assert (a + b)[1..] == a[1..] + b;
    }
  }

  lemma ReplayOne(c: Client, p: Packet)
    ensures ReplayFrom(c, [p]) == Receive(c, p)
  {
    hide Receive;
    assert ReplayFrom(Receive(c, p), []) == Receive(c, p);
  }

  lemma ReplayTwo(c: Client, p: Packet, q: Packet)
    ensures ReplayFrom(c, [p, q]) == Receive(Receive(c, p), q)
  {
    hide Receive;
    assert [p, q][1..] == [q];
    ReplayOne(Receive(c, p), q);
  }

  function ViewOf(p: Player): Client { ReplayFrom(NEWCOMER, p.out.log) }

  // ---- What a view should show ----

  function EntityOf(p: Player): Entity { Entity(p.uuid, p.pos, p.yaw, p.pitch, p.yaw) }

  /** Exactly the other players, each where and how the hub has it. */
  ghost predicate SpawnedExactly(players: Players, viewer: EntityId, spawned: map<EntityId, Entity>) {
    && (forall e :: e in spawned <==> e in players && e != viewer)
    && (forall e :: e in spawned ==> spawned[e] == EntityOf(players[e]))
  }

  predicate Owner(players: Players, e: EntityId, uuid: Uuid, profile: Profile) {
    e in players && players[e].uuid == uuid && players[e].profile == profile
  }

  /** Exactly the online UUIDs, the viewer's included, each with an online owner's profile. */
  ghost predicate ListedExactly(players: Players, listed: map<Uuid, Profile>) {
    && (forall e :: e in players ==> players[e].uuid in listed)
    && (forall u :: u in listed ==> exists e :: Owner(players, e, u, listed[u]))
  }

  function StateAt(store: Store, p: Pos): u32
    requires Buildable(p.1)
  {
    Cell(ColumnOf(store, (ChunkCoord(p.0), ChunkCoord(p.2))), BlockIndex(p.0, p.1, p.2).value)
  }

  /** Every block the client was told of still has the told state in the hub's world. */
  ghost predicate BlocksCurrent(world: Option<Store>, blocks: map<Pos, i32>) {
    forall p :: p in blocks ==> world.Some? && Buildable(p.1) && blocks[p] == AsI32(StateAt(world.value, p))
  }

  /** Every block the client was told of lies in the hub's world, at a position that can be packed. */
  ghost predicate BlocksPacked(world: Option<Store>, blocks: map<Pos, i32>) {
    forall p :: p in blocks ==> world.Some? && Buildable(p.1) && Codec.PositionFits(p.0, p.1, p.2)
  }

  predicate Keyed(players: Players) { forall e :: e in players ==> players[e].eid == e }

  ghost predicate Sees(s: State, viewer: EntityId) {
    viewer in s.players && s.players[viewer].out.drops == 0 ==>
      var c := ViewOf(s.players[viewer]);
      c.known && SpawnedExactly(s.players, viewer, c.spawned) && BlocksPacked(s.world, c.blocks)
  }

  ghost predicate Lists(s: State, viewer: EntityId) {
    viewer in s.players && s.players[viewer].out.drops == 0 ==>
      var c := ViewOf(s.players[viewer]);
      c.ordered && ListedExactly(s.players, c.listed)
  }

  ghost predicate AllSee(s: State) { Keyed(s.players) && forall v :: v in s.players ==> Sees(s, v) }

  ghost predicate AllList(s: State) { forall v :: v in s.players ==> Lists(s, v) }

  // ---- Packets an event sends to a player already online ----

  /** A block event that changes the world. */
  predicate Effective(s: State, ev: Event) { ev.SetBlock? && s.world.Some? && Buildable(ev.c.y) }

  function Told(s: State, ev: Event, v: EntityId): seq<Packet>
    requires Possible(s, ev)
  {
    match ev
    case Join(r, _, _) => [PlayerInfoUpdate([EntryOf(PlayerOf(r))]), Spawn(PlayerOf(r))]
    case Leave(eid) =>
      if eid in s.players then [RemoveEntities([eid]), PlayerInfoRemove([s.players[eid].uuid])] else []
    case Move(m) => if m.eid in s.players && m.eid != v then MovePackets(s.players[m.eid], m) else []
    case Chat(sender, msg) =>
      if sender in s.players then [SystemChat("<" + s.players[sender].profile.name + "> " + msg)] else []
    case SetBlock(c) => if Effective(s, ev) then [UpdatePacket(c)] else []
    case Drained(_, _) => []
  }

  /** A player still online with nothing dropped has received exactly what it was told. */
  lemma ToldDelivered(s: State, ev: Event, v: EntityId)
    requires Possible(s, ev) && Keyed(s.players) && v in s.players
    requires var s' := Apply(s, ev); v in s'.players && s'.players[v].out.drops == 0
    ensures s.players[v].out.drops == 0
    ensures ViewOf(Apply(s, ev).players[v]) == ReplayFrom(ViewOf(s.players[v]), Told(s, ev, v))
  {
    hide EnqueueAll, MovePackets, Moved, Welcome, Updated, ReplayFrom, VisitsAll;
    var o, o' := s.players[v].out, Apply(s, ev).players[v].out;
    NoDropDelivers(o, Told(s, ev, v));
    assert o.log + [] == o.log;
    assert o'.log == o.log + Told(s, ev, v);
    ReplayAppend(NEWCOMER, o.log, Told(s, ev, v));
  }

  // ---- What each event does to the registry, and to a view ----

  predicate SamePerson(a: Player, b: Player) { b == a.(out := b.out) }

  /** A broadcast changes nobody but for the channels. */
  lemma BroadcastKeeps(players: Players, except: Option<EntityId>, ps: seq<Packet>)
    ensures var b := Broadcast(players, except, ps);
            b.Keys == players.Keys && forall e :: e in players ==> SamePerson(players[e], b[e])
  {
    hide EnqueueAll;
  }

  /** The registry after an event, up to the contents of the channels. */
  ghost predicate Roster(s: State, ev: Event, players: Players) {
    match ev
    case Join(r, _, _) =>
      && players.Keys == s.players.Keys + {r.eid} && SamePerson(PlayerOf(r), players[r.eid])
      && forall e :: e in s.players && e != r.eid ==> SamePerson(s.players[e], players[e])
    case Leave(eid) =>
      && players.Keys == s.players.Keys - {eid}
      && forall e :: e in players ==> SamePerson(s.players[e], players[e])
    case Move(m) =>
      && players.Keys == s.players.Keys
      && (m.eid in players ==> SamePerson(Moved(s.players[m.eid], m), players[m.eid]))
      && forall e :: e in players && e != m.eid ==> SamePerson(s.players[e], players[e])
    case _ =>
      && players.Keys == s.players.Keys
      && forall e :: e in players ==> SamePerson(s.players[e], players[e])
  }

  lemma RosterAfter(s: State, ev: Event)
    requires Possible(s, ev)
    ensures Roster(s, ev, Apply(s, ev).players)
    ensures Keyed(s.players) ==> Keyed(Apply(s, ev).players)
  {
    hide VisitsAll, EnqueueAll, Moved, MovePackets, Welcome, Updated, Broadcast, PlayerOf;
    match ev {
      case Join(r, _, _) =>
        var p := PlayerOf(r);
        BroadcastKeeps(s.players, None, [PlayerInfoUpdate([EntryOf(p)]), Spawn(p)]);
        NamedBy(r);
      case Leave(eid) =>
        if eid in s.players {
          BroadcastKeeps(s.players - {eid}, None, [RemoveEntities([eid]), PlayerInfoRemove([s.players[eid].uuid])]);
        }
      case Move(m) =>
        if m.eid in s.players {
          var p := s.players[m.eid];
          BroadcastKeeps(s.players[m.eid := Moved(p, m)], Some(p.eid), MovePackets(p, m));
        }
      case Chat(sender, msg) =>
        if sender in s.players {
          BroadcastKeeps(s.players, None, [SystemChat("<" + s.players[sender].profile.name + "> " + msg)]);
        }
      case SetBlock(c) => BroadcastKeeps(s.players, None, [UpdatePacket(c)]);
      case Drained(_, _) =>
    }
  }

  lemma NamedBy(r: JoinRequest)
    ensures PlayerOf(r).eid == r.eid
  {
  }

  lemma SeeJoin(s: State, r: JoinRequest, ev: Event, players: Players, v: EntityId, c: Client)
    requires ev.Join? && ev.r == r && r.eid !in s.players && v in s.players
    requires Roster(s, ev, players) && c.known && SpawnedExactly(s.players, v, c.spawned)
    ensures var p := PlayerOf(r);
            var c' := ReplayFrom(c, [PlayerInfoUpdate([EntryOf(p)]), Spawn(p)]);
            && c'.known && SpawnedExactly(players, v, c'.spawned) && c'.blocks == c.blocks
            && c'.listed == c.listed[r.uuid := r.profile] && c'.ordered == c.ordered
  {
    hide DegToAngle, Receive, ReplayFrom;
    var p := PlayerOf(r);
    var listed := c.(listed := c.listed[r.uuid := r.profile]);
    ReplayTwo(c, PlayerInfoUpdate([EntryOf(p)]), Spawn(p));
    InfoReceived(c, EntryOf(p));
    SpawnReceived(listed, p);
  }

  lemma InfoReceived(c: Client, e: InfoEntry)
    ensures Receive(c, PlayerInfoUpdate([e])) == c.(listed := c.listed[e.uuid := e.profile])
  {
    assert [e][1..] == [];
    assert Listing(c.listed, [e]) == c.listed[e.uuid := e.profile];
  }

  lemma SpawnReceived(c: Client, p: Player)
    ensures Receive(c, Spawn(p))
            == c.(spawned := c.spawned[p.eid := EntityOf(p)], ordered := c.ordered && p.uuid in c.listed)
  {
  }

  lemma SeeLeave(s: State, eid: EntityId, players: Players, v: EntityId, c: Client)
    requires eid in s.players && v in players && Roster(s, Leave(eid), players)
    requires c.known && SpawnedExactly(s.players, v, c.spawned)
    ensures var c' := ReplayFrom(c, [RemoveEntities([eid]), PlayerInfoRemove([s.players[eid].uuid])]);
            && c'.known && SpawnedExactly(players, v, c'.spawned) && c'.blocks == c.blocks && c'.ordered == c.ordered
            && c'.listed == map u | u in c.listed && u != s.players[eid].uuid :: c.listed[u]
  {
    ReplayTwo(c, RemoveEntities([eid]), PlayerInfoRemove([s.players[eid].uuid]));
  }

  /** Replaying a move's packets moves the client's entity exactly as the hub moved its record. */
  lemma MoveReplayed(p: Player, m: MoveRequest, c: Client)
    requires p.eid in c.spawned && c.spawned[p.eid] == EntityOf(p)
    ensures var c' := ReplayFrom(c, MovePackets(p, m));
            && c'.spawned == c.spawned[p.eid := EntityOf(Moved(p, m))]
            && c'.known == c.known && c'.blocks == c.blocks && c'.listed == c.listed
            && c'.ordered == (c.ordered && (Classify(p, m).Jumped? ==> p.uuid in c.listed))
  {
    hide DegToAngle, Scaled, Advanced, Reachable, Receive;
    match Classify(p, m) {
      case Ignored =>
      case Jumped => JumpReplayed(p, Moved(p, m), c);
      case Stepped(d, moved, rotated) =>
        StillSteps(p, m);
        if rotated {
          var (yaw, pitch) := (DegToAngle(m.yaw), DegToAngle(m.pitch));
          BodyReceived(p, d, yaw, pitch, m.onGround, c);
          TurnReplayed(p, MovePackets(p, m)[0], Moved(p, m).pos, yaw, pitch, c);
        } else {
          WalkReplayed(p, d, m.onGround, c);
        }
    }
  }

  lemma JumpReplayed(p: Player, p': Player, c: Client)
    requires p.eid in c.spawned && p'.eid == p.eid && p'.uuid == p.uuid
    ensures var c' := ReplayFrom(c, [RemoveEntities([p.eid]), Spawn(p')]);
            && c'.spawned == c.spawned[p.eid := EntityOf(p')]
            && c'.known == c.known && c'.blocks == c.blocks && c'.listed == c.listed
            && c'.ordered == (c.ordered && p.uuid in c.listed)
  {
    ReplayTwo(c, RemoveEntities([p.eid]), Spawn(p'));
  }

  lemma Overwritten(m: map<EntityId, Entity>, k: EntityId, a: Entity, b: Entity)
    ensures m[k := a][k := b] == m[k := b]
  {
  }

  lemma WalkReplayed(p: Player, d: Delta, g: bool, c: Client)
    requires p.eid in c.spawned && c.spawned[p.eid] == EntityOf(p)
    ensures ReplayFrom(c, [MoveEntityPos(p.eid, d, g)])
            == c.(spawned := c.spawned[p.eid := EntityOf(p).(pos := Advanced(p.pos, d))])
  {
    hide Advanced, ReplayFrom, Receive;
    ReplayOne(c, MoveEntityPos(p.eid, d, g));
    BodyReceived(p, d, 0, 0, g, c);
  }

  /** A body turn, with or without a walk, followed by the head's. */
  lemma TurnReplayed(p: Player, body: Packet, pos: Vec, yaw: u8, pitch: u8, c: Client)
    requires p.eid in c.spawned && c.spawned[p.eid] == EntityOf(p)
    requires Receive(c, body) == c.(spawned := c.spawned[p.eid := Entity(p.uuid, pos, yaw, pitch, p.yaw)])
    ensures ReplayFrom(c, [body, RotateHead(p.eid, yaw)])
            == c.(spawned := c.spawned[p.eid := Entity(p.uuid, pos, yaw, pitch, yaw)])
  {
    hide ReplayFrom, Receive;
    var turned := c.spawned[p.eid := Entity(p.uuid, pos, yaw, pitch, p.yaw)];
    ReplayTwo(c, body, RotateHead(p.eid, yaw));
    HeadReceived(c.(spawned := turned), p.eid, yaw);
    Overwritten(c.spawned, p.eid, turned[p.eid], Entity(p.uuid, pos, yaw, pitch, yaw));
  }

  lemma HeadReceived(c: Client, eid: EntityId, yaw: u8)
    requires eid in c.spawned
    ensures Receive(c, RotateHead(eid, yaw)) == c.(spawned := c.spawned[eid := c.spawned[eid].(head := yaw)])
  {
  }

  lemma BodyReceived(p: Player, d: Delta, yaw: u8, pitch: u8, g: bool, c: Client)
    requires p.eid in c.spawned && c.spawned[p.eid] == EntityOf(p)
    ensures Receive(c, MoveEntityPos(p.eid, d, g))
            == c.(spawned := c.spawned[p.eid := EntityOf(p).(pos := Advanced(p.pos, d))])
    ensures Receive(c, MoveEntityPosRot(p.eid, d, yaw, pitch, g))
            == c.(spawned := c.spawned[p.eid := Entity(p.uuid, Advanced(p.pos, d), yaw, pitch, p.yaw)])
    ensures Receive(c, MoveEntityRot(p.eid, yaw, pitch, g))
            == c.(spawned := c.spawned[p.eid := Entity(p.uuid, p.pos, yaw, pitch, p.yaw)])
  {
    hide Advanced;
  }

  /** A step that only turns carries no displacement; one that only moves keeps the angles. */
  lemma StillSteps(p: Player, m: MoveRequest)
    requires Classify(p, m).Stepped?
    ensures var o := Classify(p, m);
            && (!o.moved ==> o.rotated && Advanced(p.pos, o.d) == p.pos)
            && (!o.rotated ==> p.yaw == DegToAngle(m.yaw) && p.pitch == DegToAngle(m.pitch))
  {
    hide DegToAngle, Trunc;
  }

  /** Profiles stay ahead of entities unless a player jumps while it is not listed. */
  predicate OrderedAfter(s: State, ev: Event, v: EntityId, c: Client) {
    && c.ordered
    && (ev.Move? && ev.m.eid in s.players && ev.m.eid != v && Classify(s.players[ev.m.eid], ev.m).Jumped? ==>
          s.players[ev.m.eid].uuid in c.listed)
  }

  lemma SeeMove(s: State, m: MoveRequest, players: Players, v: EntityId, c: Client)
    requires Keyed(s.players) && m.eid in s.players && m.eid != v && v in players
    requires Roster(s, Move(m), players) && c.known && SpawnedExactly(s.players, v, c.spawned)
    ensures var c' := ReplayFrom(c, MovePackets(s.players[m.eid], m));
            && c'.known && SpawnedExactly(players, v, c'.spawned) && c'.blocks == c.blocks && c'.listed == c.listed
            && c'.ordered == OrderedAfter(s, Move(m), v, c)
  {
    hide MovePackets, Moved, ReplayFrom, Classify;
    MoveReplayed(s.players[m.eid], m, c);
  }

  /** Where a change is made, and where the clients are told it was made. */
  function At(c: Change): Pos { (c.x, c.y, c.z) }

  function ToldAt(c: Change): (p: Pos)
    ensures Buildable(c.y) ==> Buildable(p.1)
  {
    Codec.PackedFits(At(c));
    Codec.AsPacked(At(c))
  }

  lemma SeeBlock(c: Client, change: Change)
    ensures ReplayFrom(c, [UpdatePacket(change)])
            == c.(blocks := c.blocks[ToldAt(change) := AsI32(change.state)])
  {
    ReplayOne(c, UpdatePacket(change));
  }

  lemma StateAfterUpdate(store: Store, c: Change, p: Pos)
    requires Buildable(c.y) && Buildable(p.1)
    ensures StateAt(Updated(store, c), p) == if p == At(c) then c.state else StateAt(store, p)
  {
    hide PositionOf, ChunkCoord, BlockIndex;
    AddressOfPosition(c.x, c.y, c.z);
    AddressOfPosition(p.0, p.1, p.2);
  }

  // ---- The newcomer's first view ----

  lemma {:induction false} ListingOf(listed: map<Uuid, Profile>, es: seq<InfoEntry>)
    ensures forall u :: u in Listing(listed, es) <==> u in listed || exists i :: 0 <= i < |es| && es[i].uuid == u
    ensures forall u :: u in Listing(listed, es) ==>
              var profile := Listing(listed, es)[u];
              || (exists i :: 0 <= i < |es| && es[i] == InfoEntry(u, profile))
              || (u in listed && listed[u] == profile)
    decreases es
  {
    if es != [] {
      var next := listed[es[0].uuid := es[0].profile];
      ListingOf(next, es[1..]);
      assert es == [es[0]] + es[1..];
      forall u ensures u in Listing(listed, es) <==> u in listed || exists i :: 0 <= i < |es| && es[i].uuid == u {
        if i :| 0 <= i < |es| && es[i].uuid == u {
          assert i > 0 ==> es[1..][i - 1].uuid == u;
        }
      }
    }
  }

  lemma {:induction false} SpawnsReplayed(players: Players, order: seq<EntityId>, c: Client)
    requires Keyed(players) && forall i :: 0 <= i < |order| ==> order[i] in players
    requires forall e :: e in players ==> players[e].uuid in c.listed
    ensures var c' := ReplayFrom(c, Spawns(players, order));
            && c' == c.(spawned := c'.spawned)
            && (forall e :: e in c'.spawned <==> e in c.spawned || e in order)
            && (forall e :: e in c'.spawned ==>
                  c'.spawned[e] == if e in order then EntityOf(players[e]) else c.spawned[e])
    decreases order
  {
    if order != [] {
      var p := players[order[0]];
      SpawnsReplayed(players, order[1..], Receive(c, Spawn(p)));
      assert Spawns(players, order)[1..] == Spawns(players, order[1..]);
      assert order == [order[0]] + order[1..];
    }
  }

  /** A newcomer's first packets show it everyone: all profiles first, its own included, then all others. */
  lemma WelcomeShows(s: State, r: JoinRequest, ev: Event, players: Players)
    requires ev.Join? && ev.r == r && Possible(s, ev) && Keyed(s.players) && Roster(s, ev, players)
    ensures var c := ReplayFrom(NEWCOMER, Welcome(s.players, PlayerOf(r), ev.infoOrder, ev.spawnOrder));
            && c.known && SpawnedExactly(players, r.eid, c.spawned)
            && c.ordered && ListedExactly(players, c.listed) && c.blocks == map[]
  {
    hide DegToAngle, ReplayFrom, Receive, Entries, ListedExactly, VisitsAll;
    OrderIsRegistry(s, ev);
    var p := PlayerOf(r);
    var info := PlayerInfoUpdate(Entries(s.players, ev.infoOrder) + [EntryOf(p)]);
    InfoFirst(s, r, ev, players, info);
    ReplayAppend(NEWCOMER, [info], Spawns(s.players, ev.spawnOrder));
    SpawnsReplayed(s.players, ev.spawnOrder, ReplayFrom(NEWCOMER, [info]));
  }

  lemma OrderIsRegistry(s: State, ev: Event)
    requires ev.Join? && Possible(s, ev)
    ensures forall i :: 0 <= i < |ev.infoOrder| ==> ev.infoOrder[i] in s.players
    ensures forall i :: 0 <= i < |ev.spawnOrder| ==> ev.spawnOrder[i] in s.players
    ensures forall e :: e in s.players <==> e in ev.spawnOrder
  {
  }

  lemma InfoFirst(s: State, r: JoinRequest, ev: Event, players: Players, info: Packet)
    requires ev.Join? && ev.r == r && Possible(s, ev) && Roster(s, ev, players)
    requires info == PlayerInfoUpdate(Entries(s.players, ev.infoOrder) + [EntryOf(PlayerOf(r))])
    ensures var c := ReplayFrom(NEWCOMER, [info]);
            && c == NEWCOMER.(listed := c.listed) && ListedExactly(players, c.listed)
            && forall e :: e in s.players ==> s.players[e].uuid in c.listed
  {
    hide DegToAngle, ReplayFrom, Listing, Entries, VisitsAll, ListedExactly, Roster;
    OrderIsRegistry(s, ev);
    ReplayOne(NEWCOMER, info);
    ListingOf(map[], info.entries);
    EntriesList(s, r, ev, players, info.entries, Listing(map[], info.entries));
  }

  lemma EntriesList(s: State, r: JoinRequest, ev: Event, players: Players, es: seq<InfoEntry>,
                    listed: map<Uuid, Profile>)
    requires ev.Join? && ev.r == r && Possible(s, ev) && Roster(s, ev, players)
    requires es == Entries(s.players, ev.infoOrder) + [EntryOf(PlayerOf(r))]
    requires forall u :: u in listed <==> exists i :: 0 <= i < |es| && es[i].uuid == u
    requires forall u :: u in listed ==> exists i :: 0 <= i < |es| && es[i] == InfoEntry(u, listed[u])
    ensures ListedExactly(players, listed)
    ensures forall e :: e in s.players ==> s.players[e].uuid in listed
  {
    hide Roster;
    PeopleStay(s, ev, players);
    var n := |ev.infoOrder|;
    forall e | e in players ensures players[e].uuid in listed {
      if e == r.eid {
        assert es[n].uuid == players[e].uuid;
      } else {
        var i :| 0 <= i < n && ev.infoOrder[i] == e;
        assert es[i].uuid == players[e].uuid;
      }
    }
    forall u | u in listed ensures exists e :: Owner(players, e, u, listed[u]) {
      var i :| 0 <= i < |es| && es[i] == InfoEntry(u, listed[u]);
      assert Owner(players, if i == n then r.eid else ev.infoOrder[i], u, listed[u]);
    }
    assert forall e :: e in s.players ==> e in players && s.players[e].uuid == players[e].uuid;
  }

  // ---- One step ----

  function ListedAfter(s: State, ev: Event, listed: map<Uuid, Profile>): map<Uuid, Profile> {
    match ev
    case Join(r, _, _) => listed[r.uuid := r.profile]
    case Leave(eid) =>
      if eid in s.players then map u | u in listed && u != s.players[eid].uuid :: listed[u] else listed
    case _ => listed
  }

  function WorldAfter(s: State, ev: Event): Option<Store> {
    if Effective(s, ev) then Some(Updated(s.world.value, ev.c)) else s.world
  }

  function BlocksAfter(s: State, ev: Event, blocks: map<Pos, i32>): map<Pos, i32> {
    if Effective(s, ev) then blocks[ToldAt(ev.c) := AsI32(ev.c.state)] else blocks
  }

  /** Replaying what an event tells an online player keeps its view exact. */
  lemma StepView(s: State, ev: Event, players: Players, v: EntityId, c: Client)
    requires Possible(s, ev) && Keyed(s.players) && v in s.players && v in players && Roster(s, ev, players)
    requires c.known && SpawnedExactly(s.players, v, c.spawned)
    ensures var c' := ReplayFrom(c, Told(s, ev, v));
            && c'.known && SpawnedExactly(players, v, c'.spawned) && c'.blocks == BlocksAfter(s, ev, c.blocks)
            && c'.listed == ListedAfter(s, ev, c.listed)
            && c'.ordered == OrderedAfter(s, ev, v, c)
  {
    hide MovePackets, Moved, Updated, Receive, VisitsAll, UpdatePacket, Roster, SpawnedExactly, ToldAt;
    if OthersUnchanged(s, ev, v) {
      OthersStay(s, ev, players, v, c.spawned);
    }
    match ev {
      case Join(r, _, _) => SeeJoin(s, r, ev, players, v, c);
      case Leave(eid) =>
        if eid in s.players {
          SeeLeave(s, eid, players, v, c);
        }
      case Move(m) =>
        if m.eid in s.players && m.eid != v {
          SeeMove(s, m, players, v, c);
        }
      case Chat(sender, msg) =>
        if sender in s.players {
          ChatChangesNothing(c, "<" + s.players[sender].profile.name + "> " + msg);
        }
      case SetBlock(change) =>
        if Effective(s, ev) {
          SeeBlock(c, change);
        }
      case Drained(_, _) =>
    }
  }

  predicate OthersUnchanged(s: State, ev: Event, v: EntityId) {
    match ev
    case Join(_, _, _) => false
    case Leave(eid) => eid !in s.players
    case Move(m) => m.eid !in s.players || m.eid == v
    case _ => true
  }

  lemma OthersStay(s: State, ev: Event, players: Players, v: EntityId, spawned: map<EntityId, Entity>)
    requires Roster(s, ev, players) && OthersUnchanged(s, ev, v) && SpawnedExactly(s.players, v, spawned)
    ensures SpawnedExactly(players, v, spawned)
  {
    hide Moved, VisitsAll, DegToAngle;
  }

  lemma ChatChangesNothing(c: Client, content: string)
    ensures ReplayFrom(c, [SystemChat(content)]) == c
  {
    ReplayOne(c, SystemChat(content));
  }

  lemma WorldApplied(s: State, ev: Event)
    requires Possible(s, ev)
    ensures Apply(s, ev).world == WorldAfter(s, ev)
  {
  }

  lemma NewcomerDelivered(s: State, ev: Event)
    requires ev.Join? && Possible(s, ev) && Apply(s, ev).players[ev.r.eid].out.drops == 0
    ensures ViewOf(Apply(s, ev).players[ev.r.eid])
            == ReplayFrom(NEWCOMER, Welcome(s.players, PlayerOf(ev.r), ev.infoOrder, ev.spawnOrder))
  {
    hide Welcome, ReplayFrom, Broadcast, VisitsAll, EnqueueAll;
    var w := Welcome(s.players, PlayerOf(ev.r), ev.infoOrder, ev.spawnOrder);
    NoDropDelivers(PlayerOf(ev.r).out, w);
    assert [] + w == w;
  }

  /** Every event keeps every undropped client's entities exact, and the blocks it was
    * told of at positions of the hub's world that can be packed. */
  lemma StepSees(s: State, ev: Event, v: EntityId)
    requires Possible(s, ev) && AllSee(s) && v in Apply(s, ev).players
    ensures Sees(Apply(s, ev), v)
  {
    hide Apply, Told, Roster, SpawnedExactly, BlocksPacked, ReplayFrom, ViewOf, Welcome, VisitsAll;
    var s' := Apply(s, ev);
    RosterAfter(s, ev);
    WorldApplied(s, ev);
    if s'.players[v].out.drops == 0 {
      if v in s.players {
        ToldDelivered(s, ev, v);
        StepView(s, ev, s'.players, v, ViewOf(s.players[v]));
        StaysPacked(s, ev, ViewOf(s.players[v]).blocks);
      } else {
        OnlyJoinAdds(s, ev, v);
        NewcomerDelivered(s, ev);
        WelcomeShows(s, ev.r, ev, s'.players);
        NothingTold(s'.world);
      }
    }
  }

  lemma NothingTold(world: Option<Store>)
    ensures BlocksPacked(world, map[]) && BlocksCurrent(world, map[])
  {
  }

  lemma StaysPacked(s: State, ev: Event, blocks: map<Pos, i32>)
    requires BlocksPacked(s.world, blocks)
    ensures BlocksPacked(WorldAfter(s, ev), BlocksAfter(s, ev, blocks))
  {
    hide Updated;
    if Effective(s, ev) {
      Codec.PackedFits(At(ev.c));
    }
  }

  // ---- When told blocks stay current ----

  /** A block event at a position that packing changes, telling the clients of a state
    * that the hub's world does not have where they are told it is. */
  predicate Misplaces(s: State, ev: Event) {
    && Effective(s, ev) && !Codec.PositionFits(ev.c.x, ev.c.y, ev.c.z)
    && StateAt(s.world.value, ToldAt(ev.c)) != ev.c.state
  }

  lemma BlocksStepIff(store: Store, c: Change, blocks: map<Pos, i32>)
    requires Buildable(c.y) && BlocksPacked(Some(store), blocks) && BlocksCurrent(Some(store), blocks)
    ensures BlocksCurrent(Some(Updated(store, c)), blocks[ToldAt(c) := AsI32(c.state)])
            <==> Codec.PositionFits(c.x, c.y, c.z) || StateAt(store, ToldAt(c)) == c.state
  {
    hide Updated, StateAt, Codec.AsPacked;
    Codec.PackedFits(At(c));
    forall p: Pos | Buildable(p.1)
      ensures StateAt(Updated(store, c), p) == if p == At(c) then c.state else StateAt(store, p)
    {
      StateAfterUpdate(store, c, p);
    }
    var after := blocks[ToldAt(c) := AsI32(c.state)];
    assert ToldAt(c) in after;
  }

  /** From current blocks, an event leaves an undropped client's blocks current if and
    * only if it does not misplace a block. */
  lemma StepBlocksIff(s: State, ev: Event, v: EntityId)
    requires Possible(s, ev) && AllSee(s)
    requires var s' := Apply(s, ev); v in s'.players && s'.players[v].out.drops == 0
    requires v in s.players ==> BlocksCurrent(s.world, ViewOf(s.players[v]).blocks)
    ensures BlocksCurrent(Apply(s, ev).world, ViewOf(Apply(s, ev).players[v]).blocks) <==> !Misplaces(s, ev)
  {
    hide Apply, Told, Roster, SpawnedExactly, BlocksCurrent, BlocksPacked, ReplayFrom, ViewOf, Welcome;
    hide VisitsAll, StateAt;
    var s' := Apply(s, ev);
    RosterAfter(s, ev);
    WorldApplied(s, ev);
    if v in s.players {
      ToldDelivered(s, ev, v);
      StepView(s, ev, s'.players, v, ViewOf(s.players[v]));
      if Effective(s, ev) {
        BlocksStepIff(s.world.value, ev.c, ViewOf(s.players[v]).blocks);
      }
    } else {
      OnlyJoinAdds(s, ev, v);
      NewcomerDelivered(s, ev);
      WelcomeShows(s, ev.r, ev, s'.players);
      NothingTold(s'.world);
    }
  }

  lemma OnlyJoinAdds(s: State, ev: Event, v: EntityId)
    requires Possible(s, ev) && v !in s.players && v in Apply(s, ev).players
    ensures ev.Join? && ev.r.eid == v
  {
    RosterAfter(s, ev);
  }

  /** A leave of a player whose UUID another online player shares. */
  predicate SharedLeave(s: State, ev: Event) {
    && ev.Leave? && ev.eid in s.players
    && exists o :: o in s.players && o != ev.eid && s.players[o].uuid == s.players[ev.eid].uuid
  }

  lemma ListedStepIff(s: State, ev: Event, players: Players, listed: map<Uuid, Profile>)
    requires Possible(s, ev) && Roster(s, ev, players) && ListedExactly(s.players, listed)
    ensures ListedExactly(players, ListedAfter(s, ev, listed)) <==> !SharedLeave(s, ev)
  {
    hide DegToAngle, VisitsAll, Roster, ListedAfter, ListedExactly;
    if SharedLeave(s, ev) {
      SharedLeaveUnlists(s, ev, players, listed);
    } else {
      ListedStep(s, ev, players, listed);
    }
  }

  lemma SharedLeaveUnlists(s: State, ev: Event, players: Players, listed: map<Uuid, Profile>)
    requires Roster(s, ev, players) && SharedLeave(s, ev)
    ensures !ListedExactly(players, ListedAfter(s, ev, listed))
  {
    var o :| o in s.players && o != ev.eid && s.players[o].uuid == s.players[ev.eid].uuid;
    assert players[o].uuid !in ListedAfter(s, ev, listed);
  }

  lemma ListedStep(s: State, ev: Event, players: Players, listed: map<Uuid, Profile>)
    requires Possible(s, ev) && Roster(s, ev, players) && ListedExactly(s.players, listed) && !SharedLeave(s, ev)
    ensures ListedExactly(players, ListedAfter(s, ev, listed))
  {
    hide Roster;
    PeopleStay(s, ev, players);
    var after := ListedAfter(s, ev, listed);
    forall u | u in after ensures exists e :: Owner(players, e, u, after[u]) {
      if ev.Join? && u == ev.r.uuid {
        assert Owner(players, ev.r.eid, u, after[u]);
      } else {
        var e :| Owner(s.players, e, u, listed[u]);
        assert Owner(players, e, u, after[u]);
      }
    }
  }

  /** Nobody's UUID or profile ever changes; only joins add and only leaves remove. */
  lemma PeopleStay(s: State, ev: Event, players: Players)
    requires Possible(s, ev) && Roster(s, ev, players)
    ensures forall e :: e in players && e in s.players ==>
              players[e].uuid == s.players[e].uuid && players[e].profile == s.players[e].profile
    ensures forall e :: e in players <==>
              (e in s.players && !(ev.Leave? && e == ev.eid)) || (ev.Join? && e == ev.r.eid)
    ensures ev.Join? ==> players[ev.r.eid].uuid == ev.r.uuid && players[ev.r.eid].profile == ev.r.profile
  {
    hide DegToAngle, VisitsAll, Classify;
  }

  /** An event leaves an undropped client's player list exact, and no entity ahead
    * of its profile, if and only if it is not a shared leave. */
  lemma StepListsIff(s: State, ev: Event, v: EntityId)
    requires Possible(s, ev) && AllSee(s) && AllList(s)
    requires var s' := Apply(s, ev); v in s'.players && s'.players[v].out.drops == 0
    ensures Lists(Apply(s, ev), v) <==> !SharedLeave(s, ev)
  {
    hide Apply, Told, Roster, SpawnedExactly, ReplayFrom, ViewOf, Welcome, VisitsAll, ListedExactly;
    hide SharedLeave;
    var s' := Apply(s, ev);
    RosterAfter(s, ev);
    if v in s.players {
      ToldDelivered(s, ev, v);
      StepView(s, ev, s'.players, v, ViewOf(s.players[v]));
      ListedOrdered(s, ev, v, ViewOf(s.players[v]));
      ListedStepIff(s, ev, s'.players, ViewOf(s.players[v]).listed);
    } else {
      OnlyJoinAdds(s, ev, v);
      JoinSharesNothing(s, ev);
      NewcomerDelivered(s, ev);
      WelcomeShows(s, ev.r, ev, s'.players);
    }
  }

  lemma ListedOrdered(s: State, ev: Event, v: EntityId, c: Client)
    requires ListedExactly(s.players, c.listed) && c.ordered
    ensures OrderedAfter(s, ev, v, c)
  {
    hide Classify;
  }

  lemma JoinSharesNothing(s: State, ev: Event)
    requires ev.Join?
    ensures !SharedLeave(s, ev)
  {
  }

  // ---- Whole runs ----

  lemma StepAllSee(s: State, ev: Event)
    requires Possible(s, ev) && AllSee(s)
    ensures AllSee(Apply(s, ev))
  {
    hide Apply, Sees, Possible;
    RosterAfter(s, ev);
    forall v | v in Apply(s, ev).players ensures Sees(Apply(s, ev), v) {
      StepSees(s, ev, v);
    }
  }

  lemma StepAllList(s: State, ev: Event)
    requires Possible(s, ev) && AllSee(s) && AllList(s) && !SharedLeave(s, ev)
    ensures AllList(Apply(s, ev))
  {
    hide Apply, Sees, Possible, ViewOf, ListedExactly;
    forall v | v in Apply(s, ev).players ensures Lists(Apply(s, ev), v) {
      if Apply(s, ev).players[v].out.drops == 0 {
        StepListsIff(s, ev, v);
      }
    }
  }

  lemma {:induction false} EveryRunSees(s: State, run: seq<Event>)
    requires AllSee(s) && PossibleRun(s, run)
    ensures AllSee(RunFrom(s, run))
    decreases run
  {
    hide AllSee, Apply, Possible;
    if run != [] {
      StepAllSee(s, run[0]);
      EveryRunSees(Apply(s, run[0]), run[1..]);
    }
  }

  predicate NoSharedLeave(s: State, run: seq<Event>)
    requires PossibleRun(s, run)
    decreases run
  {
    run == [] || (!SharedLeave(s, run[0]) && NoSharedLeave(Apply(s, run[0]), run[1..]))
  }

  lemma {:induction false} EveryRunLists(s: State, run: seq<Event>)
    requires AllSee(s) && AllList(s) && PossibleRun(s, run) && NoSharedLeave(s, run)
    ensures AllList(RunFrom(s, run))
    decreases run
  {
    hide AllSee, AllList, Apply, Possible, SharedLeave;
    if run != [] {
      StepAllSee(s, run[0]);
      StepAllList(s, run[0]);
      EveryRunLists(Apply(s, run[0]), run[1..]);
    }
  }
}
