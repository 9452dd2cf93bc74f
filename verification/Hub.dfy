/** The presence hub: one goroutine applying join, leave, move, chat and block
  * events to the player registry and telling every client about them. A run is
  * the sequence of events in the order the hub processes them. */
module Hub {
  import opened Bytes
  import opened World

  const POSITION_DELTA_UNIT: real := 4096.0
  const DELTA_LIMIT: real := 32768.0

  type EntityId = i32
  type Uuid = (u64, u64)

  datatype Property = Property(name: string, value: string, signature: string)
  datatype Profile = Profile(name: string, properties: seq<Property>)
  datatype Vec = Vec(x: real, y: real, z: real)
  datatype Delta = Delta(dx: i16, dy: i16, dz: i16)
  datatype InfoEntry = InfoEntry(uuid: Uuid, profile: Profile)

  datatype Packet =
    | PlayerInfoUpdate(entries: seq<InfoEntry>)
    | PlayerInfoRemove(uuids: seq<Uuid>)
    | AddEntity(eid: EntityId, uuid: Uuid, pos: Vec, yaw: u8, pitch: u8, headYaw: u8)
    | RemoveEntities(eids: seq<EntityId>)
    | MoveEntityPos(eid: EntityId, d: Delta, onGround: bool)
    | MoveEntityPosRot(eid: EntityId, d: Delta, yaw: u8, pitch: u8, onGround: bool)
    | MoveEntityRot(eid: EntityId, yaw: u8, pitch: u8, onGround: bool)
    | RotateHead(eid: EntityId, headYaw: u8)
    | SystemChat(content: string)
    | BlockUpdate(x: i32, y: i32, z: i32, blockState: i32)

  // ---- Outbound channels ----

  /** Everything a session's channel accepted, how many of those still wait in it,
    * and how many packets a full channel turned away. */
  datatype Outbox = Outbox(log: seq<Packet>, pending: nat, capacity: nat, drops: nat)

  function Enqueue(o: Outbox, p: Packet): Outbox {
    if o.pending < o.capacity then o.(log := o.log + [p], pending := o.pending + 1)
    else o.(drops := o.drops + 1)
  }

  function EnqueueAll(o: Outbox, ps: seq<Packet>): Outbox
    decreases ps
  {
    if ps == [] then o else EnqueueAll(Enqueue(o, ps[0]), ps[1..])
  }

  /** Nothing dropped means everything delivered, in order. */
  lemma {:induction false} NoDropDelivers(o: Outbox, ps: seq<Packet>)
    ensures EnqueueAll(o, ps).drops >= o.drops
    ensures EnqueueAll(o, ps).drops == o.drops ==> EnqueueAll(o, ps).log == o.log + ps
    decreases ps
  {
    if ps != [] {
      NoDropDelivers(Enqueue(o, ps[0]), ps[1..]);
      assert o.log + ps == o.log + [ps[0]] + ps[1..];
    } else {
      assert o.log + ps == o.log;
    }
  }

  /** A channel takes packets in order until it is full, and then none of the rest. */
  lemma {:induction false} FirstFit(o: Outbox, ps: seq<Packet>)
    requires o.pending <= o.capacity
    ensures var (o', room) := (EnqueueAll(o, ps), o.capacity - o.pending);
            && o'.log == o.log + ps[..if |ps| < room then |ps| else room]
            && o'.pending - o.pending == |o'.log| - |o.log| && o'.capacity == o.capacity
            && o'.drops - o.drops == if |ps| < room then 0 else |ps| - room
    decreases ps
  {
    if ps != [] {
      var next := Enqueue(o, ps[0]);
      FirstFit(next, ps[1..]);
      if o.pending < o.capacity {
        var k := if |ps| < o.capacity - o.pending then |ps| else o.capacity - o.pending;
        assert ps[..k] == [ps[0]] + ps[1..][..k - 1];
        assert o.log + [ps[0]] + ps[1..][..k - 1] == o.log + ([ps[0]] + ps[1..][..k - 1]);
      }
    }
  }

  // ---- Players and movement ----

  datatype Player = Player(eid: EntityId, uuid: Uuid, profile: Profile, pos: Vec, yaw: u8, pitch: u8, out: Outbox)

  type Players = map<EntityId, Player>

  datatype MoveRequest = MoveRequest(eid: EntityId, pos: Vec, yaw: real, pitch: real, onGround: bool)

  /** Go's float to integer conversion: towards zero. */
  function Trunc(r: real): int {
    if r >= 0.0 then r.Floor else -((-r).Floor)
  }

  function DegToAngle(deg: real): u8 { AsU8(Trunc(deg / 360.0 * 256.0)) }

  function Scaled(to: real, from: real): real { (to - from) * POSITION_DELTA_UNIT }

  predicate Reachable(d: real) { -DELTA_LIMIT < d < DELTA_LIMIT }

  datatype MoveKind =
    | Ignored
    | Jumped
    | Stepped(d: Delta, moved: bool, rotated: bool)

  function StepOf(d: real): (r: i16)
    requires Reachable(d)
    ensures d - 1.0 < r as real < d + 1.0
    ensures d == 0.0 ==> r == 0
  {
    Trunc(d)
  }

  function Classify(p: Player, m: MoveRequest): MoveKind {
    var dx, dy, dz := Scaled(m.pos.x, p.pos.x), Scaled(m.pos.y, p.pos.y), Scaled(m.pos.z, p.pos.z);
    var moved := dx != 0.0 || dy != 0.0 || dz != 0.0;
    var rotated := DegToAngle(m.yaw) != p.yaw || DegToAngle(m.pitch) != p.pitch;
    if !moved && !rotated then Ignored
    else if !Reachable(dx) || !Reachable(dy) || !Reachable(dz) then Jumped
    else Stepped(Delta(StepOf(dx), StepOf(dy), StepOf(dz)), moved, rotated)
  }

  /** A position advanced by what a delta packet tells the clients. */
  function Advanced(v: Vec, d: Delta): Vec {
    Vec(v.x + d.dx as real / POSITION_DELTA_UNIT,
        v.y + d.dy as real / POSITION_DELTA_UNIT,
        v.z + d.dz as real / POSITION_DELTA_UNIT)
  }

  function Moved(p: Player, m: MoveRequest): (r: Player)
    ensures r.eid == p.eid && r.uuid == p.uuid && r.profile == p.profile && r.out == p.out
  {
    match Classify(p, m)
    case Ignored => p
    case Jumped => p.(pos := m.pos, yaw := DegToAngle(m.yaw), pitch := DegToAngle(m.pitch))
    case Stepped(d, _, _) =>
      p.(pos := Advanced(p.pos, d), yaw := DegToAngle(m.yaw), pitch := DegToAngle(m.pitch))
  }

  function Spawn(p: Player): Packet { AddEntity(p.eid, p.uuid, p.pos, p.yaw, p.pitch, p.yaw) }

  function EntryOf(p: Player): InfoEntry { InfoEntry(p.uuid, p.profile) }

  /** What the other players are told about a move. */
  function MovePackets(p: Player, m: MoveRequest): seq<Packet> {
    var (yaw, pitch) := (DegToAngle(m.yaw), DegToAngle(m.pitch));
    match Classify(p, m)
    case Ignored => []
    case Jumped => [RemoveEntities([p.eid]), Spawn(Moved(p, m))]
    case Stepped(d, moved, rotated) =>
      if moved && rotated then [MoveEntityPosRot(p.eid, d, yaw, pitch, m.onGround), RotateHead(p.eid, yaw)]
      else if moved then [MoveEntityPos(p.eid, d, m.onGround)]
      else [MoveEntityRot(p.eid, yaw, pitch, m.onGround), RotateHead(p.eid, yaw)]
  }

  predicate Within(a: real, b: real, eps: real) { -eps < a - b < eps }

  /** After every handled move the recorded position is within 1/4096 of the
    * requested one on each axis, exactly equal after a jump or an ignored move,
    * and the recorded angles are always the requested ones. */
  lemma MoveAccuracy(p: Player, m: MoveRequest)
    ensures var (to, at) := (m.pos, Moved(p, m).pos);
            && Within(to.x, at.x, 1.0 / 4096.0) && Within(to.y, at.y, 1.0 / 4096.0) && Within(to.z, at.z, 1.0 / 4096.0)
            && (!Classify(p, m).Stepped? ==> at == to)
    ensures Moved(p, m).yaw == DegToAngle(m.yaw) && Moved(p, m).pitch == DegToAngle(m.pitch)
  {
    hide DegToAngle;
    var o := Classify(p, m);
    if o.Stepped? {
      AxisAccuracy(m.pos.x, p.pos.x);
      AxisAccuracy(m.pos.y, p.pos.y);
      AxisAccuracy(m.pos.z, p.pos.z);
    }
  }

  lemma AxisAccuracy(to: real, from: real)
    requires Reachable(Scaled(to, from))
    ensures Within(to, from + StepOf(Scaled(to, from)) as real / POSITION_DELTA_UNIT, 1.0 / 4096.0)
  {
    var s := StepOf(Scaled(to, from)) as real;
    assert Scaled(to, from) - 1.0 < s < Scaled(to, from) + 1.0;
  }

  /** At least eight blocks apart on some axis. */
  predicate Far(a: Vec, b: Vec) {
    || a.x - b.x >= 8.0 || b.x - a.x >= 8.0
    || a.y - b.y >= 8.0 || b.y - a.y >= 8.0
    || a.z - b.z >= 8.0 || b.z - a.z >= 8.0
  }

  /** A player despawns and respawns exactly when it moves eight blocks or more. */
  lemma JumpIff(p: Player, m: MoveRequest)
    ensures Classify(p, m).Jumped? <==> Far(m.pos, p.pos)
  {
    hide DegToAngle;
  }

  /** `d` is `r` cut towards zero. */
  predicate Cut(d: int, r: real) {
    if r >= 0.0 then d as real <= r < d as real + 1.0 else d as real - 1.0 < r <= d as real
  }

  predicate CutDelta(d: Delta, to: Vec, from: Vec) {
    && Cut(d.dx, 4096.0 * (to.x - from.x)) && Cut(d.dy, 4096.0 * (to.y - from.y)) && Cut(d.dz, 4096.0 * (to.z - from.z))
  }

  /** What the others are told of a move, and where it is recorded: a far one by
    * despawn and respawn; any other by the change of position cut to 1/4096 blocks,
    * the new angles, or both, and the head when the player turned. */
  lemma MoveTold(p: Player, m: MoveRequest, yaw: u8, pitch: u8)
    requires yaw == DegToAngle(m.yaw) && pitch == DegToAngle(m.pitch)
    ensures var (ps, turned, at) := (MovePackets(p, m), yaw != p.yaw || pitch != p.pitch, Moved(p, m).pos);
            if Far(m.pos, p.pos) then
              ps == [RemoveEntities([p.eid]), AddEntity(p.eid, p.uuid, m.pos, yaw, pitch, yaw)] && at == m.pos
            else if m.pos == p.pos then
              at == p.pos
              && ps == if turned then [MoveEntityRot(p.eid, yaw, pitch, m.onGround), RotateHead(p.eid, yaw)] else []
            else
              && |ps| > 0
              && var d := if turned then (if ps[0].MoveEntityPosRot? then ps[0].d else Delta(0, 0, 0))
                          else (if ps[0].MoveEntityPos? then ps[0].d else Delta(0, 0, 0));
                 && CutDelta(d, m.pos, p.pos)
                 && at.x == p.pos.x + d.dx as real / 4096.0 && at.y == p.pos.y + d.dy as real / 4096.0
                 && at.z == p.pos.z + d.dz as real / 4096.0
                 && ps == if turned then [MoveEntityPosRot(p.eid, d, yaw, pitch, m.onGround), RotateHead(p.eid, yaw)]
                          else [MoveEntityPos(p.eid, d, m.onGround)]
  {
    hide DegToAngle;
    JumpIff(p, m);
  }

  /** A byte is a turn cut into 256 parts, whole turns left out. */
  lemma AngleTurns(deg: real) returns (t: int)
    ensures Cut(t, deg * 256.0 / 360.0) && (t - DegToAngle(deg)) % 256 == 0
  {
    t := Trunc(deg / 360.0 * 256.0);
  }

  // ---- Events ----

  datatype JoinRequest = JoinRequest(eid: EntityId, uuid: Uuid, profile: Profile, pos: Vec, yaw: real, pitch: real,
                                     capacity: nat)

  /** `infoOrder` and `spawnOrder` are the orders in which the registry happened to be iterated. */
  datatype Event =
    | Join(r: JoinRequest, infoOrder: seq<EntityId>, spawnOrder: seq<EntityId>)
    | Leave(eid: EntityId)
    | Move(m: MoveRequest)
    | Chat(sender: EntityId, msg: string)
    | SetBlock(c: Change)
    | Drained(client: EntityId, n: nat)

  datatype State = State(players: Players, world: Option<Store>)

  function PlayerOf(r: JoinRequest): Player {
    Player(r.eid, r.uuid, r.profile, r.pos, DegToAngle(r.yaw), DegToAngle(r.pitch), Outbox([], 0, r.capacity, 0))
  }

  /** Every player except one is told the same packets. */
  function Broadcast(players: Players, except: Option<EntityId>, ps: seq<Packet>): Players {
    map e | e in players ::
      if except == Some(players[e].eid) then players[e] else players[e].(out := EnqueueAll(players[e].out, ps))
  }

  predicate VisitsAll(order: seq<EntityId>, players: Players) {
    && (forall i, j :: 0 <= i < j < |order| ==> order[i] != order[j])
    && (forall i :: 0 <= i < |order| ==> order[i] in players)
    && (forall e :: e in players ==> e in order)
  }

  function Entries(players: Players, order: seq<EntityId>): seq<InfoEntry>
    requires forall i :: 0 <= i < |order| ==> order[i] in players
  {
    seq(|order|, i requires 0 <= i < |order| => EntryOf(players[order[i]]))
  }

  function Spawns(players: Players, order: seq<EntityId>): seq<Packet>
    requires forall i :: 0 <= i < |order| ==> order[i] in players
  {
    seq(|order|, i requires 0 <= i < |order| => Spawn(players[order[i]]))
  }

  function Welcome(players: Players, p: Player, infoOrder: seq<EntityId>, spawnOrder: seq<EntityId>): seq<Packet>
    requires VisitsAll(infoOrder, players) && VisitsAll(spawnOrder, players)
  {
    [PlayerInfoUpdate(Entries(players, infoOrder) + [EntryOf(p)])] + Spawns(players, spawnOrder)
  }

  /** A joining entity id is not in use; iteration visits every player once. */
  predicate Possible(s: State, ev: Event) {
    ev.Join? ==> ev.r.eid !in s.players && VisitsAll(ev.infoOrder, s.players) && VisitsAll(ev.spawnOrder, s.players)
  }

  function AfterJoin(players: Players, ev: Event): Players
    requires ev.Join? && VisitsAll(ev.infoOrder, players) && VisitsAll(ev.spawnOrder, players)
  {
    var p := PlayerOf(ev.r);
    Broadcast(players, None, [PlayerInfoUpdate([EntryOf(p)]), Spawn(p)])
      [p.eid := p.(out := EnqueueAll(p.out, Welcome(players, p, ev.infoOrder, ev.spawnOrder)))]
  }

  function AfterLeave(players: Players, eid: EntityId): Players {
    if eid !in players then players
    else Broadcast(players - {eid}, None, [RemoveEntities([eid]), PlayerInfoRemove([players[eid].uuid])])
  }

  function AfterMove(players: Players, m: MoveRequest): Players {
    if m.eid !in players then players
    else
      var p := players[m.eid];
      Broadcast(players[m.eid := Moved(p, m)], Some(p.eid), MovePackets(p, m))
  }

  function AfterChat(players: Players, sender: EntityId, msg: string): Players {
    if sender !in players then players
    else Broadcast(players, None, [SystemChat("<" + players[sender].profile.name + "> " + msg)])
  }

  function UpdatePacket(c: Change): Packet { BlockUpdate(c.x, c.y, c.z, AsI32(c.state)) }

  function AfterSetBlock(s: State, c: Change): State {
    if s.world.None? || !Buildable(c.y) then s
    else State(Broadcast(s.players, None, [UpdatePacket(c)]), Some(Updated(s.world.value, c)))
  }

  function AfterDrain(players: Players, client: EntityId, n: nat): Players {
    if client !in players || n > players[client].out.pending then players
    else
      var p := players[client];
      players[client := p.(out := p.out.(pending := p.out.pending - n))]
  }

  function Apply(s: State, ev: Event): State
    requires Possible(s, ev)
  {
    match ev
    case Join(_, _, _) => s.(players := AfterJoin(s.players, ev))
    case Leave(eid) => s.(players := AfterLeave(s.players, eid))
    case Move(m) => s.(players := AfterMove(s.players, m))
    case Chat(sender, msg) => s.(players := AfterChat(s.players, sender, msg))
    case SetBlock(c) => AfterSetBlock(s, c)
    case Drained(client, n) => s.(players := AfterDrain(s.players, client, n))
  }

  // ---- Runs ----

  function Start(world: Option<Store>): State { State(map[], world) }

  predicate PossibleRun(s: State, run: seq<Event>)
    decreases run
  {
    run == [] || (Possible(s, run[0]) && PossibleRun(Apply(s, run[0]), run[1..]))
  }

  function RunFrom(s: State, run: seq<Event>): State
    requires PossibleRun(s, run)
    decreases run
  {
    if run == [] then s else RunFrom(Apply(s, run[0]), run[1..])
  }
}
