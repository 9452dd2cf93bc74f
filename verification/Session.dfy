/** One connection in offline mode as a state machine: what every inbound packet
  * changes, sends and posts to the hub, when any send may be the one that fails. */
module Session {
  import opened Bytes
  import Chunk
  import Hub

  const VIEW_DISTANCE := 8
  const VIEW_SPAN: nat := 17  // 2 * VIEW_DISTANCE + 1
  const HOTBAR_SIZE: nat := 9
  const HOTBAR_FIRST := 36
  const MIN_I32: i32 := -0x8000_0000

  type ChunkPos = (i32, i32)

  datatype Phase = Handshaking | Status | Login | Configuration | Play

  datatype Inbound =
    | Handshake(next: i32)
    | StatusRequest
    | StatusPing(payload: i64)
    | LoginStart(name: string)
    | LoginAcknowledged
    | EncryptionResponse
    | ClientInformation
    | PluginMessage
    | KnownPacks
    | KeepAlive
    | AckFinishConfiguration
    | ConfirmTeleport
    | PlayerLoaded
    | MovePlayerPos(pos: Hub.Vec, flags: i8)
    | MovePlayerPosRot(pos: Hub.Vec, yaw: real, pitch: real, flags: i8)
    | MovePlayerRot(yaw: real, pitch: real, flags: i8)
    | ChatMessage(msg: string)
    | PlayerAction(status: i32, x: i32, y: i32, z: i32, sequence: i32)
    | SetCarriedItem(slot: i16)
    | SetCreativeModeSlot(slot: i16, hasItem: bool, item: i32)
    | UseItemOn(x: i32, y: i32, z: i32, face: i32, sequence: i32)

  /** The packets each phase decodes; every other id is ignored there. */
  predicate Registered(phase: Phase, p: Inbound) {
    match phase
    case Handshaking => p.Handshake?
    case Status => p.StatusRequest? || p.StatusPing?
    case Login => p.LoginStart? || p.LoginAcknowledged? || p.EncryptionResponse?
    case Configuration =>
      p.ClientInformation? || p.PluginMessage? || p.AckFinishConfiguration? || p.KeepAlive? || p.KnownPacks?
    case Play =>
      || p.PlayerAction? || p.UseItemOn? || p.SetCreativeModeSlot? || p.SetCarriedItem? || p.ConfirmTeleport?
      || p.ClientInformation? || p.KeepAlive? || p.MovePlayerPos? || p.MovePlayerPosRot? || p.MovePlayerRot?
      || p.PlayerLoaded? || p.ChatMessage?
  }

  datatype Outgoing =
    | StatusResponse
    | StatusPong(payload: i64)
    | SetCompression(threshold: i32)
    | LoginSuccess(uuid: Hub.Uuid, name: string)
    | Brand
    | FeatureFlags
    | ClientboundKnownPacks
    | RegistryData(index: nat)
    | UpdateTags
    | FinishConfiguration
    | LoginPlay(eid: i32)
    | GameEvent(event: nat)
    | SetCenterChunk(x: i32, z: i32)
    | ChunkData(c: ChunkPos)
    | UnloadChunk(c: ChunkPos)
    | SyncPlayerPosition(teleportId: nat, pos: Hub.Vec)
    | BlockChangedAck(sequence: i32)

  /** A packet as written to the connection, in the framing of that moment. */
  datatype Frame = Frame(p: Outgoing, compressed: bool)

  datatype Post =
    | Join(eid: i32, uuid: Hub.Uuid, name: string, pos: Hub.Vec)
    | Leave(eid: i32)
    | Move(eid: i32, pos: Hub.Vec, yaw: real, pitch: real, onGround: bool)
    | Chat(eid: i32, msg: string)
    | SetBlock(x: i32, y: i32, z: i32, state: u32)

  /** The session's options and the library calls it makes: whether there is a hub,
    * the offline UUID of a name, the item table, the number of synchronised
    * registries, and the float conversion outside the 32-bit range. */
  datatype Setup = Setup(compression: int, hub: bool, offlineUuid: string -> Hub.Uuid,
                         blockForItem: (i32, nat) -> Option<u32>, registries: nat, outOfRange: int -> i32)

  /** The fields of a session; `sent` is everything written to the client, `posts`
    * everything handed to the hub, which may drop a move, and `room` is how many
    * sends will still succeed. */
  datatype Vars = Vars(phase: Phase, threshold: int, name: string, uuid: Hub.Uuid, eid: i32,
                       chunkX: i32, chunkZ: i32, loaded: set<ChunkPos>, joined: bool,
                       pos: Hub.Vec, yaw: real, pitch: real, onGround: bool,
                       hotbar: seq<i32>, slot: nat,
                       sent: seq<Frame>, posts: seq<Post>, room: nat)

  function Start(room: nat): Vars {
    Vars(Handshaking, -1, "", (0, 0), 0, 0, 0, {}, false, Hub.Vec(0.0, 0.0, 0.0), 0.0, 0.0, false,
         seq(HOTBAR_SIZE, _ => 0), 0, [], [], room)
  }

  // ---- Chunk views ----

  function ChunkOf(su: Setup, coord: real): i32 {
    var c := (coord / 16.0).Floor;
    if MIN_I32 <= c <= MAX_I32 then c else su.outOfRange(c)
  }

  /** The first and last coordinate of the scan around `c`, in 32-bit arithmetic. */
  function ScanFirst(c: i32): i32 { AsI32(c - VIEW_DISTANCE) }

  function ScanLast(c: i32): i32 { AsI32(c + VIEW_DISTANCE) }

  /** Where the nested loops stand: before a row's guard, or before a cell's. */
  datatype Cursor = AtRow(x: i32) | AtCell(x: i32, z: i32)

  /** The columns visited so far, and whether the loops have ended. */
  datatype Walked = Walked(cols: seq<ChunkPos>, ended: bool)

  /** The nested loops from a cursor on, watched for at most `rounds` loop bodies.
    * The counters wrap. */
  function Walk(cx: i32, cz: i32, at: Cursor, rounds: nat): Walked
    decreases rounds, if at.AtCell? then 1 else 0
  {
    match at
    case AtRow(x) =>
      if x > ScanLast(cx) then Walked([], true)
      else if rounds == 0 then Walked([], false)
      else Walk(cx, cz, AtCell(x, ScanFirst(cz)), rounds - 1)
    case AtCell(x, z) =>
      if z > ScanLast(cz) then Walk(cx, cz, AtRow(AsI32(x + 1)), rounds)
      else if rounds == 0 then Walked([], false)
      else
        var w := Walk(cx, cz, AtCell(x, AsI32(z + 1)), rounds - 1);
        Walked([(x, z)] + w.cols, w.ended)
  }

  function Scan(cx: i32, cz: i32, rounds: nat): Walked { Walk(cx, cz, AtRow(ScanFirst(cx)), rounds) }

  /** Enough rounds for every scan that ends: 17 rows of 17 cells. */
  const SCAN_ROUNDS: nat := 306

  /** A loop `for c := first; c <= last; c++` never ends when `last` is the largest
    * int32; the inner one only matters when the outer one runs. */
  predicate ScanEnds(cx: i32, cz: i32) {
    ScanLast(cx) != MAX_I32 && (ScanFirst(cx) <= ScanLast(cx) ==> ScanLast(cz) != MAX_I32)
  }

  /** Both ends of the view fit 32 bits. */
  predicate Fits(c: i32) { MIN_I32 <= c - VIEW_DISTANCE && c + VIEW_DISTANCE <= MAX_I32 }

  /** The (2N+1) by (2N+1) square of columns around a centre, or nothing when a side overflows. */
  function Want(cx: i32, cz: i32): set<ChunkPos> {
    if Fits(cx) && Fits(cz) then
      set x: i32, z: i32 |
        cx - VIEW_DISTANCE <= x <= cx + VIEW_DISTANCE && cz - VIEW_DISTANCE <= z <= cz + VIEW_DISTANCE
        :: (x, z)
    else {}
  }

  predicate Enumerates(order: seq<ChunkPos>, s: set<ChunkPos>) {
    && (forall i, j :: 0 <= i < j < |order| ==> order[i] != order[j])
    && (forall i :: 0 <= i < |order| ==> order[i] in s)
    && (forall c :: c in s ==> c in order)
  }

  // ---- Actions: a send with what its success changes, or a change alone ----

  datatype Action =
    | Send(p: Outgoing)
    | Compress(threshold: int)
    | Visit(c: ChunkPos)
    | Drop(c: ChunkPos)
    | Centre(x: i32, z: i32)
    | ResetView
    | Stand(pos: Hub.Vec)
    | JoinHub
    | Tell(post: Post)

  datatype Outcome = Outcome(v: Vars, ok: bool)

  function Emit(v: Vars, p: Outgoing): Outcome {
    if v.room == 0 then Outcome(v, false)
    else Outcome(v.(room := v.room - 1, sent := v.sent + [Frame(p, v.threshold >= 0)]), true)
  }

  function Act(v: Vars, a: Action): Outcome {
    match a
    case Send(p) => Emit(v, p)
    case Compress(t) =>
      var o := Emit(v, SetCompression(AsI32(t)));
      if o.ok then Outcome(o.v.(threshold := t), true) else o
    case Visit(c) =>
      if c in v.loaded then Outcome(v, true)
      else
        var o := Emit(v, ChunkData(c));
        if o.ok then Outcome(o.v.(loaded := v.loaded + {c}), true) else o
    case Drop(c) =>
      var o := Emit(v, UnloadChunk(c));
      if o.ok then Outcome(o.v.(loaded := v.loaded - {c}), true) else o
    case Centre(x, z) => Outcome(v.(chunkX := x, chunkZ := z), true)
    case ResetView => Outcome(v.(loaded := {}, chunkX := MIN_I32, chunkZ := MIN_I32), true)
    case Stand(pos) => Outcome(v.(pos := pos), true)
    case JoinHub => Outcome(v.(posts := v.posts + [Join(v.eid, v.uuid, v.name, v.pos)], joined := true), true)
    case Tell(post) => Outcome(v.(posts := v.posts + [post]), true)
  }

  /** Runs the actions in order up to the first failing send. */
  function Exec(v: Vars, script: seq<Action>): Outcome
    decreases script
  {
    if script == [] then Outcome(v, true)
    else
      var o := Act(v, script[0]);
      if o.ok then Exec(o.v, script[1..]) else o
  }

  lemma {:induction false} ExecAppend(v: Vars, a: seq<Action>, b: seq<Action>)
    ensures Exec(v, a + b) == if Exec(v, a).ok then Exec(Exec(v, a).v, b) else Exec(v, a)
    decreases a
  {
    hide Act;
    if a == [] {
      assert a + b == b;
    } else {
      assert (a + b)[1..] == a[1..] + b;
      if Act(v, a[0]).ok {
        ExecAppend(Act(v, a[0]).v, a[1..], b);
      }
    }
  }

  // ---- Handlers ----

  function Visits(cs: seq<ChunkPos>): seq<Action> { seq(|cs|, i requires 0 <= i < |cs| => Visit(cs[i])) }

  function Drops(cs: seq<ChunkPos>): seq<Action> { seq(|cs|, i requires 0 <= i < |cs| => Drop(cs[i])) }

  /** `order` is the order in which the loaded columns outside the view are met.
    * A scan that has not ended within `rounds` is still visiting columns. */
  function UpdateChunks(cx: i32, cz: i32, order: seq<ChunkPos>, rounds: nat): seq<Action> {
    var w := Scan(cx, cz, rounds);
    [Send(SetCenterChunk(cx, cz))] + Visits(w.cols)
    + (if w.ended then Drops(order) else []) + if w.ended then [Centre(cx, cz)] else []
  }

  function FinishLogin(su: Setup, v: Vars): seq<Action> {
    (if su.compression >= 0 then [Compress(su.compression)] else []) + [Send(LoginSuccess(v.uuid, v.name))]
  }

  function Registries(n: nat): seq<Action> { seq(n, i requires 0 <= i < n => Send(RegistryData(i))) }

  const SPAWN := Hub.Vec(0.0, -60.0, 0.0)

  function EnterPlay(su: Setup, v: Vars): seq<Action> {
    [Send(LoginPlay(v.eid)), Send(GameEvent(13)), ResetView] + UpdateChunks(0, 0, [], SCAN_ROUNDS)
    + [Stand(SPAWN), Send(SyncPlayerPosition(1, SPAWN))] + if su.hub then [JoinHub] else []
  }

  function HandleMove(su: Setup, v: Vars, order: seq<ChunkPos>, rounds: nat): seq<Action> {
    (if v.joined && su.hub then [Tell(Move(v.eid, v.pos, v.yaw, v.pitch, v.onGround))] else [])
    + if Crossed(su, v) then UpdateChunks(ChunkOf(su, v.pos.x), ChunkOf(su, v.pos.z), order, rounds) else []
  }

  /** The move's scan is still going after `rounds`. */
  predicate Endless(su: Setup, v: Vars, p: Inbound, rounds: nat) {
    Moves(p) && Crossed(su, v) && !Scan(ChunkOf(su, v.pos.x), ChunkOf(su, v.pos.z), rounds).ended
  }

  /** The player is no longer in the chunk the view is centred on. */
  predicate Crossed(su: Setup, v: Vars) {
    ChunkOf(su, v.pos.x) != v.chunkX || ChunkOf(su, v.pos.z) != v.chunkZ
  }

  function FaceToAxis(face: i32): nat {
    if face == 0 || face == 1 then 1 else if face == 2 || face == 3 then 2 else 0
  }

  function PlaceAgainst(x: i32, y: i32, z: i32, face: i32): (i32, i32, i32) {
    match face
    case 0 => (x, AsI32(y - 1), z)
    case 1 => (x, AsI32(y + 1), z)
    case 2 => (x, y, AsI32(z - 1))
    case 3 => (x, y, AsI32(z + 1))
    case 4 => (AsI32(x - 1), y, z)
    case 5 => (AsI32(x + 1), y, z)
    case _ => (x, y, z)
  }

  function PlaceHeld(su: Setup, v: Vars, p: Inbound): seq<Action>
    requires p.UseItemOn? && v.slot < |v.hotbar|
  {
    var item := v.hotbar[v.slot];
    var state := su.blockForItem(item, FaceToAxis(p.face));
    if !v.joined || !su.hub || item < 0 || state.None? then []
    else
      var (x, y, z) := PlaceAgainst(p.x, p.y, p.z, p.face);
      [Tell(SetBlock(x, y, z, state.value))]
  }

  function EmptyHotbar(): (h: seq<i32>)
    ensures |h| == HOTBAR_SIZE && forall i :: 0 <= i < HOTBAR_SIZE ==> h[i] == -1
  {
    seq(HOTBAR_SIZE, _ => -1)
  }

  /** The fields a packet sets before anything is sent. `eid` is the hub's next entity id. */
  function Prepared(su: Setup, v: Vars, p: Inbound, eid: i32): Vars {
    match p
    case Handshake(next) =>
      if next == 1 then v.(phase := Status) else if next == 2 || next == 3 then v.(phase := Login) else v
    case LoginStart(name) => v.(name := name, uuid := su.offlineUuid(name))
    case LoginAcknowledged => v.(phase := Configuration)
    case AckFinishConfiguration =>
      v.(phase := Play, eid := if su.hub then eid else 1, hotbar := EmptyHotbar())
    case MovePlayerPos(pos, flags) => v.(pos := pos, onGround := flags % 2 == 1)
    case MovePlayerPosRot(pos, yaw, pitch, flags) =>
      v.(pos := pos, yaw := yaw, pitch := pitch, onGround := flags % 2 == 1)
    case MovePlayerRot(yaw, pitch, flags) => v.(yaw := yaw, pitch := pitch, onGround := flags % 2 == 1)
    case SetCarriedItem(slot) => if 0 <= slot < HOTBAR_SIZE then v.(slot := slot) else v
    case SetCreativeModeSlot(slot, hasItem, item) =>
      var i := slot - HOTBAR_FIRST;
      if 0 <= i < HOTBAR_SIZE && i < |v.hotbar| then v.(hotbar := v.hotbar[i := if hasItem then item else -1]) else v
    case _ => v
  }

  predicate Moves(p: Inbound) { p.MovePlayerPos? || p.MovePlayerPosRot? || p.MovePlayerRot? }

  /** What a packet makes the session do, from the fields it has set. */
  function Script(su: Setup, v: Vars, p: Inbound, order: seq<ChunkPos>, rounds: nat): seq<Action>
    requires v.slot < |v.hotbar|
  {
    match p
    case StatusRequest => [Send(StatusResponse)]
    case StatusPing(payload) => [Send(StatusPong(payload))]
    case LoginStart(_) => FinishLogin(su, v)
    case LoginAcknowledged => [Send(Brand), Send(FeatureFlags), Send(ClientboundKnownPacks)]
    case KnownPacks => Registries(su.registries) + [Send(UpdateTags), Send(FinishConfiguration)]
    case AckFinishConfiguration => EnterPlay(su, v)
    case MovePlayerPos(_, _) => HandleMove(su, v, order, rounds)
    case MovePlayerPosRot(_, _, _, _) => HandleMove(su, v, order, rounds)
    case MovePlayerRot(_, _, _) => HandleMove(su, v, order, rounds)
    case ChatMessage(msg) => if v.joined && su.hub then [Tell(Chat(v.eid, msg))] else []
    case PlayerAction(status, x, y, z, sequence) =>
      if status != 0 && status != 2 then []
      else [Send(BlockChangedAck(sequence))] + if v.joined && su.hub then [Tell(SetBlock(x, y, z, Chunk.AIR))] else []
    case UseItemOn(_, _, _, _, sequence) => [Send(BlockChangedAck(sequence))] + PlaceHeld(su, v, p)
    case _ => []
  }

  /** Packets after which the session ends although no send failed. An Encryption
    * Response is decoded in Login whatever the mode; offline there is no key pair,
    * and reading it stops the session before anything is sent. */
  predicate Ends(p: Inbound) {
    p.StatusPing? || p.EncryptionResponse? || (p.Handshake? && !(1 <= p.next <= 3))
  }

  // ---- Runs ----

  /** What reading one frame gave: an id this phase does not decode, a packet that
    * does not decode, or a packet. */
  datatype Received = Unregistered | Malformed | Packet(p: Inbound)

  /** `order` and `rounds` are for a move: the iteration order, and how long its scan is watched. */
  datatype Turn = Turn(r: Received, eid: i32, order: seq<ChunkPos>, rounds: nat)

  predicate Possible(su: Setup, v: Vars, t: Turn) {
    t.r.Packet? ==>
      var w := Prepared(su, v, t.r.p, t.eid);
      && Registered(v.phase, t.r.p)
      && (Moves(t.r.p) && Crossed(su, w) ==>
            && t.rounds >= SCAN_ROUNDS
            && Enumerates(t.order, w.loaded - Want(ChunkOf(su, w.pos.x), ChunkOf(su, w.pos.z))))
  }

  /** Where a round of the read loop leaves the session: reading on, returning, or
    * still inside a scan that does not end. */
  datatype Next = Reading | Returning | Scanning

  datatype Stepped = Stepped(v: Vars, next: Next)

  /** One round of the read loop. */
  function Step(su: Setup, v: Vars, t: Turn): Stepped
    requires Possible(su, v, t) && v.slot < HOTBAR_SIZE == |v.hotbar|
  {
    match t.r
    case Unregistered => Stepped(v, Reading)
    case Malformed => Stepped(v, Returning)
    case Packet(p) =>
      var w := Prepared(su, v, p, t.eid);
      var o := Exec(w, Script(su, w, p, t.order, t.rounds));
      Stepped(o.v, if !o.ok || Ends(p) then Returning else if Endless(su, w, p, t.rounds) then Scanning else Reading)
  }
}
