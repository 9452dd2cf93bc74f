/** What a session says and does for its player, packet by packet and over whole
  * runs: an account kept from the received packets alone, which the session's
  * fields, its answers and its posts to the hub always match. */
module SessionDeeds {
  import opened Bytes
  import Hub
  import opened Session
  import opened SessionScan
  import opened SessionProofs
  import opened SessionRuns
  import opened SessionView

  /** What is known of a player from its packets, what it was answered beside its
    * columns, and what the hub was asked for it. */
  datatype Account = Account(phase: Phase, name: string, uuid: Hub.Uuid, eid: i32,
                             pos: Hub.Vec, yaw: real, pitch: real, onGround: bool,
                             slot: nat, items: seq<i32>, answers: seq<Outgoing>, posts: seq<Post>)

  const NOBODY := Account(Handshaking, "", (0, 0), 0, Hub.Vec(0.0, 0.0, 0.0), 0.0, 0.0, false,
                          0, [0, 0, 0, 0, 0, 0, 0, 0, 0], [], [])

  function Answered(a: Account, ps: seq<Outgoing>): Account { a.(answers := a.answers + ps) }

  function Asked(su: Setup, a: Account, posts: seq<Post>): Account {
    if su.hub && a.phase.Play? then a.(posts := a.posts + posts) else a
  }

  function Moving(su: Setup, a: Account): Account {
    Asked(su, a, [Move(a.eid, a.pos, a.yaw, a.pitch, a.onGround)])
  }

  /** The state placed is that of the item in the selected slot, for the axis of the face. */
  function Placing(su: Setup, a: Account, x: i32, y: i32, z: i32, face: i32): seq<Post>
    requires a.slot < |a.items|
  {
    var item := a.items[a.slot];
    var state := su.blockForItem(item, if face in [0, 1] then 1 else if face in [2, 3] then 2 else 0);
    if item < 0 || state.None? then []
    else
      var (x', y', z') := PlaceAgainst(x, y, z, face);
      [SetBlock(x', y', z', state.value)]
  }

  function Heard(su: Setup, a: Account, p: Inbound, eid: i32): Account
    requires |a.items| == 9 && a.slot < 9
  {
    match p
    case Handshake(next) => a.(phase := if next == 1 then Status else Login)
    case StatusRequest => Answered(a, [StatusResponse])
    case LoginStart(name) =>
      Answered(a.(name := name, uuid := su.offlineUuid(name)),
               (if su.compression >= 0 then [SetCompression(AsI32(su.compression))] else [])
               + [LoginSuccess(su.offlineUuid(name), name)])
    case LoginAcknowledged => Answered(a.(phase := Configuration), [Brand, FeatureFlags, ClientboundKnownPacks])
    case KnownPacks =>
      Answered(a, seq(su.registries, i requires 0 <= i < su.registries => RegistryData(i))
                  + [UpdateTags, FinishConfiguration])
    case AckFinishConfiguration =>
      var e := if su.hub then eid else 1;
      var spawn := Hub.Vec(0.0, -60.0, 0.0);
      Asked(su, Answered(a.(phase := Play, eid := e, pos := spawn, items := [-1, -1, -1, -1, -1, -1, -1, -1, -1]),
                         [LoginPlay(e), GameEvent(13), SyncPlayerPosition(1, spawn)]),
            [Join(e, a.uuid, a.name, spawn)])
    case MovePlayerPos(pos, flags) => Moving(su, a.(pos := pos, onGround := flags % 2 == 1))
    case MovePlayerPosRot(pos, yaw, pitch, flags) =>
      Moving(su, a.(pos := pos, yaw := yaw, pitch := pitch, onGround := flags % 2 == 1))
    case MovePlayerRot(yaw, pitch, flags) =>
      Moving(su, a.(yaw := yaw, pitch := pitch, onGround := flags % 2 == 1))
    case ChatMessage(msg) => Asked(su, a, [Chat(a.eid, msg)])
    case PlayerAction(status, x, y, z, sequence) =>
      if status == 0 || status == 2 then Asked(su, Answered(a, [BlockChangedAck(sequence)]), [SetBlock(x, y, z, 0)])
      else a
    case SetCarriedItem(slot) => if 0 <= slot <= 8 then a.(slot := slot) else a
    case SetCreativeModeSlot(slot, hasItem, item) =>
      if 36 <= slot <= 44 then a.(items := a.items[slot - 36 := if hasItem then item else -1]) else a
    case UseItemOn(x, y, z, face, sequence) =>
      Asked(su, Answered(a, [BlockChangedAck(sequence)]), Placing(su, a, x, y, z, face))
    case _ => a
  }

  function HeardAll(su: Setup, a: Account, run: seq<Turn>): (b: Account)
    requires |a.items| == 9 && a.slot < 9
    ensures |b.items| == 9 && b.slot < 9
    decreases run
  {
    if run == [] then a
    else HeardAll(su, if run[0].r.Packet? then Heard(su, a, run[0].r.p, run[0].eid) else a, run[1..])
  }

  // ---- The session matches the account ----

  predicate OfView(p: Outgoing) { p.SetCenterChunk? || p.ChunkData? || p.UnloadChunk? }

  /** What was sent beside the view. */
  function Talk(sent: seq<Frame>): seq<Outgoing> {
    if sent == [] then []
    else
      var p := sent[|sent| - 1].p;
      Talk(sent[..|sent| - 1]) + if OfView(p) then [] else [p]
  }

  predicate Matches(su: Setup, v: Vars, a: Account) {
    && v.phase == a.phase && v.name == a.name && v.uuid == a.uuid && v.eid == a.eid
    && v.pos == a.pos && v.yaw == a.yaw && v.pitch == a.pitch && v.onGround == a.onGround
    && v.slot == a.slot < 9 && v.hotbar == a.items && |a.items| == 9
    && Talk(v.sent) == a.answers && v.posts == a.posts && (v.joined <==> su.hub && v.phase.Play?)
  }

  function SaysOne(a: Action): seq<Outgoing> {
    match a
    case Send(p) => if OfView(p) then [] else [p]
    case Compress(t) => [SetCompression(AsI32(t))]
    case _ => []
  }

  function Says(script: seq<Action>): seq<Outgoing> {
    if script == [] then [] else SaysOne(script[0]) + Says(script[1..])
  }

  function Tells(script: seq<Action>): seq<Post> {
    if script == [] then [] else (if script[0].Tell? then [script[0].post] else []) + Tells(script[1..])
  }

  lemma TalkOne(sent: seq<Frame>, f: Frame)
    ensures Talk(sent + [f]) == Talk(sent) + if OfView(f.p) then [] else [f.p]
  {
    assert (sent + [f])[..|sent|] == sent;
  }

  lemma ActSays(v: Vars, a: Action)
    requires Act(v, a).ok
    ensures var w := Act(v, a).v;
            && Talk(w.sent) == Talk(v.sent) + SaysOne(a)
            && (!a.JoinHub? ==> w.posts == v.posts + (if a.Tell? then [a.post] else []) && w.joined == v.joined)
            && (!a.Stand? ==> w.pos == v.pos)
            && w == v.(chunkX := w.chunkX, chunkZ := w.chunkZ, loaded := w.loaded, joined := w.joined, pos := w.pos,
                       threshold := w.threshold, sent := w.sent, posts := w.posts, room := w.room)
  {
    hide Talk;
    var framed := v.threshold >= 0;
    match a {
      case Send(p) => TalkOne(v.sent, Frame(p, framed));
      case Compress(t) => TalkOne(v.sent, Frame(SetCompression(AsI32(t)), framed));
      case Visit(c) => TalkOne(v.sent, Frame(ChunkData(c), framed));
      case Drop(c) => TalkOne(v.sent, Frame(UnloadChunk(c), framed));
      case _ =>
    }
  }

  /** A script that runs through says and tells what its actions do. */
  lemma {:induction false} ExecSays(v: Vars, script: seq<Action>)
    requires Exec(v, script).ok
    ensures var w := Exec(v, script).v;
            && Talk(w.sent) == Talk(v.sent) + Says(script)
            && (JoinHub !in script ==> w.posts == v.posts + Tells(script) && w.joined == v.joined)
            && ((forall a :: a in script ==> !a.Stand?) ==> w.pos == v.pos)
            && w == v.(chunkX := w.chunkX, chunkZ := w.chunkZ, loaded := w.loaded, joined := w.joined, pos := w.pos,
                       threshold := w.threshold, sent := w.sent, posts := w.posts, room := w.room)
    decreases script
  {
    hide Act, Talk, SaysOne, Says, Tells;
    if script == [] {
      SaysNothing();
      assert Talk(v.sent) + [] == Talk(v.sent) && v.posts + [] == v.posts;
    } else {
      var w := Act(v, script[0]).v;
      ActSays(v, script[0]);
      SaysFirst(script);
      ExecSays(w, script[1..]);
      assert Talk(v.sent) + SaysOne(script[0]) + Says(script[1..])
             == Talk(v.sent) + (SaysOne(script[0]) + Says(script[1..]));
      var told := if script[0].Tell? then [script[0].post] else [];
      assert v.posts + told + Tells(script[1..]) == v.posts + (told + Tells(script[1..]));
    }
  }

  lemma {:induction false} SaysAppend(a: seq<Action>, b: seq<Action>)
    ensures Says(a + b) == Says(a) + Says(b) && Tells(a + b) == Tells(a) + Tells(b)
  {
    hide Says, Tells;
    SaysNothing();
    if a == [] {
      assert a + b == b;
    } else {
      assert (a + b)[1..] == a[1..] + b;
      SaysFirst(a);
      SaysFirst(a + b);
      SaysAppend(a[1..], b);
    }
  }

  lemma SaysFirst(a: seq<Action>)
    requires a != []
    ensures Says(a) == SaysOne(a[0]) + Says(a[1..])
    ensures Tells(a) == (if a[0].Tell? then [a[0].post] else []) + Tells(a[1..])
  {
    hide SaysOne;
  }

  lemma SaysNothing()
    ensures Says([]) == [] && Tells([]) == []
  {
  }

  /** Streaming columns says and tells nothing else. */
  lemma {:induction false} ViewSays(script: seq<Action>)
    requires forall a :: a in script ==> a.Visit? || a.Drop? || a.Centre? || (a.Send? && OfView(a.p))
    ensures Says(script) == [] && Tells(script) == []
  {
    if script != [] {
      assert script[0] in script;
      ViewSays(script[1..]);
    }
  }

  lemma UpdateSays(cx: i32, cz: i32, order: seq<ChunkPos>, rounds: nat)
    ensures var script := UpdateChunks(cx, cz, order, rounds);
            && Says(script) == [] && Tells(script) == []
            && JoinHub !in script && forall a :: a in script ==> !a.Stand?
  {
    hide Scan, Says, Tells;
    ViewSays(UpdateChunks(cx, cz, order, rounds));
  }

  // ---- Packet by packet ----

  lemma SaysTwo(a: Action, b: Action)
    ensures Says([a]) == SaysOne(a) && Says([a, b]) == SaysOne(a) + SaysOne(b)
    ensures Tells([a]) == (if a.Tell? then [a.post] else [])
    ensures Tells([a, b]) == (if a.Tell? then [a.post] else []) + (if b.Tell? then [b.post] else [])
  {
    hide SaysOne;
    assert [a][1..] == [] && [a, b][1..] == [b] && [b][1..] == [];
    assert Says([]) == [] && Tells([]) == [];
    assert Says([b]) == SaysOne(b) + Says([]) && Tells([b]) == (if b.Tell? then [b.post] else []) + Tells([]);
  }

  /** Everything a script leaves alone. */
  predicate SamePlayer(v: Vars, w: Vars) {
    && w.phase == v.phase && w.name == v.name && w.uuid == v.uuid && w.eid == v.eid && w.yaw == v.yaw
    && w.pitch == v.pitch && w.onGround == v.onGround && w.slot == v.slot && w.hotbar == v.hotbar
  }

  lemma EnterParts(su: Setup, w: Vars)
    ensures var (a, c) := ([Send(LoginPlay(w.eid)), Send(GameEvent(13)), ResetView],
                           [Stand(SPAWN), Send(SyncPlayerPosition(1, SPAWN))]);
            && EnterPlay(su, w) == a + UpdateChunks(0, 0, [], SCAN_ROUNDS) + c + (if su.hub then [JoinHub] else [])
            && Says(a) == [LoginPlay(w.eid), GameEvent(13)] && Tells(a) == []
            && Says(c) == [SyncPlayerPosition(1, SPAWN)] && Tells(c) == []
  {
    hide UpdateChunks, Says, Tells;
    SaysTwo(Send(LoginPlay(w.eid)), Send(GameEvent(13)));
    SaysTwo(ResetView, ResetView);
    SaysAppend([Send(LoginPlay(w.eid)), Send(GameEvent(13))], [ResetView]);
    assert [Send(LoginPlay(w.eid)), Send(GameEvent(13))] + [ResetView]
           == [Send(LoginPlay(w.eid)), Send(GameEvent(13)), ResetView];
    SaysTwo(Stand(SPAWN), Send(SyncPlayerPosition(1, SPAWN)));
  }

  lemma StandThere(su: Setup, v: Vars, p: Outgoing)
    requires Exec(v, [Stand(SPAWN), Send(p)]).ok
    ensures Exec(v, [Stand(SPAWN), Send(p)]).v.pos == SPAWN
  {
    hide Exec, AllowedAll, Allowed;
    assert [Stand(SPAWN), Send(p)] == [Stand(SPAWN)] + [Send(p)];
    ExecAppend(v, [Stand(SPAWN)], [Send(p)]);
    AllowedOne(su, v, Stand(SPAWN));
    AllowedOne(su, v.(pos := SPAWN), Send(p));
  }

  lemma EnterSays(su: Setup, w: Vars)
    requires Exec(w, EnterPlay(su, w)).ok
    ensures var v := Exec(w, EnterPlay(su, w)).v;
            && SamePlayer(w, v) && v.pos == SPAWN && v.joined == (w.joined || su.hub)
            && Talk(v.sent) == Talk(w.sent) + [LoginPlay(w.eid), GameEvent(13), SyncPlayerPosition(1, SPAWN)]
            && v.posts == w.posts + if su.hub then [Join(w.eid, w.uuid, w.name, SPAWN)] else []
  {
    hide Exec, Talk, Says, Tells, UpdateChunks, EnterPlay, AllowedAll, Allowed;
    var a := [Send(LoginPlay(w.eid)), Send(GameEvent(13)), ResetView];
    var b := UpdateChunks(0, 0, [], SCAN_ROUNDS);
    var c := [Stand(SPAWN), Send(SyncPlayerPosition(1, SPAWN))];
    var d := if su.hub then [JoinHub] else [];
    EnterParts(su, w);
    Chained(w, a, b, c, d);
    var va := Exec(w, a).v;
    ExecSays(w, a);
    UpdateSays(0, 0, [], SCAN_ROUNDS);
    var vb := Exec(va, b).v;
    ExecSays(va, b);
    var vc := Exec(vb, c).v;
    ExecSays(vb, c);
    StandThere(su, vb, SyncPlayerPosition(1, SPAWN));
    AllowedOne(su, vc, JoinHub);
    AllowedNone(su, vc);
    assert Talk(w.sent) + [LoginPlay(w.eid), GameEvent(13)] + [] + [SyncPlayerPosition(1, SPAWN)]
           == Talk(w.sent) + [LoginPlay(w.eid), GameEvent(13), SyncPlayerPosition(1, SPAWN)];
  }

  /** What the script of any packet but the one that enters Play says and tells. */
  function Saying(su: Setup, w: Vars, p: Inbound): seq<Outgoing>
  {
    match p
    case StatusRequest => [StatusResponse]
    case LoginStart(_) =>
      (if su.compression >= 0 then [SetCompression(AsI32(su.compression))] else []) + [LoginSuccess(w.uuid, w.name)]
    case LoginAcknowledged => [Brand, FeatureFlags, ClientboundKnownPacks]
    case KnownPacks =>
      seq(su.registries, i requires 0 <= i < su.registries => RegistryData(i)) + [UpdateTags, FinishConfiguration]
    case PlayerAction(status, _, _, _, sequence) =>
      if status == 0 || status == 2 then [BlockChangedAck(sequence)] else []
    case UseItemOn(_, _, _, _, sequence) => [BlockChangedAck(sequence)]
    case _ => []
  }

  function Telling(su: Setup, w: Vars, p: Inbound): seq<Post>
    requires w.slot < |w.hotbar|
  {
    if !w.joined || !su.hub then []
    else match p
      case ChatMessage(msg) => [Chat(w.eid, msg)]
      case PlayerAction(status, x, y, z, _) => if status == 0 || status == 2 then [SetBlock(x, y, z, 0)] else []
      case UseItemOn(x, y, z, face, _) =>
        var item := w.hotbar[w.slot];
        var state := su.blockForItem(item, if face in [0, 1] then 1 else if face in [2, 3] then 2 else 0);
        if item < 0 || state.None? then []
        else
          var (x', y', z') := PlaceAgainst(x, y, z, face);
          [SetBlock(x', y', z', state.value)]
      case _ => if Moves(p) then [Move(w.eid, w.pos, w.yaw, w.pitch, w.onGround)] else []
  }

  lemma {:induction false} RegistriesSay(n: nat, from: nat)
    requires from <= n
    ensures Says(Registries(n)[from..]) == seq(n, i requires 0 <= i < n => RegistryData(i))[from..]
    ensures Tells(Registries(n)[from..]) == []
    decreases n - from
  {
    if from < n {
      RegistriesSay(n, from + 1);
      assert Registries(n)[from..][1..] == Registries(n)[from + 1..];
    }
  }

  lemma QuietSays(su: Setup, w: Vars, p: Inbound, order: seq<ChunkPos>, rounds: nat)
    requires !p.AckFinishConfiguration? && !Moves(p) && !p.StatusPing? && w.slot < |w.hotbar|
    ensures var script := Script(su, w, p, order, rounds);
            && Says(script) == Saying(su, w, p) && Tells(script) == Telling(su, w, p)
  {
    hide UpdateChunks, Says, Tells, Registries, FinishLogin, PlaceHeld;
    SaysNothing();
    match p {
      case StatusRequest => SaysTwo(Send(StatusResponse), ResetView);
      case LoginStart(_) => LoginSays(su, w);
      case LoginAcknowledged => ConfigurationSays();
      case KnownPacks => RegistrySays(su.registries);
      case ChatMessage(msg) => SaysTwo(Tell(Chat(w.eid, msg)), ResetView);
      case PlayerAction(_, x, y, z, sequence) => AckThen(sequence, SetBlock(x, y, z, 0));
      case UseItemOn(x, y, z, face, sequence) => PlaceSays(su, w, p);
      case _ =>
    }
  }

  lemma LoginSays(su: Setup, w: Vars)
    ensures Says(FinishLogin(su, w))
            == (if su.compression >= 0 then [SetCompression(AsI32(su.compression))] else [])
               + [LoginSuccess(w.uuid, w.name)]
    ensures Tells(FinishLogin(su, w)) == []
  {
    hide Says, Tells;
    SaysNothing();
    SaysTwo(Compress(su.compression), Send(LoginSuccess(w.uuid, w.name)));
    SaysTwo(Send(LoginSuccess(w.uuid, w.name)), ResetView);
    SaysAppend([Compress(su.compression)], [Send(LoginSuccess(w.uuid, w.name))]);
    SaysAppend([], [Send(LoginSuccess(w.uuid, w.name))]);
  }

  lemma ConfigurationSays()
    ensures var script := [Send(Brand), Send(FeatureFlags), Send(ClientboundKnownPacks)];
            Says(script) == [Brand, FeatureFlags, ClientboundKnownPacks] && Tells(script) == []
  {
    hide Says, Tells;
    SaysTwo(Send(Brand), Send(FeatureFlags));
    SaysTwo(Send(ClientboundKnownPacks), Send(Brand));
    SaysAppend([Send(Brand), Send(FeatureFlags)], [Send(ClientboundKnownPacks)]);
    assert [Send(Brand), Send(FeatureFlags)] + [Send(ClientboundKnownPacks)]
           == [Send(Brand), Send(FeatureFlags), Send(ClientboundKnownPacks)];
  }

  lemma RegistrySays(n: nat)
    ensures var script := Registries(n) + [Send(UpdateTags), Send(FinishConfiguration)];
            && Says(script) == seq(n, i requires 0 <= i < n => RegistryData(i)) + [UpdateTags, FinishConfiguration]
            && Tells(script) == []
  {
    hide Says, Tells;
    RegistriesSay(n, 0);
    SaysTwo(Send(UpdateTags), Send(FinishConfiguration));
    SaysAppend(Registries(n), [Send(UpdateTags), Send(FinishConfiguration)]);
  }

  lemma PlaceSays(su: Setup, w: Vars, p: Inbound)
    requires p.UseItemOn? && w.slot < |w.hotbar|
    ensures var script := [Send(BlockChangedAck(p.sequence))] + PlaceHeld(su, w, p);
            Says(script) == [BlockChangedAck(p.sequence)] && Tells(script) == Telling(su, w, p)
  {
    hide Says, Tells, PlaceAgainst;
    SaysNothing();
    var placed := PlaceHeld(su, w, p);
    if placed != [] {
      AckThen(p.sequence, placed[0].post);
    } else {
      AckThen(p.sequence, Chat(0, ""));
    }
  }

  lemma AckThen(sequence: i32, post: Post)
    ensures var (ack, tell) := ([Send(BlockChangedAck(sequence))], [Tell(post)]);
            && Says(ack + tell) == Says(ack + []) == [BlockChangedAck(sequence)]
            && Tells(ack + tell) == [post] && Tells(ack + []) == []
  {
    hide Says, Tells;
    SaysNothing();
    SaysTwo(Send(BlockChangedAck(sequence)), Tell(post));
    SaysTwo(Tell(post), Tell(post));
    SaysAppend([Send(BlockChangedAck(sequence))], [Tell(post)]);
    SaysAppend([Send(BlockChangedAck(sequence))], []);
  }

  lemma MoveSays(su: Setup, w: Vars, order: seq<ChunkPos>, rounds: nat)
    ensures var script := HandleMove(su, w, order, rounds);
            && Says(script) == [] && JoinHub !in script && (forall a :: a in script ==> !a.Stand?)
            && Tells(script)
               == if w.joined && su.hub then [Move(w.eid, w.pos, w.yaw, w.pitch, w.onGround)] else []
  {
    hide Says, Tells, UpdateChunks, ChunkOf;
    var (cx, cz) := (ChunkOf(su, w.pos.x), ChunkOf(su, w.pos.z));
    var move := Move(w.eid, w.pos, w.yaw, w.pitch, w.onGround);
    var told := if w.joined && su.hub then [Tell(move)] else [];
    SaysNothing();
    SaysTwo(Tell(move), Tell(move));
    UpdateSays(cx, cz, order, rounds);
    SaysAppend(told, UpdateChunks(cx, cz, order, rounds));
    SaysAppend(told, []);
  }

  lemma NoStanding(su: Setup, w: Vars, p: Inbound, order: seq<ChunkPos>, rounds: nat)
    requires !p.AckFinishConfiguration? && !Moves(p) && w.slot < |w.hotbar|
    ensures var script := Script(su, w, p, order, rounds);
            JoinHub !in script && forall a :: a in script ==> !a.Stand?
  {
    hide UpdateChunks;
  }

  /** What a script that ran through has left, for any packet but the one that enters Play. */
  predicate Done(su: Setup, w: Vars, p: Inbound, v: Vars)
    requires w.slot < |w.hotbar|
  {
    && SamePlayer(w, v) && v.pos == w.pos && v.joined == w.joined
    && Talk(v.sent) == Talk(w.sent) + Saying(su, w, p) && v.posts == w.posts + Telling(su, w, p)
  }

  lemma ScriptDone(su: Setup, w: Vars, p: Inbound, order: seq<ChunkPos>, rounds: nat)
    requires w.slot < |w.hotbar| && !p.AckFinishConfiguration? && !p.StatusPing?
    requires Exec(w, Script(su, w, p, order, rounds)).ok
    ensures Done(su, w, p, Exec(w, Script(su, w, p, order, rounds)).v)
  {
    hide Exec, Script, Talk, Says, Tells, EnterPlay, HandleMove;
    ScriptCases(su, w, p, order, rounds);
    ExecSays(w, Script(su, w, p, order, rounds));
    if Moves(p) {
      MoveSays(su, w, order, rounds);
    } else {
      NoStanding(su, w, p, order, rounds);
      QuietSays(su, w, p, order, rounds);
    }
  }

  lemma ReadingOn(su: Setup, v: Vars, t: Turn)
    requires Possible(su, v, t) && t.r.Packet? && v.slot < HOTBAR_SIZE == |v.hotbar|
    requires Step(su, v, t).next.Reading?
    ensures !Ends(t.r.p)
    ensures var w := Prepared(su, v, t.r.p, t.eid);
            && w.slot < |w.hotbar|
            && Exec(w, Script(su, w, t.r.p, t.order, t.rounds)).ok
            && Step(su, v, t).v == Exec(w, Script(su, w, t.r.p, t.order, t.rounds)).v
  {
    hide Exec, Script, Scan, ChunkOf, Enumerates, Want;
  }

  /** One packet: what the session has done is what the account says. */
  lemma StepMatches(su: Setup, v: Vars, t: Turn, a: Account)
    requires Possible(su, v, t) && Matches(su, v, a) && Step(su, v, t).next.Reading? && t.r.Packet?
    ensures Matches(su, Step(su, v, t).v, Heard(su, a, t.r.p, t.eid))
  {
    hide Exec, Script, Talk, Possible, Matches, EnterPlay, Heard, Prepared, Done, Step;
    var p := t.r.p;
    var w := Prepared(su, v, p, t.eid);
    AccountFields(su, v, a);
    ReadingOn(su, v, t);
    InPhase(su, v, t);
    var v' := Step(su, v, t).v;
    if p.AckFinishConfiguration? {
      ScriptCases(su, w, p, t.order, t.rounds);
      EnterSays(su, w);
      EnterMatches(su, v, a, t.eid, w, v');
    } else {
      ScriptDone(su, w, p, t.order, t.rounds);
      DoneMatches(su, v, a, p, t.eid, w, v');
    }
  }

  lemma AccountFields(su: Setup, v: Vars, a: Account)
    requires Matches(su, v, a)
    ensures v.slot < HOTBAR_SIZE == |v.hotbar| && a.slot < 9 == |a.items|
  {
    hide Talk;
  }

  lemma InPhase(su: Setup, v: Vars, t: Turn)
    requires Possible(su, v, t) && t.r.Packet?
    ensures Registered(v.phase, t.r.p)
  {
  }

  lemma EnterMatches(su: Setup, v: Vars, a: Account, eid: i32, w: Vars, v': Vars)
    requires Matches(su, v, a) && Registered(v.phase, AckFinishConfiguration)
    requires w == Prepared(su, v, AckFinishConfiguration, eid)
    requires SamePlayer(w, v') && v'.pos == SPAWN && v'.joined == (w.joined || su.hub)
    requires Talk(v'.sent) == Talk(w.sent) + [LoginPlay(w.eid), GameEvent(13), SyncPlayerPosition(1, SPAWN)]
    requires v'.posts == w.posts + if su.hub then [Join(w.eid, w.uuid, w.name, SPAWN)] else []
    ensures Matches(su, v', Heard(su, a, AckFinishConfiguration, eid))
  {
    hide Talk;
    assert EmptyHotbar() == [-1, -1, -1, -1, -1, -1, -1, -1, -1];
    assert v'.posts == if su.hub then w.posts + [Join(w.eid, w.uuid, w.name, SPAWN)] else w.posts;
  }

  lemma DoneMatches(su: Setup, v: Vars, a: Account, p: Inbound, eid: i32, w: Vars, v': Vars)
    requires Matches(su, v, a) && Registered(v.phase, p) && !p.AckFinishConfiguration? && !Ends(p)
    requires w == Prepared(su, v, p, eid) && w.slot < |w.hotbar| && Done(su, w, p, v')
    ensures Matches(su, v', Heard(su, a, p, eid))
  {
    hide Talk, PlaceAgainst, Telling, Saying;
    assert Talk(v.sent) + [] == Talk(v.sent) && v.posts + [] == v.posts;
    TellingCases(su, w, p);
    if p.UseItemOn? || p.PlayerAction? {
      HandMatches(su, v, a, p, eid, w, v');
    } else if Moves(p) {
      MoveMatches(su, v, a, p, eid, w, v');
    }
  }

  lemma MoveMatches(su: Setup, v: Vars, a: Account, p: Inbound, eid: i32, w: Vars, v': Vars)
    requires Matches(su, v, a) && Registered(v.phase, p) && Moves(p)
    requires w == Prepared(su, v, p, eid) && w.slot < |w.hotbar| && Done(su, w, p, v')
    ensures Matches(su, v', Heard(su, a, p, eid))
  {
    hide Talk, Telling, Saying;
    assert Talk(v.sent) + [] == Talk(v.sent) && v.posts + [] == v.posts;
    TellingCases(su, w, p);
  }

  lemma TellingCases(su: Setup, w: Vars, p: Inbound)
    requires w.slot < |w.hotbar|
    ensures !p.UseItemOn? && !p.PlayerAction? ==>
              && Saying(su, w, p)
                 == (if p.StatusRequest? then [StatusResponse]
                     else if p.LoginStart? then
                       (if su.compression >= 0 then [SetCompression(AsI32(su.compression))] else [])
                       + [LoginSuccess(w.uuid, w.name)]
                     else if p.LoginAcknowledged? then [Brand, FeatureFlags, ClientboundKnownPacks]
                     else if p.KnownPacks? then
                       seq(su.registries, i requires 0 <= i < su.registries => RegistryData(i))
                       + [UpdateTags, FinishConfiguration]
                     else [])
              && Telling(su, w, p)
                 == if !w.joined || !su.hub then []
                    else if p.ChatMessage? then [Chat(w.eid, p.msg)]
                    else if Moves(p) then [Move(w.eid, w.pos, w.yaw, w.pitch, w.onGround)] else []
  {
  }

  lemma HandMatches(su: Setup, v: Vars, a: Account, p: Inbound, eid: i32, w: Vars, v': Vars)
    requires Matches(su, v, a) && Registered(v.phase, p) && (p.UseItemOn? || p.PlayerAction?)
    requires w == Prepared(su, v, p, eid) && w.slot < |w.hotbar| && Done(su, w, p, v')
    ensures Matches(su, v', Heard(su, a, p, eid))
  {
    hide Talk, PlaceAgainst;
    assert Talk(v.sent) + [] == Talk(v.sent) && v.posts + [] == v.posts;
  }

  // ---- Whole runs ----

  lemma {:induction false} RunMatches(su: Setup, v: Vars, run: seq<Turn>, a: Account)
    requires PossibleRun(su, v, run) && AllWell(su, v, run) && Matches(su, v, a) && |a.items| == 9 && a.slot < 9
    ensures Matches(su, Serve(su, v, run).v, HeardAll(su, a, run))
    decreases run
  {
    hide Step, Possible, Matches, Heard;
    if run != [] {
      var t := run[0];
      if t.r.Packet? {
        StepMatches(su, v, t, a);
        AccountFields(su, Step(su, v, t).v, Heard(su, a, t.r.p, t.eid));
        RunMatches(su, Step(su, v, t).v, run[1..], Heard(su, a, t.r.p, t.eid));
      } else {
        Unheard(su, v, t);
        RunMatches(su, v, run[1..], a);
      }
    }
  }

  lemma Unheard(su: Setup, v: Vars, t: Turn)
    requires Possible(su, v, t) && v.slot < HOTBAR_SIZE == |v.hotbar| && !t.r.Packet?
    ensures Step(su, v, t).next.Reading? ==> Step(su, v, t).v == v
  {
  }

  /** In every run that is still reading, everything the session knows of its player,
    * everything it said beside the columns and everything it asked of the hub is
    * what the account of the received packets says. */
  lemma EveryDeed(su: Setup, room: nat, run: seq<Turn>)
    requires PossibleRun(su, Start(room), run) && AllWell(su, Start(room), run)
    ensures Matches(su, Serve(su, Start(room), run).v, HeardAll(su, NOBODY, run))
  {
    hide PossibleRun, AllWell, Serve, HeardAll;
    StartMatches(su, room);
    RunMatches(su, Start(room), run, NOBODY);
  }

  lemma StartMatches(su: Setup, room: nat)
    ensures Matches(su, Start(room), NOBODY)
  {
    assert seq(HOTBAR_SIZE, _ => 0) == [0, 0, 0, 0, 0, 0, 0, 0, 0];
  }

  /** A status ping is answered with its own payload, and the session returns. */
  lemma PingAnswered(su: Setup, v: Vars, payload: i64)
    requires v.phase.Status? && v.room > 0 && v.slot < HOTBAR_SIZE == |v.hotbar|
    ensures var t := Turn(Packet(StatusPing(payload)), 0, [], 0);
            && Possible(su, v, t)
            && Step(su, v, t)
               == Stepped(v.(room := v.room - 1, sent := v.sent + [Frame(StatusPong(payload), v.threshold >= 0)]),
                          Returning)
  {
    AllowedOne(su, v, Send(StatusPong(payload)));
  }

  /** With room for what it has to send, the session reads on after every packet but a
    * status ping, an encryption response, a handshake for no known intent, and a
    * move into a scan that is still going; a malformed one makes it return, and an
    * unregistered one nothing. */
  lemma ReadsOnIff(su: Setup, v: Vars, t: Turn)
    requires Possible(su, v, t) && v.slot < HOTBAR_SIZE == |v.hotbar|
    requires t.r.Packet? ==>
               var w := Prepared(su, v, t.r.p, t.eid); v.room >= |Script(su, w, t.r.p, t.order, t.rounds)|
    ensures Step(su, v, t).next.Reading? <==>
            match t.r
            case Unregistered => true
            case Malformed => false
            case Packet(p) =>
              var w := Prepared(su, v, p, t.eid);
              && !p.StatusPing? && !p.EncryptionResponse?
              && (p.Handshake? ==> p.next == 1 || p.next == 2 || p.next == 3)
              && (Moves(p) && Crossed(su, w) ==>
                    Scan(ChunkOf(su, w.pos.x), ChunkOf(su, w.pos.z), t.rounds).ended)
  {
    hide Script, Exec, Scan, ChunkOf, Enumerates, Want, Prepared;
    if t.r.Packet? {
      var w := Prepared(su, v, t.r.p, t.eid);
      PreparedRoom(su, v, t.r.p, t.eid);
      PreparedFits(su, v, t.r.p, t.eid);
      RoomSuffices(w, Script(su, w, t.r.p, t.order, t.rounds));
    }
  }

  lemma PreparedFits(su: Setup, v: Vars, p: Inbound, eid: i32)
    requires v.slot < HOTBAR_SIZE == |v.hotbar|
    ensures var w := Prepared(su, v, p, eid); w.slot < HOTBAR_SIZE == |w.hotbar|
  {
  }

  /** When not even the first send succeeds, a dug or placed block is not passed on. */
  lemma NoAckNoBlock(su: Setup, v: Vars, t: Turn)
    requires Possible(su, v, t) && v.slot < HOTBAR_SIZE == |v.hotbar| && v.room == 0
    requires t.r.Packet? && (t.r.p.PlayerAction? || t.r.p.UseItemOn?)
    ensures Step(su, v, t).v == v
  {
    hide PlaceHeld;
  }

  /** A move is, before anything is sent. */
  lemma MovePassedOn(su: Setup, v: Vars, t: Turn)
    requires Possible(su, v, t) && v.slot < HOTBAR_SIZE == |v.hotbar| && v.room == 0
    requires t.r.Packet? && Moves(t.r.p) && v.joined && su.hub
    ensures var w := Prepared(su, v, t.r.p, t.eid);
            Step(su, v, t).v == w.(posts := v.posts + [Move(w.eid, w.pos, w.yaw, w.pitch, w.onGround)])
  {
    hide ChunkOf, Scan, Enumerates, Want, Exec, UpdateChunks, AllowedAll, Script;
    var w := Prepared(su, v, t.r.p, t.eid);
    var (cx, cz) := (ChunkOf(su, w.pos.x), ChunkOf(su, w.pos.z));
    var move := Move(w.eid, w.pos, w.yaw, w.pitch, w.onGround);
    ScriptCases(su, w, t.r.p, t.order, t.rounds);
    AllowedOne(su, w, Tell(move));
    ToldOnly(w, move);
    if Crossed(su, w) {
      ExecAppend(w, [Tell(move)], UpdateChunks(cx, cz, t.order, t.rounds));
      LoadsFirst(cx, cz, t.order, t.rounds);
      PreparedRoom(su, v, t.r.p, t.eid);
      FirstFails(w.(posts := w.posts + [move]), UpdateChunks(cx, cz, t.order, t.rounds));
    } else {
      assert [Tell(move)] + [] == [Tell(move)];
    }
  }

  lemma FirstFails(v: Vars, script: seq<Action>)
    requires v.room == 0 && script != [] && script[0].Send?
    ensures Exec(v, script) == Outcome(v, false)
  {
  }

  // ---- Which packets are heard when ----

  /** The phase a packet belongs to; two belong to the last two. */
  function PhaseOf(p: Inbound): Phase {
    match p
    case Handshake(_) => Handshaking
    case StatusRequest => Status
    case StatusPing(_) => Status
    case LoginStart(_) => Login
    case LoginAcknowledged => Login
    case EncryptionResponse => Login
    case PluginMessage => Configuration
    case KnownPacks => Configuration
    case AckFinishConfiguration => Configuration
    case ClientInformation => Configuration
    case KeepAlive => Configuration
    case _ => Play
  }

  lemma HeardIff(phase: Phase, p: Inbound)
    ensures Registered(phase, p) <==> phase == PhaseOf(p) || (phase.Play? && (p.ClientInformation? || p.KeepAlive?))
  {
  }
}
