/** The chunk view over whole sessions: while a session in Play reads on, its client
  * holds exactly the view around the player's chunk; and a run that is caught in a
  * scan that never ends. */
module SessionView {
  import opened Bytes
  import Hub
  import opened Session
  import opened SessionScan
  import opened SessionProofs
  import opened SessionRuns

  // ---- Where the client was told the centre is ----

  /** The last Set Center Chunk the client received. */
  function CentreOf(sent: seq<Frame>): Option<ChunkPos> {
    if sent == [] then None
    else
      var p := sent[|sent| - 1].p;
      if p.SetCenterChunk? then Some((p.x, p.z)) else CentreOf(sent[..|sent| - 1])
  }

  /** At most eight columns from the centre, unless the scan around it never ends. */
  predicate InView(centre: Option<ChunkPos>, c: ChunkPos) {
    && centre.Some?
    && (ScanEnds(centre.value.0, centre.value.1) ==>
          -8 <= c.0 - centre.value.0 <= 8 && -8 <= c.1 - centre.value.1 <= 8)
  }

  /** Every column was sent after a centre, and in the view of the last one before it. */
  predicate Aimed(sent: seq<Frame>) {
    forall i :: 0 <= i < |sent| && sent[i].p.ChunkData? ==> InView(CentreOf(sent[..i]), sent[i].p.c)
  }

  lemma AimedOne(sent: seq<Frame>, f: Frame)
    ensures CentreOf(sent + [f]) == if f.p.SetCenterChunk? then Some((f.p.x, f.p.z)) else CentreOf(sent)
    ensures Aimed(sent) && (f.p.ChunkData? ==> InView(CentreOf(sent), f.p.c)) ==> Aimed(sent + [f])
  {
    hide InView;
    var s := sent + [f];
    assert s[..|sent|] == sent;
    assert forall i :: 0 <= i < |sent| ==> s[i] == sent[i] && s[..i] == sent[..i];
  }

  // ---- The view is the player's ----

  /** In Play the view is centred on the player's chunk, the client knows, and it is
    * loaded in full. */
  predicate Centred(su: Setup, v: Vars) {
    v.phase.Play? ==>
      && v.chunkX == ChunkOf(su, v.pos.x) && v.chunkZ == ChunkOf(su, v.pos.z)
      && v.loaded == Want(v.chunkX, v.chunkZ) && CentreOf(v.sent) == Some((v.chunkX, v.chunkZ))
  }

  /** Actions that leave the player and its view alone. */
  predicate Still(a: Action) {
    (a.Send? && !a.p.SetCenterChunk? && !a.p.ChunkData?) || a.Compress? || a.JoinHub? || a.Tell?
  }

  predicate SameView(v: Vars, w: Vars) {
    && w.phase == v.phase && w.pos == v.pos && w.loaded == v.loaded
    && w.chunkX == v.chunkX && w.chunkZ == v.chunkZ
    && CentreOf(w.sent) == CentreOf(v.sent) && (Aimed(v.sent) ==> Aimed(w.sent))
  }

  lemma StillOne(v: Vars, a: Action)
    requires Still(a)
    ensures SameView(v, Act(v, a).v)
  {
    hide CentreOf, Aimed;
    var framed := v.threshold >= 0;
    match a {
      case Send(p) => AimedOne(v.sent, Frame(p, framed));
      case Compress(t) => AimedOne(v.sent, Frame(SetCompression(AsI32(t)), framed));
      case _ =>
    }
  }

  lemma {:induction false} StillKept(v: Vars, script: seq<Action>)
    requires forall a :: a in script ==> Still(a)
    ensures SameView(v, Exec(v, script).v)
    decreases script
  {
    hide Act, CentreOf, Aimed;
    if script != [] {
      assert script[0] in script;
      StillOne(v, script[0]);
      if Act(v, script[0]).ok {
        StillKept(Act(v, script[0]).v, script[1..]);
      }
    }
  }

  lemma StillScript(su: Setup, w: Vars, p: Inbound, order: seq<ChunkPos>, rounds: nat)
    requires !Moves(p) && !p.AckFinishConfiguration? && w.slot < |w.hotbar|
    ensures forall a :: a in Script(su, w, p, order, rounds) ==> Still(a)
  {
  }

  // ---- Recentring, as the client hears of it ----

  /** The centre stays, and what was aimed stays so. */
  predicate SameAim(v: Vars, w: Vars) { CentreOf(w.sent) == CentreOf(v.sent) && (Aimed(v.sent) ==> Aimed(w.sent)) }

  lemma VisitAims(v: Vars, c: ChunkPos)
    requires InView(CentreOf(v.sent), c)
    ensures SameAim(v, Act(v, Visit(c)).v)
  {
    hide CentreOf, Aimed, InView;
    AimedOne(v.sent, Frame(ChunkData(c), v.threshold >= 0));
  }

  lemma DropAims(v: Vars, c: ChunkPos)
    ensures SameAim(v, Act(v, Drop(c)).v)
  {
    hide CentreOf, Aimed;
    AimedOne(v.sent, Frame(UnloadChunk(c), v.threshold >= 0));
  }

  lemma {:induction false} VisitsAim(v: Vars, cs: seq<ChunkPos>)
    requires forall c :: c in cs ==> InView(CentreOf(v.sent), c)
    ensures SameAim(v, Exec(v, Visits(cs)).v)
    decreases cs
  {
    hide Act, Visits, CentreOf, Aimed, InView;
    if cs == [] {
      NoColumns(v);
    } else {
      Front(cs);
      VisitAims(v, cs[0]);
      if Act(v, Visit(cs[0])).ok {
        VisitsAim(Act(v, Visit(cs[0])).v, cs[1..]);
      }
    }
  }

  lemma {:induction false} DropsAim(v: Vars, cs: seq<ChunkPos>)
    ensures SameAim(v, Exec(v, Drops(cs)).v)
    decreases cs
  {
    hide Act, Drops, CentreOf, Aimed;
    if cs == [] {
      NoColumns(v);
    } else {
      Front(cs);
      DropAims(v, cs[0]);
      if Act(v, Drop(cs[0])).ok {
        DropsAim(Act(v, Drop(cs[0])).v, cs[1..]);
      }
    }
  }

  lemma ScanInView(cx: i32, cz: i32, rounds: nat)
    requires rounds >= SCAN_ROUNDS
    ensures forall c :: c in Scan(cx, cz, rounds).cols ==> InView(Some((cx, cz)), c)
  {
    hide Scan, ScanEnds;
    ScanIsWant(cx, cz, rounds);
  }

  lemma CentreSent(su: Setup, v: Vars, cx: i32, cz: i32)
    ensures var o := Exec(v, [Send(SetCenterChunk(cx, cz))]);
            && (Aimed(v.sent) ==> Aimed(o.v.sent)) && (o.ok ==> CentreOf(o.v.sent) == Some((cx, cz)))
  {
    hide CentreOf, Aimed, Exec, AllowedAll;
    AllowedOne(su, v, Send(SetCenterChunk(cx, cz)));
    AimedOne(v.sent, Frame(SetCenterChunk(cx, cz), v.threshold >= 0));
  }

  /** However far a recentring gets, its columns come after its centre; if nothing
    * fails, the client's centre is the new one. */
  lemma UpdateAims(su: Setup, v: Vars, cx: i32, cz: i32, order: seq<ChunkPos>, rounds: nat)
    requires rounds >= SCAN_ROUNDS
    ensures var o := Exec(v, UpdateChunks(cx, cz, order, rounds));
            && (Aimed(v.sent) ==> Aimed(o.v.sent)) && (o.ok ==> CentreOf(o.v.sent) == Some((cx, cz)))
  {
    hide Exec, Scan, Visits, Drops, CentreOf, Aimed, InView, AllowedAll;
    var w := Scan(cx, cz, rounds);
    var first: seq<Action> := [Send(SetCenterChunk(cx, cz))];
    var drops, last: seq<Action> := if w.ended then Drops(order) else [], if w.ended then [Centre(cx, cz)] else [];
    Chained(v, first, Visits(w.cols), drops, last);
    CentreSent(su, v, cx, cz);
    ScanInView(cx, cz, rounds);
    var v1 := Exec(v, first).v;
    if Exec(v, first).ok {
      VisitsAim(v1, w.cols);
      var v2 := Exec(v1, Visits(w.cols)).v;
      DropsAim(v2, order);
      AllowedNone(su, v2);
      var v3 := Exec(v2, drops).v;
      AllowedNone(su, v3);
      AllowedOne(su, v3, Centre(cx, cz));
    }
  }

  /** Every column is loaded before any is unloaded, and the centre comes first. */
  lemma LoadsFirst(cx: i32, cz: i32, order: seq<ChunkPos>, rounds: nat)
    ensures var script := UpdateChunks(cx, cz, order, rounds);
            && script != [] && script[0] == Send(SetCenterChunk(cx, cz))
            && forall i, j :: 0 <= i < j < |script| && script[i].Drop? ==> !script[j].Visit?
  {
    hide Scan;
  }

  /** Entering Play, if nothing fails, loads the view around the spawn. */
  lemma EnterPlayCentres(su: Setup, v: Vars)
    requires v.phase.Play? && v.loaded == {} && PlaysOf(v.sent) == 0
    ensures var o := Exec(v, EnterPlay(su, v));
            (o.ok ==> Centred(su, o.v) && o.v.pos == SPAWN) && (Aimed(v.sent) ==> Aimed(o.v.sent))
  {
    hide PlaysOf, AllowedAll, Exec, UpdateChunks, Act, Enumerates, Want, Scan, ScanEnds, Elements, ChunkOf, Still;
    hide CentreOf, Aimed;
    var a := [Send(LoginPlay(v.eid)), Send(GameEvent(13)), ResetView];
    var b := UpdateChunks(0, 0, [], SCAN_ROUNDS);
    var c := [Stand(SPAWN), Send(SyncPlayerPosition(1, SPAWN))];
    var d := if su.hub then [JoinHub] else [];
    EnterStart(su, v);
    StartAims(su, v);
    Chained(v, a, b, c, d);
    var va := Exec(v, a).v;
    if Exec(v, a).ok {
      NothingUnwanted(Want(0, 0));
      SpawnScan(su);
      Recentring(su, va, 0, 0, [], SCAN_ROUNDS);
      UpdateAims(su, va, 0, 0, [], SCAN_ROUNDS);
      var vb := Exec(va, b).v;
      Standing(su, vb);
      JoinsStill(su);
      StillKept(Exec(vb, c).v, d);
    }
  }

  lemma StartAims(su: Setup, v: Vars)
    ensures Aimed(v.sent) ==> Aimed(Exec(v, [Send(LoginPlay(v.eid)), Send(GameEvent(13)), ResetView]).v.sent)
  {
    hide CentreOf, Aimed, AllowedAll, Exec;
    var (a, b) := ([Send(LoginPlay(v.eid)), Send(GameEvent(13))], [ResetView]);
    assert a + b == [Send(LoginPlay(v.eid)), Send(GameEvent(13)), ResetView];
    StillKept(v, a);
    ExecAppend(v, a, b);
    AllowedOne(su, Exec(v, a).v, ResetView);
  }

  /** A coordinate's chunk is the sixteen blocks it lies in, as far as 32 bits reach. */
  lemma ChunkOfBlocks(su: Setup, coord: real)
    requires -34359738368.0 <= coord < 34359738368.0
    ensures 16.0 * ChunkOf(su, coord) as real <= coord < 16.0 * (ChunkOf(su, coord) as real + 1.0)
  {
    var c := (coord / 16.0).Floor;
    assert c as real <= coord / 16.0 < c as real + 1.0;
  }

  lemma SpawnScan(su: Setup)
    ensures ScanEnds(0, 0) && ChunkOf(su, SPAWN.x) == 0 && ChunkOf(su, SPAWN.z) == 0
  {
    assert (0.0 / 16.0).Floor == 0;
  }

  lemma Standing(su: Setup, v: Vars)
    ensures var o := Exec(v, [Stand(SPAWN), Send(SyncPlayerPosition(1, SPAWN))]);
            SameView(v.(pos := SPAWN), o.v) && (Aimed(v.sent) ==> Aimed(o.v.sent))
  {
    hide Exec, AllowedAll, Allowed;
    var (stand, sync) := (Stand(SPAWN), Send(SyncPlayerPosition(1, SPAWN)));
    assert [stand, sync] == [stand] + [sync];
    ExecAppend(v, [stand], [sync]);
    AllowedOne(su, v, stand);
    AllowedOne(su, v.(pos := SPAWN), sync);
    StillOne(v.(pos := SPAWN), sync);
  }

  lemma JoinsStill(su: Setup)
    ensures forall a :: a in (if su.hub then [JoinHub] else []) ==> Still(a)
  {
  }

  /** How many packets a move costs: one for each column that enters or leaves the
    * view and one for the new centre, when the chunk changed, and none otherwise. */
  function MoveCost(su: Setup, w: Vars): nat {
    var (had, want) := (Want(w.chunkX, w.chunkZ), Want(ChunkOf(su, w.pos.x), ChunkOf(su, w.pos.z)));
    if Crossed(su, w) then 1 + |want - had| + |had - want| else 0
  }

  lemma MoveCentres(su: Setup, w: Vars, order: seq<ChunkPos>, rounds: nat)
    requires w.phase.Play? && w.loaded == Want(w.chunkX, w.chunkZ) && CentreOf(w.sent) == Some((w.chunkX, w.chunkZ))
    requires var (cx, cz) := (ChunkOf(su, w.pos.x), ChunkOf(su, w.pos.z));
             Crossed(su, w) ==> rounds >= SCAN_ROUNDS && Enumerates(order, w.loaded - Want(cx, cz))
    ensures var o := Exec(w, HandleMove(su, w, order, rounds));
            && (o.ok && !(Crossed(su, w) && !Scan(ChunkOf(su, w.pos.x), ChunkOf(su, w.pos.z), rounds).ended) ==>
                  Centred(su, o.v) && |o.v.sent| == |w.sent| + MoveCost(su, w))
            && (Aimed(w.sent) ==> Aimed(o.v.sent))
  {
    hide Exec, ChunkOf, ScanEnds, UpdateChunks, Enumerates, Want, Scan, Act, AllowedAll, Allowed, Elements;
    hide CentreOf, Aimed;
    var (cx, cz) := (ChunkOf(su, w.pos.x), ChunkOf(su, w.pos.z));
    var move := Move(w.eid, w.pos, w.yaw, w.pitch, w.onGround);
    var told := if w.joined && su.hub then [Tell(move)] else [];
    AllowedNone(su, w);
    AllowedOne(su, w, Tell(move));
    ToldOnly(w, move);
    var v := Exec(w, told).v;
    if Crossed(su, w) {
      ScanIsWant(cx, cz, rounds);
      Recentring(su, v, cx, cz, order, rounds);
      UpdateAims(su, v, cx, cz, order, rounds);
      ExecAppend(w, told, UpdateChunks(cx, cz, order, rounds));
    } else {
      assert told + [] == told;
    }
  }

  /** While the session reads on, every packet leaves the view centred and whole;
    * wherever it stops, every column was sent after the centre of its view. */
  lemma StepCentres(su: Setup, v: Vars, t: Turn)
    requires Inv(su, v) && Centred(su, v) && Possible(su, v, t)
    ensures var o := Step(su, v, t);
            && (o.next.Reading? ==>
                  && Centred(su, o.v)
                  && (t.r.Packet? && Moves(t.r.p) ==>
                        |o.v.sent| == |v.sent| + MoveCost(su, Prepared(su, v, t.r.p, t.eid))))
            && (Aimed(v.sent) ==> Aimed(o.v.sent))
  {
    hide Inv, Exec, ChunkOf, Want, Scan, Enumerates, Script, MoveCost, CentreOf, Aimed;
    if t.r.Packet? {
      var p := t.r.p;
      var w := Prepared(su, v, p, t.eid);
      HotbarFits(su, v);
      PreparedKeeps(su, v, p, t.eid);
      HotbarFits(su, w);
      ScriptCases(su, w, p, t.order, t.rounds);
      PreparedView(su, v, p, t.eid);
      if Moves(p) {
        MoveCentres(su, w, t.order, t.rounds);
      } else if p.AckFinishConfiguration? {
        EnterPlayCentres(su, w);
      } else {
        StillScript(su, w, p, t.order, t.rounds);
        StillKept(w, Script(su, w, p, t.order, t.rounds));
      }
    }
  }

  lemma ScriptCases(su: Setup, w: Vars, p: Inbound, order: seq<ChunkPos>, rounds: nat)
    requires w.slot < |w.hotbar|
    ensures Moves(p) ==> Script(su, w, p, order, rounds) == HandleMove(su, w, order, rounds)
    ensures p.AckFinishConfiguration? ==> Script(su, w, p, order, rounds) == EnterPlay(su, w)
  {
    hide HandleMove, EnterPlay, FinishLogin, Registries, PlaceHeld;
  }

  /** What a packet sets of the view: a move the position, the others nothing in Play. */
  lemma PreparedView(su: Setup, v: Vars, p: Inbound, eid: i32)
    requires Registered(v.phase, p)
    ensures var w := Prepared(su, v, p, eid);
            && w.sent == v.sent && w.loaded == v.loaded && w.chunkX == v.chunkX && w.chunkZ == v.chunkZ
            && (!Moves(p) ==> w.pos == v.pos)
            && (Moves(p) ==> v.phase.Play? && w.phase.Play?)
            && (p.AckFinishConfiguration? ==> w.phase.Play?)
            && (w.phase.Play? && !p.AckFinishConfiguration? ==> v.phase.Play?)
  {
  }

  lemma {:induction false} RunCentres(su: Setup, v: Vars, run: seq<Turn>)
    requires Inv(su, v) && Centred(su, v) && PossibleRun(su, v, run) && AllWell(su, v, run)
    ensures Inv(su, Serve(su, v, run).v) && Centred(su, Serve(su, v, run).v)
    decreases run
  {
    hide Inv, Centred, Step, Possible;
    if run != [] {
      StepKeeps(su, v, run[0]);
      StepCentres(su, v, run[0]);
      RunCentres(su, Step(su, v, run[0]).v, run[1..]);
    }
  }

  lemma {:induction false} RunAims(su: Setup, v: Vars, run: seq<Turn>)
    requires Inv(su, v) && Centred(su, v) && Aimed(v.sent) && PossibleRun(su, v, run)
    ensures Aimed(Serve(su, v, run).v.sent)
    decreases run
  {
    hide Inv, Centred, Step, Possible, Aimed;
    if run != [] {
      StepKeeps(su, v, run[0]);
      StepCentres(su, v, run[0]);
      if Step(su, v, run[0]).next.Reading? {
        RunAims(su, Step(su, v, run[0]).v, run[1..]);
      }
    }
  }

  /** In every run, wherever it stops, each column was sent after the centre of its view. */
  lemma EveryColumnAimed(su: Setup, room: nat, run: seq<Turn>)
    requires PossibleRun(su, Start(room), run)
    ensures Aimed(Serve(su, Start(room), run).v.sent)
  {
    hide Serve, PossibleRun, ColumnsOf, PlaysOf, FramingHolds, Present;
    StartHolds(su, room);
    RunAims(su, Start(room), run);
  }

  /** In every run that is still reading and has entered Play, the columns the client
    * holds are exactly the view around the chunk the player is in, which is the
    * centre the client was told. */
  lemma EveryView(su: Setup, room: nat, run: seq<Turn>)
    requires PossibleRun(su, Start(room), run) && AllWell(su, Start(room), run)
    ensures var v := Serve(su, Start(room), run).v;
            v.phase.Play? ==>
              var (cx, cz) := (ChunkOf(su, v.pos.x), ChunkOf(su, v.pos.z));
              CentreOf(v.sent) == Some((cx, cz)) && ColumnsOf(v.sent) == Columns(Want(cx, cz), true)
  {
    hide Serve, PossibleRun, AllWell, ColumnsOf, PlaysOf, FramingHolds, ChunkOf, Want, Present, CentreOf;
    StartHolds(su, room);
    RunCentres(su, Start(room), run);
  }

  // ---- A run caught in a scan ----

  /** Enough room for every action is enough for the script. */
  lemma {:induction false} RoomSuffices(v: Vars, script: seq<Action>)
    requires v.room >= |script|
    ensures var o := Exec(v, script); o.ok && o.v.room >= v.room - |script|
    decreases script
  {
    hide Act;
    if script != [] {
      RoomOne(v, script[0]);
      RoomSuffices(Act(v, script[0]).v, script[1..]);
    }
  }

  lemma RoomOne(v: Vars, a: Action)
    requires v.room > 0
    ensures var o := Act(v, a); o.ok && o.v.room >= v.room - 1
  {
  }

  lemma {:induction false} WalkLength(cx: i32, cz: i32, at: Cursor, rounds: nat)
    ensures |Walk(cx, cz, at, rounds).cols| <= rounds
    decreases rounds, if at.AtCell? then 1 else 0
  {
    hide ScanFirst, ScanLast;
    match at {
      case AtRow(x) =>
        if x <= ScanLast(cx) && rounds > 0 {
          WalkLength(cx, cz, AtCell(x, ScanFirst(cz)), rounds - 1);
        }
      case AtCell(x, z) =>
        if z > ScanLast(cz) {
          WalkLength(cx, cz, AtRow(AsI32(x + 1)), rounds);
        } else if rounds > 0 {
          WalkLength(cx, cz, AtCell(x, AsI32(z + 1)), rounds - 1);
        }
    }
  }

  /** A run still reading, in a phase, with room for some sends. */
  predicate Going(su: Setup, room: nat, run: seq<Turn>, phase: Phase, left: nat) {
    && PossibleRun(su, Start(room), run) && AllWell(su, Start(room), run)
    && Serve(su, Start(room), run).v.phase == phase && Serve(su, Start(room), run).v.room >= left
  }

  function Quiet(p: Inbound): Turn { Turn(Packet(p), 0, [], 0) }

  /** One more packet whose script the room suffices for. */
  lemma Grows(su: Setup, room: nat, run: seq<Turn>, phase: Phase, left: nat, p: Inbound, n: nat)
    requires Going(su, room, run, phase, left) && Registered(phase, p) && !Moves(p) && !Ends(p) && n <= left
    requires var w := Prepared(su, Serve(su, Start(room), run).v, p, 0);
             w.slot < |w.hotbar| ==> |Script(su, w, p, [], 0)| <= n
    ensures var w := Prepared(su, Serve(su, Start(room), run).v, p, 0);
            && Going(su, room, run + [Quiet(p)], w.phase, left - n)
            && w.slot < |w.hotbar|
            && Serve(su, Start(room), run + [Quiet(p)]).v == Exec(w, Script(su, w, p, [], 0)).v
            && Exec(w, Script(su, w, p, [], 0)).ok
  {
    hide PossibleRun, AllWell, Serve, Inv, Exec, Script, Prepared, Crossed;
    StartHolds(su, room);
    RunKeeps(su, Start(room), run);
    var v := Serve(su, Start(room), run).v;
    var w := Prepared(su, v, p, 0);
    HotbarFits(su, v);
    PreparedKeeps(su, v, p, 0);
    HotbarFits(su, w);
    PreparedRoom(su, v, p, 0);
    RoomSuffices(w, Script(su, w, p, [], 0));
    StepKeeps(su, v, Quiet(p));
    HotbarFits(su, Step(su, v, Quiet(p)).v);
    PhaseKept(w, Script(su, w, p, [], 0));
    RunExtended(su, Start(room), run, Quiet(p));
  }

  lemma {:induction false} PhaseKept(v: Vars, script: seq<Action>)
    ensures Exec(v, script).v.phase == v.phase
    decreases script
  {
    if script != [] {
      assert Act(v, script[0]).v.phase == v.phase;
      if Act(v, script[0]).ok {
        PhaseKept(Act(v, script[0]).v, script[1..]);
      }
    }
  }

  lemma PreparedRoom(su: Setup, v: Vars, p: Inbound, eid: i32)
    ensures Prepared(su, v, p, eid).room == v.room
  {
  }

  lemma ScanLength(cx: i32, cz: i32, rounds: nat)
    ensures |Scan(cx, cz, rounds).cols| <= rounds
  {
    WalkLength(cx, cz, AtRow(ScanFirst(cx)), rounds);
  }

  const LOGIN_ROOM: nat := 5
  const ENTER_ROOM: nat := 317

  lemma ScriptLengths(su: Setup, v: Vars, name: string)
    requires v.slot < |v.hotbar|
    ensures |Script(su, v, Handshake(2), [], 0)| == 0
    ensures |Script(su, v, LoginStart(name), [], 0)| <= 2
    ensures |Script(su, v, LoginAcknowledged, [], 0)| <= 3
    ensures |Script(su, v, AckFinishConfiguration, [], 0)| <= ENTER_ROOM
  {
    hide Scan;
    ScanLength(0, 0, SCAN_ROUNDS);
  }

  /** A run into Play that is still reading, the player at the spawn. */
  lemma PlayReached(su: Setup, room: nat, name: string) returns (run: seq<Turn>)
    requires room >= LOGIN_ROOM + ENTER_ROOM
    ensures Going(su, room, run, Play, room - LOGIN_ROOM - ENTER_ROOM)
    ensures Serve(su, Start(room), run).v.chunkX == 0
  {
    hide PossibleRun, AllWell, Serve, Inv, Exec, Script, Prepared, Going;
    run := NothingYet(su, room);
    run := GrowsOn(su, room, run, Handshaking, room, Handshake(2), 0, Login, name);
    run := GrowsOn(su, room, run, Login, room, LoginStart(name), 2, Login, name);
    run := GrowsOn(su, room, run, Login, room - 2, LoginAcknowledged, 3, Configuration, name);
    run := Enters(su, room, run, room - LOGIN_ROOM, name);
  }

  lemma NothingYet(su: Setup, room: nat) returns (run: seq<Turn>)
    ensures Going(su, room, run, Handshaking, room)
  {
    run := [];
  }

  lemma GrowsOn(su: Setup, room: nat, run: seq<Turn>, phase: Phase, left: nat, p: Inbound, n: nat, next: Phase,
                name: string)
    returns (more: seq<Turn>)
    requires Going(su, room, run, phase, left) && n <= left
    requires (phase, p, n, next) == (Handshaking, Handshake(2), 0, Login)
             || (phase, p, n, next) == (Login, LoginStart(name), 2, Login)
             || (phase, p, n, next) == (Login, LoginAcknowledged, 3, Configuration)
    ensures Going(su, room, more, next, left - n)
  {
    hide PossibleRun, AllWell, Serve, Inv, Exec, Script;
    var w := Prepared(su, Serve(su, Start(room), run).v, p, 0);
    if w.slot < |w.hotbar| {
      ScriptLengths(su, w, name);
    }
    Grows(su, room, run, phase, left, p, n);
    more := run + [Quiet(p)];
  }

  lemma Enters(su: Setup, room: nat, run: seq<Turn>, left: nat, name: string) returns (more: seq<Turn>)
    requires Going(su, room, run, Configuration, left) && left >= ENTER_ROOM
    ensures Going(su, room, more, Play, left - ENTER_ROOM)
    ensures Serve(su, Start(room), more).v.chunkX == 0
  {
    hide PossibleRun, AllWell, Serve, Inv, Exec, Script, EnterPlay, Prepared, PlaysOf, ChunkOf, Want;
    var v := Serve(su, Start(room), run).v;
    var w := Prepared(su, v, AckFinishConfiguration, 0);
    StartHolds(su, room);
    RunKeeps(su, Start(room), run);
    PreparedKeeps(su, v, AckFinishConfiguration, 0);
    HotbarFits(su, w);
    ScriptLengths(su, w, name);
    PreparedView(su, v, AckFinishConfiguration, 0);
    Grows(su, room, run, Configuration, left, AckFinishConfiguration, ENTER_ROOM);
    ScriptCases(su, w, AckFinishConfiguration, [], 0);
    EnterPlayCentres(su, w);
    SpawnScan(su);
    more := run + [Quiet(AckFinishConfiguration)];
  }

  /** A client that walks through login and moves to x = 34359738224 keeps the session
    * scanning, however long it is watched and however many sends succeed. */
  lemma EndlessRun(su: Setup, rounds: nat, room: nat, name: string) returns (run: seq<Turn>)
    requires rounds >= SCAN_ROUNDS && room >= LOGIN_ROOM + ENTER_ROOM + rounds + 2
    ensures run != [] && run[|run| - 1].rounds == rounds
    ensures PossibleRun(su, Start(room), run) && Serve(su, Start(room), run).next.Scanning?
  {
    hide PossibleRun, AllWell, Serve, Inv, Exec, Script, Prepared, ChunkOf, Want, Enumerates, ScanEnds, Scan, Step;
    var before := PlayReached(su, room, name);
    StartHolds(su, room);
    RunKeeps(su, Start(room), before);
    var v := Serve(su, Start(room), before).v;
    var p := MovePlayerPos(Hub.Vec(34359738224.0, 0.0, 0.0), 0);
    var w := Prepared(su, v, p, 0);
    EndlessCentre(su, ChunkOf(su, 0.0));
    MoveFar(su, v, p, w);
    var order := EnumerationExists(w.loaded - Want(ChunkOf(su, w.pos.x), ChunkOf(su, w.pos.z)));
    var t := Turn(Packet(p), 0, order, rounds);
    run := before + [t];
    PreparedKeeps(su, v, p, 0);
    HotbarFits(su, w);
    HotbarFits(su, v);
    MoveLength(su, w, p, order, rounds);
    RoomSuffices(w, Script(su, w, p, order, rounds));
    EndlessMove(su, v, t);
    HotbarFits(su, Step(su, v, t).v);
    RunExtended(su, Start(room), before, t);
  }

  lemma MoveFar(su: Setup, v: Vars, p: Inbound, w: Vars)
    requires p == MovePlayerPos(Hub.Vec(34359738224.0, 0.0, 0.0), 0) && w == Prepared(su, v, p, 0)
    requires v.chunkX == 0 && ChunkOf(su, 34359738224.0) == LAST_CENTRE
    ensures Crossed(su, w) && w.pos.x == 34359738224.0 && w.pos.z == 0.0 && w.room == v.room && w.loaded == v.loaded
  {
    hide ChunkOf;
  }

  /** The script of such a move: its post, the new centre, and at most a column a round. */
  lemma MoveLength(su: Setup, w: Vars, p: Inbound, order: seq<ChunkPos>, rounds: nat)
    requires Moves(p) && w.slot < |w.hotbar| && rounds >= SCAN_ROUNDS
    requires !ScanEnds(ChunkOf(su, w.pos.x), ChunkOf(su, w.pos.z))
    ensures |Script(su, w, p, order, rounds)| <= rounds + 2
  {
    hide ChunkOf, Scan, ScanEnds;
    ScanIsWant(ChunkOf(su, w.pos.x), ChunkOf(su, w.pos.z), rounds);
    ScanLength(ChunkOf(su, w.pos.x), ChunkOf(su, w.pos.z), rounds);
    ScriptCases(su, w, p, order, rounds);
  }
}
