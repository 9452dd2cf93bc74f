/** The session's handlers as the source runs them, updating its fields in place
  * and stopping at the first failing send; each performs the model's step. */
module SessionLoop {
  import opened Bytes
  import Chunk
  import Hub
  import opened Session
  import opened SessionScan
  import opened SessionProofs
  import opened SessionRuns

  lemma DropsAppend(a: seq<ChunkPos>, b: seq<ChunkPos>)
    ensures Drops(a + b) == Drops(a) + Drops(b)
  {
  }

  /** One visit taken off the front of what is left to scan. */
  lemma VisitFirst(v: Vars, c: ChunkPos, rest: seq<ChunkPos>)
    ensures var o := Act(v, Visit(c));
            Exec(v, Visits([c] + rest)) == if o.ok then Exec(o.v, Visits(rest)) else o
    ensures Elements([c] + rest) == {c} + Elements(rest)
  {
    hide Act;
    assert ([c] + rest)[1..] == rest;
    Front([c] + rest);
  }

  class Endpoint {
    const su: Setup
    const hotbar: array<i32>
    var phase: Phase
    var threshold: int
    var name: string
    var uuid: Hub.Uuid
    var eid: i32
    var chunkX: i32
    var chunkZ: i32
    var loaded: set<ChunkPos>
    var joined: bool
    var pos: Hub.Vec
    var yaw: real
    var pitch: real
    var onGround: bool
    var slot: nat
    var sent: seq<Frame>
    var posts: seq<Post>
    var room: nat

    ghost function Now(): Vars
      reads this, hotbar
    {
      Vars(phase, threshold, name, uuid, eid, chunkX, chunkZ, loaded, joined, pos, yaw, pitch, onGround,
           hotbar[..], slot, sent, posts, room)
    }

    constructor (su: Setup, room: nat)
      ensures this.su == su && fresh(hotbar) && Now() == Start(room)
    {
      this.su, hotbar := su, new i32[HOTBAR_SIZE](_ => 0);
      phase, threshold, name, uuid, eid := Handshaking, -1, "", (0, 0), 0;
      chunkX, chunkZ, loaded, joined := 0, 0, {}, false;
      pos, yaw, pitch, onGround, slot := Hub.Vec(0.0, 0.0, 0.0), 0.0, 0.0, false, 0;
      sent, posts, this.room := [], [], room;
    }

    method Emits(p: Outgoing) returns (ok: bool)
      modifies this`sent, this`room
      ensures Outcome(Now(), ok) == Emit(old(Now()), p)
    {
      if room == 0 {
        return false;
      }
      room := room - 1;
      sent := sent + [Frame(p, threshold >= 0)];
      ok := true;
    }

    method FinishesLogin() returns (ok: bool)
      modifies this`sent, this`room, this`threshold
      ensures Outcome(Now(), ok) == Exec(old(Now()), FinishLogin(su, old(Now())))
    {
      hide Exec;
      ghost var v, success := Now(), Send(LoginSuccess(uuid, name));
      AllowedOne(su, v, success);
      if su.compression >= 0 {
        AllowedOne(su, v, Compress(su.compression));
        ExecAppend(v, [Compress(su.compression)], [success]);
        ok := Emits(SetCompression(AsI32(su.compression)));
        if !ok {
          return;
        }
        threshold := su.compression;
        AllowedOne(su, Now(), success);
      } else {
        assert [] + [success] == [success];
      }
      ok := Emits(LoginSuccess(uuid, name));
    }

    /** The nested loops over the new view, watched for `rounds` loop bodies: `ended`
      * when they are over by then. */
    method StreamsIn(cx: i32, cz: i32, rounds: nat) returns (ok: bool, ended: bool, want: set<ChunkPos>)
      modifies this`sent, this`room, this`loaded
      ensures Outcome(Now(), ok) == Exec(old(Now()), Visits(Scan(cx, cz, rounds).cols))
      ensures ok ==> ended == Scan(cx, cz, rounds).ended && want == Elements(Scan(cx, cz, rounds).cols)
    {
      hide Exec, Act, Visits, Elements, Walk, ScanFirst, ScanLast, AsI32;
      ghost var v, all := Now(), Scan(cx, cz, rounds);
      var x, lastX := ScanFirst(cx), ScanLast(cx);
      var left := rounds;
      want, ended := {}, false;
      while x <= lastX
        invariant Outline(v) && Unvisited(v, all, want, Walk(cx, cz, AtRow(x), left))
        decreases left
      {
        WalkStep(cx, cz, AtRow(x), left);
        NothingLeft(Now());
        if left == 0 {
          return true, false, want;
        }
        left := left - 1;
        var cut;
        ok, cut, left, want := StreamsRow(cx, cz, x, left, want, v, all);
        if !ok || cut {
          return;
        }
        x := At(x, 1);
      }
      WalkStep(cx, cz, AtRow(x), left);
      NothingLeft(Now());
      ok, ended := true, true;
    }

    /** The inner loop over row `x` of the scan `all` that began at `v`; `cut` when
      * the rounds run out inside it. */
    method StreamsRow(cx: i32, cz: i32, x: i32, rounds: nat, seen: set<ChunkPos>, ghost v: Vars, ghost all: Walked)
      returns (ok: bool, cut: bool, left: nat, want: set<ChunkPos>)
      requires Outline(v) && Unvisited(v, all, seen, Walk(cx, cz, AtCell(x, ScanFirst(cz)), rounds))
      modifies this`sent, this`room, this`loaded
      ensures Outline(v) && left <= rounds
      ensures !ok ==> Exec(v, Visits(all.cols)) == Outcome(Now(), false)
      ensures ok && cut ==>
                Exec(v, Visits(all.cols)) == Outcome(Now(), true) && want == Elements(all.cols) && !all.ended
      ensures ok && !cut ==> Unvisited(v, all, want, Walk(cx, cz, AtRow(At(x, 1)), left))
    {
      hide Exec, Act, Visits, Elements, Walk, ScanFirst, ScanLast, AsI32;
      ok, cut, left, want := true, false, rounds, seen;
      var z, lastZ := ScanFirst(cz), ScanLast(cz);
      while z <= lastZ
        invariant ok && !cut && left <= rounds
        invariant Outline(v) && Unvisited(v, all, want, Walk(cx, cz, AtCell(x, z), left))
        decreases left
      {
        WalkStep(cx, cz, AtCell(x, z), left);
        NothingLeft(Now());
        if left == 0 {
          cut := true;
          return;
        }
        left := left - 1;
        VisitFirst(Now(), (x, z), Walk(cx, cz, AtCell(x, At(z, 1)), left).cols);
        want := want + {(x, z)};
        ok := VisitsOne((x, z));
        if !ok {
          return;
        }
        z := At(z, 1);
      }
      WalkStep(cx, cz, AtCell(x, z), left);
    }

    /** `w` is what is left of the scan `all` that began at `v`. */
    ghost predicate Unvisited(v: Vars, all: Walked, want: set<ChunkPos>, w: Walked)
      reads this, hotbar
    {
      && Exec(v, Visits(all.cols)) == Exec(Now(), Visits(w.cols))
      && want + Elements(w.cols) == Elements(all.cols) && w.ended == all.ended
    }

    /** Only the log, the room and the loaded columns have changed since `v`. */
    ghost predicate Outline(v: Vars)
      reads this, hotbar
    {
      Now() == v.(sent := sent, room := room, loaded := loaded)
    }

    lemma NothingLeft(v: Vars)
      ensures Exec(v, Visits([])) == Outcome(v, true) && Elements([]) == {}
    {
    }

    method VisitsOne(c: ChunkPos) returns (ok: bool)
      modifies this`sent, this`room, this`loaded
      ensures Outcome(Now(), ok) == Act(old(Now()), Visit(c))
    {
      if c in loaded {
        return true;
      }
      ok := Emits(ChunkData(c));
      if ok {
        loaded := loaded + {c};
      }
    }

    /** The loop over the loaded columns, in any order. On failure `order` is
      * completed with the columns it did not get to. */
    method Unloads(want: set<ChunkPos>) returns (ok: bool, ghost order: seq<ChunkPos>)
      modifies this`sent, this`room, this`loaded
      ensures Enumerates(order, old(loaded) - want)
      ensures Outcome(Now(), ok) == Exec(old(Now()), Drops(order))
    {
      hide Exec, Act, Drops, Enumerates;
      ghost var v := Now();
      var todo := loaded;
      order := [];
      NothingDropped(v, want);
      while todo != {}
        invariant Outline(v) && todo <= v.loaded
        invariant Enumerates(order, v.loaded - want - todo)
        invariant Exec(v, Drops(order)) == Outcome(Now(), true)
      {
        var key :| key in todo;
        Met(order, v.loaded, want, todo, key);
        if key !in want {
          DropNext(v, order, key);
          ok := DropsOne(key);
          order := order + [key];
          if !ok {
            ghost var rest := EnumerationExists(v.loaded - want - (v.loaded - want - (todo - {key})));
            StopsThere(v, order, rest, v.loaded - want, v.loaded - want - (todo - {key}));
            order := order + rest;
            return;
          }
        }
        todo := todo - {key};
      }
      ok := true;
      assert v.loaded - want - {} == v.loaded - want;
    }

    method DropsOne(c: ChunkPos) returns (ok: bool)
      modifies this`sent, this`room, this`loaded
      ensures Outcome(Now(), ok) == Act(old(Now()), Drop(c))
    {
      ok := Emits(UnloadChunk(c));
      if ok {
        loaded := loaded - {c};
      }
    }

    /** Recentres the streamed view. A scan that has not ended within `rounds` is
      * left where it stands. */
    method UpdatesChunks(cx: i32, cz: i32, rounds: nat) returns (ok: bool, ended: bool, ghost order: seq<ChunkPos>)
      requires phase.Play? && rounds >= SCAN_ROUNDS
      modifies this`sent, this`room, this`loaded, this`chunkX, this`chunkZ
      ensures Enumerates(order, old(loaded) - Want(cx, cz))
      ensures Outcome(Now(), ok) == Exec(old(Now()), UpdateChunks(cx, cz, order, rounds))
      ensures ok ==> ended == Scan(cx, cz, rounds).ended
    {
      hide Exec, Act, AllowedAll, Scan, ScanEnds, Want, Visits, Drops, Enumerates, Emit, Elements;
      ghost var v, w, want0 := Now(), Scan(cx, cz, rounds), Want(cx, cz);
      ghost var first, scan, last := Send(SetCenterChunk(cx, cz)), Visits(w.cols), Centre(cx, cz);
      ghost var tail := if w.ended then [last] else [];
      order := EnumerationExists(v.loaded - want0);
      ended := false;
      AllowedOne(su, v, first);
      SentFirst(v, SetCenterChunk(cx, cz));
      ok := Emits(SetCenterChunk(cx, cz));
      if !ok {
        Chained(v, [first], scan, if w.ended then Drops(order) else [], tail);
        return;
      }
      ghost var v1 := Now();
      VisitsLoad(su, v1, w.cols);
      var want;
      ok, ended, want := StreamsIn(cx, cz, rounds);
      if !ok || !ended {
        AllowedNone(su, Now());
        Chained(v, [first], scan, if w.ended then Drops(order) else [], tail);
        return;
      }
      ScanIsWant(cx, cz, rounds);
      VisitedIsWant(w.cols, want0);
      ok, order := Unloads(want);
      StillUnwanted(v.loaded, want0);
      if ok {
        AllowedOne(su, Now(), last);
        Centred(Now(), cx, cz);
        chunkX, chunkZ := cx, cz;
      }
      Chained(v, [first], scan, Drops(order), tail);
    }

    method EntersConfiguration() returns (ok: bool)
      modifies this`sent, this`room
      ensures Outcome(Now(), ok)
              == Exec(old(Now()), [Send(Brand), Send(FeatureFlags), Send(ClientboundKnownPacks)])
    {
      hide Exec, Act, Emit;
      ghost var script := [Send(Brand), Send(FeatureFlags), Send(ClientboundKnownPacks)];
      ExecSend(Now(), script, 0);
      ok := Emits(Brand);
      if !ok {
        return;
      }
      ExecSend(Now(), script, 1);
      ok := Emits(FeatureFlags);
      if !ok {
        return;
      }
      ExecSend(Now(), script, 2);
      ok := Emits(ClientboundKnownPacks);
      ExecDone(Now(), script);
    }

    method AnswersKnownPacks() returns (ok: bool)
      modifies this`sent, this`room
      ensures Outcome(Now(), ok)
              == Exec(old(Now()), Registries(su.registries) + [Send(UpdateTags), Send(FinishConfiguration)])
    {
      hide Exec, Act, Emit;
      ghost var v, n := Now(), su.registries;
      ghost var script := Registries(n) + [Send(UpdateTags), Send(FinishConfiguration)];
      assert script[0..] == script;
      for i := 0 to su.registries
        invariant Exec(v, script) == Exec(Now(), script[i..])
      {
        ExecSend(Now(), script, i);
        ok := Emits(RegistryData(i));
        if !ok {
          return;
        }
      }
      ExecSend(Now(), script, n);
      ok := Emits(UpdateTags);
      if !ok {
        return;
      }
      ExecSend(Now(), script, n + 1);
      ok := Emits(FinishConfiguration);
      ExecDone(Now(), script);
    }

    method EmptiesHotbar()
      requires hotbar.Length == HOTBAR_SIZE
      modifies hotbar
      ensures hotbar[..] == EmptyHotbar()
    {
      for i := 0 to HOTBAR_SIZE
        invariant forall j :: 0 <= j < i ==> hotbar[j] == -1
      {
        hotbar[i] := -1;
      }
    }

    /** `v` with the entity id and the empty hotbar that Play starts with. */
    ghost function Spawning(v: Vars, nextEid: i32): Vars {
      v.(eid := if su.hub then nextEid else 1, hotbar := EmptyHotbar())
    }

    method EntersPlay(nextEid: i32) returns (ok: bool)
      requires phase.Play? && hotbar.Length == HOTBAR_SIZE
      modifies this`eid, hotbar
      modifies this`sent, this`room, this`loaded, this`chunkX, this`chunkZ, this`pos, this`posts, this`joined
      ensures var w := Spawning(old(Now()), nextEid); Outcome(Now(), ok) == Exec(w, EnterPlay(su, w))
    {
      hide Exec, EnterPlay;
      eid := if su.hub then nextEid else 1;
      EmptiesHotbar();
      ok := StartsPlay();
    }

    method StartsPlay() returns (ok: bool)
      requires phase.Play?
      modifies this`sent, this`room, this`loaded, this`chunkX, this`chunkZ, this`pos, this`posts, this`joined
      ensures Outcome(Now(), ok) == Exec(old(Now()), EnterPlay(su, old(Now())))
    {
      hide Exec, Act, Emit, UpdateChunks, Want, Scan, ScanEnds, Enumerates;
      ghost var w := Now();
      SpawnScanEnds();
      ghost var a := [Send(LoginPlay(eid)), Send(GameEvent(13)), ResetView];
      ghost var b := UpdateChunks(0, 0, [], SCAN_ROUNDS);
      ghost var c := [Stand(SPAWN), Send(SyncPlayerPosition(1, SPAWN))];
      ghost var d := if su.hub then [JoinHub] else [];
      Chained(w, a, b, c, d);
      ok := AnnouncesPlay();
      if !ok {
        return;
      }
      var ended;
      ghost var order;
      ok, ended, order := UpdatesChunks(0, 0, SCAN_ROUNDS);
      NoneUnwanted(order, Want(0, 0));
      if !ok {
        return;
      }
      ok := Stands();
      if !ok {
        return;
      }
      JoinsHub();
    }

    /** The last act of entering Play. */
    method JoinsHub()
      modifies this`posts, this`joined
      ensures Outcome(Now(), true) == Exec(old(Now()), if su.hub then [JoinHub] else [])
    {
      hide Exec;
      ExecDone(Now(), []);
      if su.hub {
        JoinsAlone(Now());
        posts := posts + [Join(eid, uuid, name, pos)];
        joined := true;
      }
    }

    lemma SpawnScanEnds()
      ensures ScanEnds(0, 0)
    {
    }

    /** Login (play), the wait for chunks, and an empty view centred nowhere. */
    method AnnouncesPlay() returns (ok: bool)
      modifies this`sent, this`room, this`loaded, this`chunkX, this`chunkZ
      ensures Outcome(Now(), ok) == Exec(old(Now()), [Send(LoginPlay(old(eid))), Send(GameEvent(13)), ResetView])
      ensures ok ==> loaded == {}
    {
      hide Exec, Act, Emit;
      ghost var script := [Send(LoginPlay(eid)), Send(GameEvent(13)), ResetView];
      ok := AnnouncesTwo(script);
      if !ok {
        return;
      }
      ExecStep(Now(), script, 2);
      ViewReset(Now());
      loaded, chunkX, chunkZ := {}, MIN_I32, MIN_I32;
      ExecDone(Now(), script);
    }

    method AnnouncesTwo(ghost script: seq<Action>) returns (ok: bool)
      requires |script| == 3 && script[0] == Send(LoginPlay(eid)) && script[1] == Send(GameEvent(13))
      modifies this`sent, this`room
      ensures Exec(old(Now()), script) == if ok then Exec(Now(), script[2..]) else Outcome(Now(), false)
    {
      hide Exec, Act, Emit;
      ExecSend(Now(), script, 0);
      ok := Emits(LoginPlay(eid));
      if !ok {
        return;
      }
      ExecSend(Now(), script, 1);
      ok := Emits(GameEvent(13));
    }

    /** Spawns on the grass. */
    method Stands() returns (ok: bool)
      modifies this`sent, this`room, this`pos
      ensures Outcome(Now(), ok) == Exec(old(Now()), [Stand(SPAWN), Send(SyncPlayerPosition(1, SPAWN))])
    {
      hide Exec, Act, Emit;
      ghost var script := [Stand(SPAWN), Send(SyncPlayerPosition(1, SPAWN))];
      ExecStep(Now(), script, 0);
      Standing(Now());
      pos := SPAWN;
      ExecSend(Now(), script, 1);
      ok := Emits(SyncPlayerPosition(1, pos));
      ExecDone(Now(), script);
    }

    /** Not `ended` when the new view's scan is still going after `rounds`. */
    method HandlesMove(rounds: nat) returns (ok: bool, ended: bool, ghost order: seq<ChunkPos>)
      requires phase.Play? && rounds >= SCAN_ROUNDS
      modifies this`sent, this`room, this`loaded, this`chunkX, this`chunkZ, this`posts
      ensures Crossed(su, old(Now())) ==>
                Enumerates(order, old(loaded) - Want(ChunkOf(su, old(pos).x), ChunkOf(su, old(pos).z)))
      ensures Outcome(Now(), ok) == Exec(old(Now()), HandleMove(su, old(Now()), order, rounds))
      ensures ok ==> (ended <==> Crossed(su, old(Now())) ==>
                                   Scan(ChunkOf(su, old(pos).x), ChunkOf(su, old(pos).z), rounds).ended)
    {
      hide Exec, Act, Emit, UpdateChunks, Want, ChunkOf, Scan, Enumerates;
      ghost var v := Now();
      ghost var told: seq<Action> := [];
      if joined && su.hub {
        told := [Tell(Move(eid, pos, yaw, pitch, onGround))];
        ToldAlone(Now(), Move(eid, pos, yaw, pitch, onGround));
        posts := posts + [Move(eid, pos, yaw, pitch, onGround)];
      } else {
        ExecDone(Now(), told);
      }
      var cx, cz := ChunkOf(su, pos.x), ChunkOf(su, pos.z);
      order := [];
      if cx == chunkX && cz == chunkZ {
        ExecAppend(v, told, []);
        ExecDone(Now(), []);
        ok, ended := true, true;
      } else {
        ok, ended, order := UpdatesChunks(cx, cz, rounds);
        ExecAppend(v, told, UpdateChunks(cx, cz, order, rounds));
      }
    }

    method DigsBlock(status: i32, x: i32, y: i32, z: i32, sequence: i32) returns (ok: bool)
      requires slot < hotbar.Length
      modifies this`sent, this`room, this`posts
      ensures Outcome(Now(), ok)
              == Exec(old(Now()), Script(su, old(Now()), PlayerAction(status, x, y, z, sequence), [], 0))
    {
      hide Exec, Act, Emit;
      ghost var v, script := Now(), Script(su, Now(), PlayerAction(status, x, y, z, sequence), [], 0);
      if status != 0 && status != 2 {
        ExecDone(v, script);
        return true;
      }
      ExecSend(v, script, 0);
      ok := Emits(BlockChangedAck(sequence));
      if !ok {
        return;
      }
      if joined && su.hub {
        ToldAlone(Now(), SetBlock(x, y, z, Chunk.AIR));
        assert script[1..] == [Tell(SetBlock(x, y, z, Chunk.AIR))];
        posts := posts + [SetBlock(x, y, z, Chunk.AIR)];
      } else {
        ExecDone(Now(), script);
      }
    }

    method PlacesBlock(p: Inbound) returns (ok: bool)
      requires p.UseItemOn? && slot < hotbar.Length
      modifies this`sent, this`room, this`posts
      ensures Outcome(Now(), ok) == Exec(old(Now()), [Send(BlockChangedAck(p.sequence))] + PlaceHeld(su, old(Now()), p))
    {
      hide Exec, Act, Emit, PlaceAgainst, FaceToAxis;
      ghost var v := Now();
      ghost var script := [Send(BlockChangedAck(p.sequence))] + PlaceHeld(su, v, p);
      ExecSend(v, script, 0);
      ok := Emits(BlockChangedAck(p.sequence));
      if !ok {
        return;
      }
      assert script[1..] == PlaceHeld(su, v, p);
      ExecDone(Now(), []);
      if !joined || !su.hub {
        return;
      }
      var item := hotbar[slot];
      var state := su.blockForItem(item, FaceToAxis(p.face));
      if item < 0 || state.None? {
        return;
      }
      var (x, y, z) := PlaceAgainst(p.x, p.y, p.z, p.face);
      ToldAlone(Now(), SetBlock(x, y, z, state.value));
      posts := posts + [SetBlock(x, y, z, state.value)];
    }

    /** What handling `p` from `v` should amount to: its fields set, its script run. */
    ghost function Handled(v: Vars, p: Inbound, nextEid: i32, order: seq<ChunkPos>, rounds: nat): Outcome
      requires v.slot < HOTBAR_SIZE == |v.hotbar|
    {
      var w := Prepared(su, v, p, nextEid);
      Exec(w, Script(su, w, p, order, rounds))
    }

    ghost predicate OrderFits(v: Vars, p: Inbound, nextEid: i32, order: seq<ChunkPos>) {
      var w := Prepared(su, v, p, nextEid);
      Moves(p) && Crossed(su, w) ==>
        Enumerates(order, w.loaded - Want(ChunkOf(su, w.pos.x), ChunkOf(su, w.pos.z)))
    }

    method HandlesStatus(p: Inbound, ghost nextEid: i32) returns (ok: bool)
      requires hotbar.Length == HOTBAR_SIZE && slot < HOTBAR_SIZE
      requires (phase.Handshaking? || phase.Status?) && Registered(phase, p)
      modifies this`phase, this`sent, this`room
      ensures Outcome(Now(), ok) == Handled(old(Now()), p, nextEid, [], 0)
    {
      hide Exec, Act, Emit;
      ok := true;
      match p {
        case StatusRequest =>
          SentAlone(Now(), StatusResponse);
          ok := Emits(StatusResponse);
        case StatusPing(payload) =>
          SentAlone(Now(), StatusPong(payload));
          ok := Emits(StatusPong(payload));
        case Handshake(next) =>
          if next == 1 {
            phase := Status;
          } else if next == 2 || next == 3 {
            phase := Login;
          }
          ExecDone(Now(), []);
      }
    }

    method HandlesLogin(p: Inbound, ghost nextEid: i32) returns (ok: bool)
      requires hotbar.Length == HOTBAR_SIZE && slot < HOTBAR_SIZE && phase.Login? && Registered(phase, p)
      modifies this`phase, this`name, this`uuid, this`threshold, this`sent, this`room
      ensures Outcome(Now(), ok) == Handled(old(Now()), p, nextEid, [], 0)
    {
      hide Exec, Act, Emit, FinishLogin;
      match p {
        case LoginStart(n) =>
          name, uuid := n, su.offlineUuid(n);
          ok := FinishesLogin();
        case LoginAcknowledged =>
          phase := Configuration;
          ok := EntersConfiguration();
        case EncryptionResponse =>
          ExecDone(Now(), []);
          ok := true;
      }
    }

    method HandlesConfiguration(p: Inbound, nextEid: i32) returns (ok: bool)
      requires hotbar.Length == HOTBAR_SIZE && slot < HOTBAR_SIZE && phase.Configuration? && Registered(phase, p)
      modifies this`phase, this`eid, hotbar
      modifies this`sent, this`room, this`loaded, this`chunkX, this`chunkZ, this`pos, this`posts, this`joined
      ensures Outcome(Now(), ok) == Handled(old(Now()), p, nextEid, [], 0)
    {
      hide Exec, Act, Emit, EnterPlay, Registries, Prepared, Script, Handled;
      match p {
        case AckFinishConfiguration =>
          AckHandled(Now(), nextEid);
          phase := Play;
          ok := EntersPlay(nextEid);
        case KnownPacks =>
          KnownPacksHandled(Now(), nextEid);
          ok := AnswersKnownPacks();
        case _ =>
          QuietHandled(Now(), p, nextEid);
          ok := true;
      }
    }

    lemma AckHandled(v: Vars, nextEid: i32)
      requires v.slot < HOTBAR_SIZE == |v.hotbar|
      ensures var w := Spawning(v.(phase := Play), nextEid);
              Handled(v, AckFinishConfiguration, nextEid, [], 0) == Exec(w, EnterPlay(su, w))
    {
      hide Exec, EnterPlay;
    }

    lemma KnownPacksHandled(v: Vars, nextEid: i32)
      requires v.slot < HOTBAR_SIZE == |v.hotbar|
      ensures Handled(v, KnownPacks, nextEid, [], 0)
              == Exec(v, Registries(su.registries) + [Send(UpdateTags), Send(FinishConfiguration)])
    {
      hide Exec, Registries;
    }

    /** Packets that are read and change nothing. */
    lemma QuietHandled(v: Vars, p: Inbound, nextEid: i32)
      requires v.slot < HOTBAR_SIZE == |v.hotbar|
      requires p.ClientInformation? || p.PluginMessage? || p.KeepAlive? || p.ConfirmTeleport? || p.PlayerLoaded?
      ensures Handled(v, p, nextEid, [], 0) == Outcome(v, true)
    {
      ExecDone(v, []);
    }

    method HandlesPlay(p: Inbound, ghost nextEid: i32) returns (ok: bool)
      requires hotbar.Length == HOTBAR_SIZE && slot < HOTBAR_SIZE
      requires phase.Play? && Registered(phase, p) && !Moves(p)
      modifies this`slot, this`sent, this`room, this`posts, hotbar
      ensures slot < HOTBAR_SIZE && Outcome(Now(), ok) == Handled(old(Now()), p, nextEid, [], 0)
    {
      hide Exec, Act, Emit, HandleMove, PlaceHeld, Prepared;
      ok := true;
      if p.SetCarriedItem? {
        CarriesItem(p.slot, nextEid);
        ExecDone(Now(), []);
        return;
      }
      if p.SetCreativeModeSlot? {
        SetsCreativeSlot(p.slot, p.hasItem, p.item, nextEid);
        ExecDone(Now(), []);
        return;
      }
      NothingPrepared(Now(), p, nextEid);
      match p {
        case ChatMessage(msg) =>
          ExecDone(Now(), []);
          if joined && su.hub {
            ToldAlone(Now(), Chat(eid, msg));
            posts := posts + [Chat(eid, msg)];
          }
        case PlayerAction(status, x, y, z, sequence) => ok := DigsBlock(status, x, y, z, sequence);
        case UseItemOn(_, _, _, _, _) => ok := PlacesBlock(p);
        case _ => ExecDone(Now(), []);
      }
    }

    lemma NothingPrepared(v: Vars, p: Inbound, nextEid: i32)
      requires Registered(Play, p) && !Moves(p) && !p.SetCarriedItem? && !p.SetCreativeModeSlot?
      ensures Prepared(su, v, p, nextEid) == v
    {
    }

    /** Only the nine hotbar slots can be selected. */
    method CarriesItem(s: i16, ghost nextEid: i32)
      requires slot < HOTBAR_SIZE
      modifies this`slot
      ensures slot < HOTBAR_SIZE && Now() == Prepared(su, old(Now()), SetCarriedItem(s), nextEid)
    {
      if 0 <= s < HOTBAR_SIZE {
        slot := s;
      }
    }

    /** Inventory slots 36 to 44 are the hotbar; the others are ignored. */
    method SetsCreativeSlot(s: i16, hasItem: bool, item: i32, ghost nextEid: i32)
      requires hotbar.Length == HOTBAR_SIZE
      modifies hotbar
      ensures Now() == Prepared(su, old(Now()), SetCreativeModeSlot(s, hasItem, item), nextEid)
    {
      var i := s - HOTBAR_FIRST;
      if 0 <= i < HOTBAR_SIZE {
        hotbar[i] := if hasItem then item else -1;
      }
    }

    method HandlesMovement(p: Inbound, rounds: nat, ghost nextEid: i32)
      returns (ok: bool, ended: bool, ghost order: seq<ChunkPos>)
      requires hotbar.Length == HOTBAR_SIZE && slot < HOTBAR_SIZE
      requires phase.Play? && Moves(p) && rounds >= SCAN_ROUNDS
      modifies this`pos, this`yaw, this`pitch, this`onGround
      modifies this`sent, this`room, this`loaded, this`chunkX, this`chunkZ, this`posts
      ensures OrderFits(old(Now()), p, nextEid, order)
      ensures Outcome(Now(), ok) == Handled(old(Now()), p, nextEid, order, rounds)
      ensures ok ==> (ended <==> !Endless(su, Prepared(su, old(Now()), p, nextEid), p, rounds))
    {
      hide Exec, Act, Emit, HandleMove, Enumerates, ChunkOf, Scan, Want, Prepared;
      TracksMove(p, nextEid);
      ok, ended, order := HandlesMove(rounds);
    }

    method TracksMove(p: Inbound, ghost nextEid: i32)
      requires Moves(p)
      modifies this`pos, this`yaw, this`pitch, this`onGround
      ensures Now() == Prepared(su, old(Now()), p, nextEid)
    {
      hide Prepared;
      MoveFields(Now(), p, nextEid);
      if p.MovePlayerRot? {
        onGround := p.flags % 2 == 1;
        yaw, pitch := p.yaw, p.pitch;
        return;
      }
      pos, onGround := p.pos, p.flags % 2 == 1;
      if p.MovePlayerPosRot? {
        yaw, pitch := p.yaw, p.pitch;
      }
    }

    /** A move sets the fields it carries. */
    lemma MoveFields(v: Vars, p: Inbound, nextEid: i32)
      requires Moves(p)
      ensures Prepared(su, v, p, nextEid)
              == v.(pos := if p.MovePlayerRot? then v.pos else p.pos,
                    yaw := if p.MovePlayerPos? then v.yaw else p.yaw,
                    pitch := if p.MovePlayerPos? then v.pitch else p.pitch,
                    onGround := p.flags % 2 == 1)
    {
    }

    /** One received frame: ignored, refused, or handled. `t` is the model's turn. */
    method Handles(r: Received, nextEid: i32, rounds: nat) returns (next: Next, ghost t: Turn)
      requires hotbar.Length == HOTBAR_SIZE && slot < HOTBAR_SIZE && rounds >= SCAN_ROUNDS
      modifies this, hotbar
      ensures t.r == (if r.Packet? && !Registered(old(phase), r.p) then Unregistered else r)
      ensures slot < HOTBAR_SIZE && Possible(su, old(Now()), t)
      ensures Stepped(Now(), next) == Step(su, old(Now()), t)
    {
      hide Exec, Script, Prepared, ChunkOf, Scan, Enumerates, Want, Crossed;
      ghost var order := [];
      if !r.Packet? || !Registered(phase, r.p) {
        t := Turn(if r.Packet? then Unregistered else r, nextEid, order, rounds);
        return if r.Malformed? then Returning else Reading, t;
      }
      var p := r.p;
      var ok, ended := true, true;
      if Moves(p) {
        ok, ended, order := HandlesMovement(p, rounds, nextEid);
        t := Turn(r, nextEid, order, rounds);
      } else {
        if phase.Handshaking? || phase.Status? {
          ok := HandlesStatus(p, nextEid);
        } else if phase.Login? {
          ok := HandlesLogin(p, nextEid);
        } else if phase.Configuration? {
          ok := HandlesConfiguration(p, nextEid);
        } else {
          ok := HandlesPlay(p, nextEid);
        }
        t := Turn(r, nextEid, order, 0);
      }
      next := if !ok || Ends(p) then Returning else if !ended then Scanning else Reading;
    }

    /** The read loop over everything the peer sends before it closes, with the entity
      * id the hub would hand out at each point, and the deferred leave at the end.
      * A session caught in an endless scan is left there after `rounds`. */
    method Serves(inbound: seq<Received>, eids: seq<i32>, rounds: nat) returns (scanning: bool, ghost run: seq<Turn>)
      requires hotbar.Length == HOTBAR_SIZE && slot < HOTBAR_SIZE && |eids| == |inbound| && rounds >= SCAN_ROUNDS
      modifies this, hotbar
      ensures PossibleRun(su, old(Now()), run) && Now() == Finish(su, Serve(su, old(Now()), run))
      ensures scanning <==> Serve(su, old(Now()), run).next.Scanning?
      ensures |run| <= |inbound| && forall i :: 0 <= i < |run| ==> run[i].r.Unregistered? || run[i].r == inbound[i]
      ensures AllWell(su, old(Now()), run) ==> |run| == |inbound|
    {
      hide Step, Possible, PossibleRun, Serve, AllWell, Prepared;
      ghost var v := Now();
      run := [];
      EmptyRun(v);
      var next := Reading;
      for i := 0 to |inbound|
        invariant slot < HOTBAR_SIZE && |run| == i && next.Reading?
        invariant PossibleRun(su, v, run) && AllWell(su, v, run) && Serve(su, v, run) == Stepped(Now(), Returning)
        invariant forall k :: 0 <= k < i ==> run[k].r.Unregistered? || run[k].r == inbound[k]
      {
        ghost var t;
        next, t := Handles(inbound[i], eids[i], rounds);
        RunExtended(su, v, run, t);
        run := run + [t];
        if !next.Reading? {
          break;
        }
      }
      scanning := next.Scanning?;
      if !scanning && joined && su.hub {
        posts := posts + [Leave(eid)];
      }
    }

    lemma EmptyRun(v: Vars)
      requires v.slot < HOTBAR_SIZE == |v.hotbar|
      ensures PossibleRun(su, v, []) && AllWell(su, v, []) && Serve(su, v, []) == Stepped(v, Returning)
    {
    }
  }

  /** The next action of a script is a send. */
  lemma ExecSend(v: Vars, script: seq<Action>, i: nat)
    requires i < |script| && script[i].Send?
    ensures var o := Emit(v, script[i].p);
            Exec(v, script[i..]) == if o.ok then Exec(o.v, script[i + 1..]) else o
    ensures i == 0 ==> script[i..] == script
  {
    hide Emit;
    ExecStep(v, script, i);
  }

  lemma ExecStep(v: Vars, script: seq<Action>, i: nat)
    requires i < |script|
    ensures var o := Act(v, script[i]);
            Exec(v, script[i..]) == if o.ok then Exec(o.v, script[i + 1..]) else o
    ensures i == 0 ==> script[i..] == script
  {
    hide Act;
    assert script[i..][1..] == script[i + 1..];
  }

  lemma ExecDone(v: Vars, script: seq<Action>)
    ensures script == [] ==> Exec(v, script) == Outcome(v, true)
    ensures Exec(v, script[|script|..]) == Outcome(v, true)
  {
  }

  lemma ViewReset(v: Vars)
    ensures Act(v, ResetView) == Outcome(v.(loaded := {}, chunkX := MIN_I32, chunkZ := MIN_I32), true)
  {
  }

  lemma Standing(v: Vars)
    ensures Act(v, Stand(SPAWN)) == Outcome(v.(pos := SPAWN), true)
  {
  }

  lemma JoinsAlone(v: Vars)
    ensures Exec(v, [JoinHub])
            == Outcome(v.(posts := v.posts + [Join(v.eid, v.uuid, v.name, v.pos)], joined := true), true)
  {
    ExecStep(v, [JoinHub], 0);
  }

  lemma ToldAlone(v: Vars, post: Post)
    ensures Exec(v, [Tell(post)]) == Outcome(v.(posts := v.posts + [post]), true)
  {
    ExecStep(v, [Tell(post)], 0);
  }

  lemma NoneUnwanted(order: seq<ChunkPos>, want: set<ChunkPos>)
    ensures Enumerates(order, {} - want) ==> order == []
  {
    if order != [] {
      assert order[0] !in {} - want;
    }
  }

  lemma SentAlone(v: Vars, p: Outgoing)
    ensures Exec(v, [Send(p)]) == Emit(v, p)
  {
    hide Emit;
    ExecSend(v, [Send(p)], 0);
  }

  lemma SentFirst(v: Vars, p: Outgoing)
    ensures Act(v, Send(p)) == Emit(v, p) && Emit(v, p).v.loaded == v.loaded && Emit(v, p).v.phase == v.phase
  {
  }

  lemma Centred(v: Vars, cx: i32, cz: i32)
    ensures Act(v, Centre(cx, cz)) == Outcome(v.(chunkX := cx, chunkZ := cz), true)
  {
  }

  lemma StillUnwanted(loaded: set<ChunkPos>, want: set<ChunkPos>)
    ensures loaded + want - want == loaded - want
  {
  }

  lemma NothingDropped(v: Vars, want: set<ChunkPos>)
    ensures Exec(v, Drops([])) == Outcome(v, true) && Enumerates([], v.loaded - want - v.loaded)
  {
  }

  /** Meeting one more column extends the unloading order unless it is wanted. */
  lemma Met(order: seq<ChunkPos>, all: set<ChunkPos>, want: set<ChunkPos>, todo: set<ChunkPos>, key: ChunkPos)
    requires Enumerates(order, all - want - todo) && key in todo && todo <= all
    ensures Enumerates(if key in want then order else order + [key], all - want - (todo - {key}))
  {
    var before, after := all - want - todo, all - want - (todo - {key});
    if key in want {
      assert before == after;
    } else {
      assert after == before + {key} && key !in before;
      assert forall c :: c in order + [key] <==> c in order || c == key;
    }
  }

  lemma DropNext(v: Vars, order: seq<ChunkPos>, key: ChunkPos)
    requires Exec(v, Drops(order)).ok
    ensures Exec(v, Drops(order + [key])) == Act(Exec(v, Drops(order)).v, Drop(key))
  {
    hide Act, Exec;
    var w := Exec(v, Drops(order)).v;
    assert Drops(order + [key]) == Drops(order) + [Drop(key)];
    ExecAppend(v, Drops(order), [Drop(key)]);
    DropAlone(w, key);
  }

  lemma DropAlone(w: Vars, key: ChunkPos)
    ensures Exec(w, [Drop(key)]) == Act(w, Drop(key))
  {
    hide Act;
    assert [Drop(key)][1..] == [];
    var o := Act(w, Drop(key));
    assert Exec(o.v, []) == Outcome(o.v, true);
  }

  /** A failed unload stops the loop, whatever was still to come. */
  lemma StopsThere(v: Vars, order: seq<ChunkPos>, rest: seq<ChunkPos>, all: set<ChunkPos>, done: set<ChunkPos>)
    requires !Exec(v, Drops(order)).ok && done <= all && Enumerates(order, done) && Enumerates(rest, all - done)
    ensures Enumerates(order + rest, all) && Exec(v, Drops(order + rest)) == Exec(v, Drops(order))
  {
    hide Act, Exec;
    DropsAppend(order, rest);
    ExecAppend(v, Drops(order), Drops(rest));
    assert forall c :: c in order + rest <==> c in order || c in rest;
  }
}
