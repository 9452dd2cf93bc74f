/** What every run of a session keeps: the client's columns, the framing, the
  * lifecycle, and the session's place in the hub. */
module SessionProofs {
  import opened Bytes
  import Codec
  import Hub
  import opened Session
  import opened SessionScan

  // ---- The client's side, rebuilt from the frames it received ----

  /** `clean`: no column was loaded twice or unloaded while absent. */
  datatype Columns = Columns(cols: set<ChunkPos>, clean: bool)

  function Shown(c: Columns, p: Outgoing): Columns {
    match p
    case ChunkData(x) => Columns(c.cols + {x}, c.clean && x !in c.cols)
    case UnloadChunk(x) => Columns(c.cols - {x}, c.clean && x in c.cols)
    case _ => c
  }

  function ColumnsOf(sent: seq<Frame>): Columns {
    if sent == [] then Columns({}, true)
    else Shown(ColumnsOf(sent[..|sent| - 1]), sent[|sent| - 1].p)
  }

  /** A client decompresses from the frame after a Set Compression on. */
  function ClientMode(sent: seq<Frame>): bool {
    if sent == [] then false
    else
      var p := sent[|sent| - 1].p;
      if p.SetCompression? then p.threshold >= 0 else ClientMode(sent[..|sent| - 1])
  }

  /** Every frame is written in the mode the client expects. */
  predicate Framed(sent: seq<Frame>) {
    forall i :: 0 <= i < |sent| ==> sent[i].compressed == ClientMode(sent[..i])
  }

  function PlaysOf(sent: seq<Frame>): nat {
    if sent == [] then 0
    else PlaysOf(sent[..|sent| - 1]) + if sent[|sent| - 1].p.LoginPlay? then 1 else 0
  }

  lemma OneMore(sent: seq<Frame>, f: Frame)
    ensures ColumnsOf(sent + [f]) == Shown(ColumnsOf(sent), f.p)
    ensures ClientMode(sent + [f]) == if f.p.SetCompression? then f.p.threshold >= 0 else ClientMode(sent)
    ensures PlaysOf(sent + [f]) == PlaysOf(sent) + if f.p.LoginPlay? then 1 else 0
  {
    assert (sent + [f])[..|sent|] == sent;
  }

  lemma OneMoreFramed(sent: seq<Frame>, f: Frame)
    ensures Framed(sent + [f]) <==> Framed(sent) && f.compressed == ClientMode(sent)
  {
    hide ClientMode;
    var s := sent + [f];
    assert s[..|sent|] == sent;
    assert forall i :: 0 <= i < |sent| ==> s[i] == sent[i] && s[..i] == sent[..i];
    if Framed(s) {
      assert s[|sent|].compressed == ClientMode(s[..|sent|]);
      assert forall i :: 0 <= i < |sent| ==> s[i].compressed == ClientMode(s[..i]);
    }
  }

  // ---- The invariant ----

  /** The threshold the client receives has the sign of the server's. */
  predicate CompressionAgrees(su: Setup) { su.compression < 0 || AsI32(su.compression) >= 0 }

  /** The hub heard nothing, or one join first and then no second join and no leave. */
  predicate Present(v: Vars) {
    if v.joined then
      && v.posts != [] && v.posts[0].Join? && v.posts[0].eid == v.eid
      && forall i :: 0 < i < |v.posts| ==> !v.posts[i].Join? && !v.posts[i].Leave?
    else v.posts == []
  }

  predicate FramingHolds(su: Setup, v: Vars) {
    CompressionAgrees(su) ==> Framed(v.sent) && ClientMode(v.sent) == (v.threshold >= 0)
  }

  predicate Inv(su: Setup, v: Vars) {
    && |v.hotbar| == HOTBAR_SIZE && v.slot < HOTBAR_SIZE
    && ColumnsOf(v.sent) == Columns(v.loaded, true)
    && FramingHolds(su, v)
    && Present(v) && (v.joined ==> su.hub)
    && PlaysOf(v.sent) <= 1
    && (!v.phase.Play? ==> v.loaded == {} && !v.joined && PlaysOf(v.sent) == 0)
  }

  /** When an action keeps the invariant. */
  predicate Allowed(su: Setup, v: Vars, a: Action) {
    match a
    case Send(p) =>
      && !p.SetCompression? && !p.ChunkData? && !p.UnloadChunk?
      && (p.LoginPlay? ==> v.phase.Play? && PlaysOf(v.sent) == 0)
    case Compress(t) => t == su.compression >= 0
    case Visit(_) => v.phase.Play?
    case Drop(c) => v.phase.Play? && c in v.loaded
    case Centre(_, _) => true
    case ResetView => v.loaded == {}
    case Stand(_) => true
    case JoinHub => v.phase.Play? && su.hub && !v.joined
    case Tell(post) => v.joined && !post.Join? && !post.Leave?
  }

  lemma EmitKeeps(su: Setup, v: Vars, p: Outgoing)
    requires FramingHolds(su, v) && v.room > 0
    ensures var w := Emit(v, p).v;
            && w == v.(room := v.room - 1, sent := v.sent + [Frame(p, v.threshold >= 0)])
            && ColumnsOf(w.sent) == Shown(ColumnsOf(v.sent), p)
            && PlaysOf(w.sent) == PlaysOf(v.sent) + (if p.LoginPlay? then 1 else 0)
            && (CompressionAgrees(su) ==>
                  Framed(w.sent) && ClientMode(w.sent)
                  == if p.SetCompression? then p.threshold >= 0 else v.threshold >= 0)
  {
    hide ColumnsOf, ClientMode, PlaysOf, Framed, CompressionAgrees;
    OneMore(v.sent, Frame(p, v.threshold >= 0));
    OneMoreFramed(v.sent, Frame(p, v.threshold >= 0));
  }

  /** Every allowed action keeps the invariant, whether its send succeeds or fails. */
  lemma ActKeeps(su: Setup, v: Vars, a: Action)
    requires Inv(su, v) && Allowed(su, v, a)
    ensures Inv(su, Act(v, a).v)
    ensures Act(v, a).v.phase == v.phase && Act(v, a).v.eid == v.eid
  {
    hide ColumnsOf, ClientMode, PlaysOf, Framed;
    if v.room > 0 {
      match a {
        case Send(p) => EmitKeeps(su, v, p);
        case Compress(t) => EmitKeeps(su, v, SetCompression(AsI32(t)));
        case Visit(c) => EmitKeeps(su, v, ChunkData(c));
        case Drop(c) => EmitKeeps(su, v, UnloadChunk(c));
        case _ =>
      }
    }
  }

  predicate AllowedAll(su: Setup, v: Vars, script: seq<Action>)
    decreases script
  {
    script == []
    || (&& Allowed(su, v, script[0])
        && (Act(v, script[0]).ok ==> AllowedAll(su, Act(v, script[0]).v, script[1..])))
  }

  lemma {:induction false} ExecKeeps(su: Setup, v: Vars, script: seq<Action>)
    requires Inv(su, v) && AllowedAll(su, v, script)
    ensures Inv(su, Exec(v, script).v) && Exec(v, script).v.phase == v.phase && Exec(v, script).v.eid == v.eid
    decreases script
  {
    hide Inv, Allowed, Act;
    if script != [] {
      ActKeeps(su, v, script[0]);
      if Act(v, script[0]).ok {
        ExecKeeps(su, Act(v, script[0]).v, script[1..]);
      }
    }
  }

  lemma {:induction false} AllowedAppend(su: Setup, v: Vars, a: seq<Action>, b: seq<Action>)
    requires AllowedAll(su, v, a) && (Exec(v, a).ok ==> AllowedAll(su, Exec(v, a).v, b))
    ensures AllowedAll(su, v, a + b)
    decreases a
  {
    hide Allowed, Act;
    if a == [] {
      assert a + b == b;
    } else {
      assert (a + b)[1..] == a[1..] + b;
      if Act(v, a[0]).ok {
        AllowedAppend(su, Act(v, a[0]).v, a[1..], b);
      }
    }
  }

  lemma AllowedOne(su: Setup, v: Vars, a: Action)
    ensures AllowedAll(su, v, [a]) <==> Allowed(su, v, a)
    ensures Exec(v, [a]) == Act(v, a)
  {
    hide Allowed, Act;
    assert [a][1..] == [];
    var o := Act(v, a);
    assert AllowedAll(su, o.v, []) && Exec(o.v, []) == Outcome(o.v, true);
  }

  // ---- Chunk views ----

  function Elements(cs: seq<ChunkPos>): set<ChunkPos> { set c | c in cs }

  /** One visited column: sent and marked loaded when missing, else nothing. */
  lemma VisitOne(v: Vars, c: ChunkPos)
    ensures var o := Act(v, Visit(c));
            && o.v == v.(loaded := o.v.loaded, sent := o.v.sent, room := o.v.room)
            && o.v.loaded == (if o.ok then v.loaded + {c} else v.loaded)
            && |o.v.sent| - |v.sent| == |o.v.loaded| - |v.loaded|
  {
    assert c in v.loaded ==> v.loaded + {c} == v.loaded;
  }

  lemma DropOne(v: Vars, c: ChunkPos)
    requires c in v.loaded
    ensures var o := Act(v, Drop(c));
            && o.v == v.(loaded := o.v.loaded, sent := o.v.sent, room := o.v.room)
            && o.v.loaded == (if o.ok then v.loaded - {c} else v.loaded)
            && |o.v.sent| - |v.sent| == |v.loaded| - |o.v.loaded|
  {
  }

  lemma Front(cs: seq<ChunkPos>)
    requires cs != []
    ensures Visits(cs) != [] && Visits(cs)[0] == Visit(cs[0]) && Visits(cs)[1..] == Visits(cs[1..])
    ensures Drops(cs) != [] && Drops(cs)[0] == Drop(cs[0]) && Drops(cs)[1..] == Drops(cs[1..])
    ensures Elements(cs) == {cs[0]} + Elements(cs[1..])
  {
    assert cs == [cs[0]] + cs[1..];
  }

  /** Visiting columns sends each missing one once and skips the rest. */
  lemma {:induction false} VisitsLoad(su: Setup, v: Vars, cs: seq<ChunkPos>)
    requires v.phase.Play?
    ensures AllowedAll(su, v, Visits(cs))
    ensures var o := Exec(v, Visits(cs));
            && o.v == v.(loaded := o.v.loaded, sent := o.v.sent, room := o.v.room)
            && v.loaded <= o.v.loaded <= v.loaded + Elements(cs)
            && (o.ok ==> o.v.loaded == v.loaded + Elements(cs))
            && |o.v.sent| - |v.sent| == |o.v.loaded| - |v.loaded|
    decreases cs
  {
    hide Act, Visits, Elements;
    if cs == [] {
      NoColumns(v);
    } else {
      Front(cs);
      VisitOne(v, cs[0]);
      var o := Act(v, Visit(cs[0]));
      if o.ok {
        VisitsLoad(su, o.v, cs[1..]);
      }
    }
  }

  lemma NoColumns(v: Vars)
    ensures Elements([]) == {} && Visits([]) == [] && Drops([]) == []
  {
  }

  /** Dropping distinct loaded columns sends one unload for each. */
  lemma {:induction false} DropsUnload(su: Setup, v: Vars, cs: seq<ChunkPos>)
    requires v.phase.Play? && forall i :: 0 <= i < |cs| ==> cs[i] in v.loaded
    requires forall i, j :: 0 <= i < j < |cs| ==> cs[i] != cs[j]
    ensures AllowedAll(su, v, Drops(cs))
    ensures var o := Exec(v, Drops(cs));
            && o.v == v.(loaded := o.v.loaded, sent := o.v.sent, room := o.v.room)
            && v.loaded - Elements(cs) <= o.v.loaded <= v.loaded
            && (o.ok ==> o.v.loaded == v.loaded - Elements(cs))
            && |o.v.sent| - |v.sent| == |v.loaded| - |o.v.loaded|
    decreases cs
  {
    hide Act, Drops, Elements;
    if cs == [] {
      NoColumns(v);
    } else {
      Front(cs);
      DropOne(v, cs[0]);
      var o := Act(v, Drop(cs[0]));
      if o.ok {
        DropsUnload(su, o.v, cs[1..]);
      }
    }
  }

  /** Four scripts one after the other. */
  lemma Chained(v: Vars, a: seq<Action>, b: seq<Action>, c: seq<Action>, d: seq<Action>)
    ensures Exec(v, a + b + c + d)
            == var oa := Exec(v, a);
               if !oa.ok then oa
               else var ob := Exec(oa.v, b);
                    if !ob.ok then ob
                    else var oc := Exec(ob.v, c);
                         if !oc.ok then oc else Exec(oc.v, d)
  {
    hide Exec;
    ExecAppend(v, a, b);
    ExecAppend(v, a + b, c);
    ExecAppend(v, a + b + c, d);
  }

  lemma AllowedFour(su: Setup, v: Vars, a: seq<Action>, b: seq<Action>, c: seq<Action>, d: seq<Action>)
    requires AllowedAll(su, v, a)
    requires Exec(v, a).ok ==> AllowedAll(su, Exec(v, a).v, b)
    requires Exec(v, a).ok && Exec(Exec(v, a).v, b).ok ==> AllowedAll(su, Exec(Exec(v, a).v, b).v, c)
    requires Exec(v, a).ok && Exec(Exec(v, a).v, b).ok && Exec(Exec(Exec(v, a).v, b).v, c).ok ==>
               AllowedAll(su, Exec(Exec(Exec(v, a).v, b).v, c).v, d)
    ensures AllowedAll(su, v, a + b + c + d)
  {
    hide AllowedAll, Exec;
    ExecAppend(v, a, b);
    ExecAppend(v, a + b, c);
    AllowedAppend(su, v, a, b);
    AllowedAppend(su, v, a + b, c);
    AllowedAppend(su, v, a + b + c, d);
  }

  /** Recentring the view. Whatever happens, nothing wanted is dropped and nothing
    * not visited added. A scan that ends brings, if no send fails, exactly the
    * wanted columns, for one packet more than the difference of the two views. A
    * scan that never ends only loads: nothing is unloaded and the centre stays. */
  lemma Recentring(su: Setup, v: Vars, cx: i32, cz: i32, order: seq<ChunkPos>, rounds: nat)
    requires v.phase.Play? && rounds >= SCAN_ROUNDS && Enumerates(order, v.loaded - Want(cx, cz))
    ensures AllowedAll(su, v, UpdateChunks(cx, cz, order, rounds))
    ensures var o := Exec(v, UpdateChunks(cx, cz, order, rounds));
            var (want, cols) := (Want(cx, cz), Elements(Scan(cx, cz, rounds).cols));
            && o.v == v.(loaded := o.v.loaded, sent := o.v.sent, room := o.v.room,
                         chunkX := o.v.chunkX, chunkZ := o.v.chunkZ)
            && v.loaded * want <= o.v.loaded <= v.loaded + cols
            && (o.ok && ScanEnds(cx, cz) ==>
                  && o.v.loaded == want && (o.v.chunkX, o.v.chunkZ) == (cx, cz)
                  && |o.v.sent| == |v.sent| + 1 + |want - v.loaded| + |v.loaded - want|)
            && (o.ok && !ScanEnds(cx, cz) ==>
                  o.v.loaded == v.loaded + cols && |o.v.sent| == |v.sent| + 1 + |cols - v.loaded|)
            && (!ScanEnds(cx, cz) ==> v.loaded <= o.v.loaded)
            && (!(o.ok && ScanEnds(cx, cz)) ==> (o.v.chunkX, o.v.chunkZ) == (v.chunkX, v.chunkZ))
  {
    hide Exec, AllowedAll, Scan, Want, ScanEnds, Visits, Drops, Elements, Enumerates;
    var w, want := Scan(cx, cz, rounds), Want(cx, cz);
    var first: seq<Action> := [Send(SetCenterChunk(cx, cz))];
    var drops, last: seq<Action> := if w.ended then Drops(order) else [], if w.ended then [Centre(cx, cz)] else [];
    AllowedOne(su, v, Send(SetCenterChunk(cx, cz)));
    var o1 := Exec(v, first);
    ScanIsWant(cx, cz, rounds);
    VisitsLoad(su, o1.v, w.cols);
    var ob := Exec(o1.v, Visits(w.cols));
    Counts(v.loaded, Elements(w.cols));
    AllowedNone(su, ob.v);
    if w.ended {
      VisitedIsWant(w.cols, want);
      OrderElements(order, v.loaded - want);
      if o1.ok && ob.ok {
        DropsUnload(su, ob.v, order);
        AllowedOne(su, Exec(ob.v, Drops(order)).v, Centre(cx, cz));
      }
    }
    AllowedFour(su, v, first, Visits(w.cols), drops, last);
    Chained(v, first, Visits(w.cols), drops, last);
  }

  lemma AllowedNone(su: Setup, v: Vars)
    ensures AllowedAll(su, v, []) && Exec(v, []) == Outcome(v, true)
  {
  }

  lemma VisitedIsWant(cols: seq<ChunkPos>, want: set<ChunkPos>)
    requires forall c :: c in cols <==> c in want
    ensures Elements(cols) == want
  {
  }

  lemma OrderElements(order: seq<ChunkPos>, s: set<ChunkPos>)
    requires Enumerates(order, s)
    ensures Elements(order) == s
    ensures forall i :: 0 <= i < |order| ==> order[i] in s
    ensures forall i, j :: 0 <= i < j < |order| ==> order[i] != order[j]
  {
  }

  lemma {:induction false} EnumerationExists(s: set<ChunkPos>) returns (order: seq<ChunkPos>)
    ensures Enumerates(order, s)
    decreases s
  {
    if s == {} {
      order := [];
    } else {
      var c :| c in s;
      var rest := EnumerationExists(s - {c});
      order := [c] + rest;
    }
  }

  lemma Counts(loaded: set<ChunkPos>, want: set<ChunkPos>)
    ensures loaded + want - (loaded - want) == want && loaded * want <= loaded <= loaded + want
    ensures |loaded + want| - |loaded| == |want - loaded|
    ensures |loaded + want| - |want| == |loaded - want|
  {
    assert loaded + want == loaded + (want - loaded);
    assert loaded + want == want + (loaded - want);
  }

  // ---- Every handler is allowed ----

  /** Actions that keep the invariant in any state. */
  predicate Harmless(a: Action) {
    || a.Centre? || a.Stand?
    || (a.Send? && !a.p.SetCompression? && !a.p.ChunkData? && !a.p.UnloadChunk? && !a.p.LoginPlay?)
  }

  lemma {:induction false} HarmlessAllowed(su: Setup, v: Vars, script: seq<Action>)
    requires forall a :: a in script ==> Harmless(a)
    ensures AllowedAll(su, v, script)
    decreases script
  {
    hide Act;
    if script != [] {
      assert script[0] in script;
      HarmlessAllowed(su, Act(v, script[0]).v, script[1..]);
    }
  }

  /** Only joining changes whether the session has joined. */
  lemma {:induction false} JoinedKept(v: Vars, script: seq<Action>)
    requires JoinHub !in script
    ensures var w := Exec(v, script).v; w.joined == v.joined && w.phase == v.phase
    decreases script
  {
    if script != [] {
      var o := Act(v, script[0]);
      assert script[0] != JoinHub && o.v.joined == v.joined && o.v.phase == v.phase;
      if o.ok {
        JoinedKept(o.v, script[1..]);
      }
    }
  }

  lemma ThenTold(su: Setup, v: Vars, p: Outgoing, posts: seq<Action>)
    requires Harmless(Send(p))
    requires posts == [] || exists post :: posts == [Tell(post)] && v.joined && !post.Join? && !post.Leave?
    ensures AllowedAll(su, v, [Send(p)] + posts)
  {
    AllowedOne(su, v, Send(p));
    if posts != [] {
      var post :| posts == [Tell(post)] && v.joined && !post.Join? && !post.Leave?;
      AllowedOne(su, Act(v, Send(p)).v, Tell(post));
    }
    AllowedAppend(su, v, [Send(p)], posts);
  }

  lemma FinishLoginAllowed(su: Setup, v: Vars)
    ensures AllowedAll(su, v, FinishLogin(su, v))
  {
    hide Act, Exec;
    var success := [Send(LoginSuccess(v.uuid, v.name))];
    HarmlessAllowed(su, v, success);
    if su.compression >= 0 {
      AllowedOne(su, v, Compress(su.compression));
      HarmlessAllowed(su, Act(v, Compress(su.compression)).v, success);
      AllowedAppend(su, v, [Compress(su.compression)], success);
    } else {
      assert [] + success == success;
    }
  }

  /** The first sends of Play and the reset of the view. */
  lemma EnterStart(su: Setup, v: Vars)
    requires v.phase.Play? && v.loaded == {} && PlaysOf(v.sent) == 0
    ensures var a := [Send(LoginPlay(v.eid)), Send(GameEvent(13)), ResetView];
            && AllowedAll(su, v, a)
            && (Exec(v, a).ok ==> Exec(v, a).v.loaded == {} && Exec(v, a).v.phase.Play?)
  {
    hide PlaysOf;
    var a := [Send(LoginPlay(v.eid)), Send(GameEvent(13)), ResetView];
    assert a[1..] == [Send(GameEvent(13)), ResetView] && a[1..][1..] == [ResetView];
    AllowedOne(su, Act(Act(v, a[0]).v, a[1]).v, ResetView);
    assert AllowedAll(su, Act(v, a[0]).v, a[1..]);
  }

  lemma EnterPlayAllowed(su: Setup, v: Vars)
    requires v.phase.Play? && v.loaded == {} && PlaysOf(v.sent) == 0 && !v.joined
    ensures AllowedAll(su, v, EnterPlay(su, v))
  {
    hide PlaysOf, AllowedAll, Exec, UpdateChunks, Act, Enumerates, Want, Scan, ScanEnds, Elements;
    var a := [Send(LoginPlay(v.eid)), Send(GameEvent(13)), ResetView];
    var b := UpdateChunks(0, 0, [], SCAN_ROUNDS);
    var c := [Stand(SPAWN), Send(SyncPlayerPosition(1, SPAWN))];
    var d := if su.hub then [JoinHub] else [];
    EnterStart(su, v);
    var va := Exec(v, a).v;
    if Exec(v, a).ok {
      NothingUnwanted(Want(0, 0));
      Recentring(su, va, 0, 0, [], SCAN_ROUNDS);
    }
    var vb := Exec(va, b).v;
    HarmlessAllowed(su, vb, c);
    var vc := Exec(vb, c).v;
    NoJoinYet(v, va, vb, a, b, c);
    if su.hub {
      AllowedOne(su, vc, JoinHub);
    } else {
      HarmlessAllowed(su, vc, []);
    }
    AllowedFour(su, v, a, b, c, d);
  }

  lemma NothingUnwanted(want: set<ChunkPos>)
    ensures Enumerates([], {} - want)
  {
  }

  lemma NoJoinYet(v: Vars, va: Vars, vb: Vars, a: seq<Action>, b: seq<Action>, c: seq<Action>)
    requires a == [Send(LoginPlay(v.eid)), Send(GameEvent(13)), ResetView]
    requires b == UpdateChunks(0, 0, [], SCAN_ROUNDS)
    requires c == [Stand(SPAWN), Send(SyncPlayerPosition(1, SPAWN))]
    requires va == Exec(v, a).v && vb == Exec(va, b).v
    ensures Exec(vb, c).v.joined == v.joined && Exec(vb, c).v.phase == v.phase
  {
    hide Exec, Scan;
    JoinedKept(v, a);
    JoinedKept(va, b);
    JoinedKept(vb, c);
  }

  lemma HandleMoveAllowed(su: Setup, v: Vars, order: seq<ChunkPos>, rounds: nat)
    requires v.phase.Play?
    requires var (cx, cz) := (ChunkOf(su, v.pos.x), ChunkOf(su, v.pos.z));
             Crossed(su, v) ==> rounds >= SCAN_ROUNDS && Enumerates(order, v.loaded - Want(cx, cz))
    ensures AllowedAll(su, v, HandleMove(su, v, order, rounds))
  {
    hide UpdateChunks, Enumerates, Want, ChunkOf;
    var (cx, cz) := (ChunkOf(su, v.pos.x), ChunkOf(su, v.pos.z));
    var told := if v.joined && su.hub then [Tell(Move(v.eid, v.pos, v.yaw, v.pitch, v.onGround))] else [];
    var moved := if Crossed(su, v) then UpdateChunks(cx, cz, order, rounds) else [];
    if told != [] {
      AllowedOne(su, v, told[0]);
    }
    if Crossed(su, v) {
      Recentring(su, Exec(v, told).v, cx, cz, order, rounds);
    }
    AllowedAppend(su, v, told, moved);
  }

  lemma PreparedKeeps(su: Setup, v: Vars, p: Inbound, eid: i32)
    requires Inv(su, v) && Registered(v.phase, p)
    ensures Inv(su, Prepared(su, v, p, eid))
    ensures p.AckFinishConfiguration? ==>
              var w := Prepared(su, v, p, eid); w.loaded == {} && PlaysOf(w.sent) == 0 && !w.joined
  {
    hide ColumnsOf, PlaysOf, FramingHolds;
    FramingSame(su, v, Prepared(su, v, p, eid));
  }

  lemma FramingSame(su: Setup, v: Vars, w: Vars)
    ensures FramingHolds(su, v) && w.sent == v.sent && w.threshold == v.threshold ==> FramingHolds(su, w)
  {
    hide Framed, ClientMode;
  }

  lemma ScriptAllowed(su: Setup, w: Vars, p: Inbound, order: seq<ChunkPos>, rounds: nat)
    requires Registered(w.phase, p) || p.AckFinishConfiguration? || p.LoginAcknowledged? || p.Handshake?
    requires |w.hotbar| == HOTBAR_SIZE && w.slot < HOTBAR_SIZE
    requires p.AckFinishConfiguration? ==> w.phase.Play? && w.loaded == {} && PlaysOf(w.sent) == 0 && !w.joined
    requires var (cx, cz) := (ChunkOf(su, w.pos.x), ChunkOf(su, w.pos.z));
             Moves(p) && Crossed(su, w) ==> rounds >= SCAN_ROUNDS && Enumerates(order, w.loaded - Want(cx, cz))
    ensures AllowedAll(su, w, Script(su, w, p, order, rounds))
  {
    hide PlaysOf, Enumerates, Want, ChunkOf, FinishLogin, EnterPlay, HandleMove, AllowedAll, Registries;
    var script := Script(su, w, p, order, rounds);
    if p.LoginStart? {
      FinishLoginAllowed(su, w);
    } else if p.AckFinishConfiguration? {
      EnterPlayAllowed(su, w);
    } else if Moves(p) {
      HandleMoveAllowed(su, w, order, rounds);
    } else if p.PlayerAction? && (p.status == 0 || p.status == 2) {
      ThenTold(su, w, BlockChangedAck(p.sequence), script[1..]);
      assert script == [Send(BlockChangedAck(p.sequence))] + script[1..];
    } else if p.UseItemOn? {
      ThenTold(su, w, BlockChangedAck(p.sequence), PlaceHeld(su, w, p));
    } else if p.ChatMessage? && w.joined && su.hub {
      AllowedOne(su, w, Tell(Chat(w.eid, p.msg)));
    } else {
      QuietHarmless(su, w, p, order, rounds, script);
      HarmlessAllowed(su, w, script);
    }
  }

  lemma QuietHarmless(su: Setup, w: Vars, p: Inbound, order: seq<ChunkPos>, rounds: nat, script: seq<Action>)
    requires !p.LoginStart? && !p.AckFinishConfiguration? && !Moves(p) && !p.UseItemOn?
    requires !(p.PlayerAction? && (p.status == 0 || p.status == 2)) && !(p.ChatMessage? && w.joined && su.hub)
    requires |w.hotbar| == HOTBAR_SIZE && w.slot < HOTBAR_SIZE && script == Script(su, w, p, order, rounds)
    ensures forall a :: a in script ==> Harmless(a)
  {
  }

  // ---- Steps ----

  /** The lifecycle: a phase and those that may follow it. */
  predicate Reaches(a: Phase, b: Phase) {
    || a == b || a.Handshaking?
    || (a.Login? && (b.Configuration? || b.Play?))
    || (a.Configuration? && b.Play?)
  }

  predicate StepsTo(a: Phase, b: Phase) {
    || a == b
    || (a.Handshaking? && (b.Status? || b.Login?))
    || (a.Login? && b.Configuration?)
    || (a.Configuration? && b.Play?)
  }

  /** Whatever one inbound packet does, and wherever its sends fail, the invariant
    * holds after it and the phase advances by at most one step. */
  lemma StepKeeps(su: Setup, v: Vars, t: Turn)
    requires Inv(su, v) && Possible(su, v, t)
    ensures Inv(su, Step(su, v, t).v) && StepsTo(v.phase, Step(su, v, t).v.phase)
  {
    hide Script, AllowedAll, Exec, ChunkOf, Scan, Enumerates, Want, ColumnsOf, PlaysOf, FramingHolds, Present;
    if t.r.Packet? {
      var p := t.r.p;
      var w := Prepared(su, v, p, t.eid);
      PreparedKeeps(su, v, p, t.eid);
      ScriptAllowed(su, w, p, t.order, t.rounds);
      ExecKeeps(su, w, Script(su, w, p, t.order, t.rounds));
    }
  }

  lemma {:induction false} ThresholdKept(v: Vars, script: seq<Action>)
    requires forall a :: a in script ==> !a.Compress?
    ensures Exec(v, script).v.threshold == v.threshold
    decreases script
  {
    if script != [] {
      var o := Act(v, script[0]);
      assert script[0] in script && o.v.threshold == v.threshold;
      if o.ok {
        ThresholdKept(o.v, script[1..]);
      }
    }
  }

  /** The framing changes in Login only. */
  lemma FramingChangesInLogin(su: Setup, v: Vars, t: Turn)
    requires Inv(su, v) && Possible(su, v, t)
    ensures Step(su, v, t).v.threshold != v.threshold ==> v.phase.Login? && t.r.Packet? && t.r.p.LoginStart?
  {
    hide Exec, Script, Inv, ChunkOf, Scan, Enumerates, Want;
    if t.r.Packet? && !t.r.p.LoginStart? {
      var w := Prepared(su, v, t.r.p, t.eid);
      HotbarFits(su, v);
      OnlyLoginCompresses(su, w, t.r.p, t.order, t.rounds);
      ThresholdKept(w, Script(su, w, t.r.p, t.order, t.rounds));
    }
  }

  lemma HotbarFits(su: Setup, v: Vars)
    requires Inv(su, v)
    ensures v.slot < HOTBAR_SIZE == |v.hotbar|
  {
    hide ColumnsOf, PlaysOf, FramingHolds, Present;
  }

  lemma OnlyLoginCompresses(su: Setup, w: Vars, p: Inbound, order: seq<ChunkPos>, rounds: nat)
    requires !p.LoginStart? && w.slot < HOTBAR_SIZE == |w.hotbar|
    ensures forall a :: a in Script(su, w, p, order, rounds) ==> !a.Compress?
  {
    hide ChunkOf, Scan;
  }

  // ---- Placing blocks ----

  /** Towards the lower end of the axis: bottom, north and west. */
  predicate Negative(face: i32) { face == 0 || face == 2 || face == 4 }

  function Opposite(face: i32): i32
    requires 0 <= face < 6
  {
    if Negative(face) then face + 1 else face - 1
  }

  function AlongAxis(p: (i32, i32, i32), axis: nat): i32 {
    if axis == 0 then p.0 else if axis == 1 then p.1 else p.2
  }

  /** The cell a block is placed in is next to the clicked one along the clicked face's axis. */
  lemma PlacedAdjacent(x: i32, y: i32, z: i32, face: i32, axis: nat)
    requires 0 <= face < 6 && axis < 3
    ensures AlongAxis(PlaceAgainst(x, y, z, face), axis)
            == var c := AlongAxis((x, y, z), axis);
               if axis != FaceToAxis(face) then c else if Negative(face) then AsI32(c - 1) else AsI32(c + 1)
  {
    hide AsI32;
  }

  /** Placing back against the opposite face returns to the clicked cell, also
    * across the ends of the 32-bit range. */
  lemma PlacedBack(x: i32, y: i32, z: i32, face: i32)
    requires 0 <= face < 6
    ensures var p := PlaceAgainst(x, y, z, face); PlaceAgainst(p.0, p.1, p.2, Opposite(face)) == (x, y, z)
  {
    hide AsI32;
    WrapBack(x);
    WrapBack(y);
    WrapBack(z);
  }

  /** A clicked position came over the wire packed, so it fits; the cell a block is
    * placed in then fits as well, except beyond one of the six ends of the range. */
  lemma PlacedFitsIff(x: i32, y: i32, z: i32, face: i32)
    requires Codec.PositionFits(x, y, z)
    ensures var p := PlaceAgainst(x, y, z, face);
            Codec.PositionFits(p.0, p.1, p.2)
            <==> !(|| (face == 5 && x == 0x1FF_FFFF) || (face == 4 && x == -0x200_0000)
                   || (face == 3 && z == 0x1FF_FFFF) || (face == 2 && z == -0x200_0000)
                   || (face == 1 && y == 0x7FF) || (face == 0 && y == -0x800))
  {
  }

  lemma WrapBack(c: i32)
    ensures AsI32(AsI32(c - 1) + 1) == c && AsI32(AsI32(c + 1) - 1) == c
  {
  }
}
