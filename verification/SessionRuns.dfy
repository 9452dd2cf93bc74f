/** Whole connections: any sequence of inbound packets, ended by the peer, by an
  * error, or by a send that fails anywhere. */
module SessionRuns {
  import opened Bytes
  import Hub
  import opened Session
  import opened SessionScan
  import opened SessionProofs

  predicate PossibleRun(su: Setup, v: Vars, run: seq<Turn>)
    decreases run
  {
    && v.slot < HOTBAR_SIZE == |v.hotbar|
    && (run == []
        || (&& Possible(su, v, run[0])
            && (Step(su, v, run[0]).next.Reading? ==> PossibleRun(su, Step(su, v, run[0]).v, run[1..]))))
  }

  /** The read loop: until a step returns or is caught in an endless scan, or nothing more arrives. */
  function Serve(su: Setup, v: Vars, run: seq<Turn>): Stepped
    requires PossibleRun(su, v, run)
    decreases run
  {
    if run == [] then Stepped(v, Returning)
    else
      var o := Step(su, v, run[0]);
      if o.next.Reading? then Serve(su, o.v, run[1..]) else o
  }

  /** No step of the run stopped the loop. */
  predicate AllWell(su: Setup, v: Vars, run: seq<Turn>)
    requires PossibleRun(su, v, run)
    decreases run
  {
    run == [] || (Step(su, v, run[0]).next.Reading? && AllWell(su, Step(su, v, run[0]).v, run[1..]))
  }

  /** One more turn at the end of a run that is still going. */
  lemma {:induction false} RunExtended(su: Setup, v: Vars, run: seq<Turn>, t: Turn)
    requires PossibleRun(su, v, run) && AllWell(su, v, run)
    requires var w := Serve(su, v, run).v; Possible(su, w, t) && w.slot < HOTBAR_SIZE == |w.hotbar|
    requires var o := Step(su, Serve(su, v, run).v, t); o.v.slot < HOTBAR_SIZE == |o.v.hotbar|
    ensures PossibleRun(su, v, run + [t])
    ensures var o := Step(su, Serve(su, v, run).v, t);
            && Serve(su, v, run + [t]) == (if o.next.Reading? then Stepped(o.v, Returning) else o)
            && (AllWell(su, v, run + [t]) <==> o.next.Reading?)
    decreases run
  {
    hide Step, Possible;
    if run == [] {
      assert run + [t] == [t] && [t][1..] == [];
      var o := Step(su, v, t);
      assert PossibleRun(su, o.v, []) && Serve(su, o.v, []) == Stepped(o.v, Returning) && AllWell(su, o.v, []);
    } else {
      assert (run + [t])[1..] == run[1..] + [t];
      RunExtended(su, Step(su, v, run[0]).v, run[1..], t);
    }
  }

  /** The deferred hub leave, once the read loop has returned. */
  function Finish(su: Setup, end: Stepped): Vars {
    var v := end.v;
    if !end.next.Scanning? && v.joined && su.hub then v.(posts := v.posts + [Leave(v.eid)]) else v
  }

  lemma StartHolds(su: Setup, room: nat)
    ensures Inv(su, Start(room))
  {
  }

  lemma {:induction false} RunKeeps(su: Setup, v: Vars, run: seq<Turn>)
    requires Inv(su, v) && PossibleRun(su, v, run)
    ensures Inv(su, Serve(su, v, run).v) && Reaches(v.phase, Serve(su, v, run).v.phase)
    decreases run
  {
    hide Inv, Step, Possible;
    if run != [] {
      var o := Step(su, v, run[0]);
      StepKeeps(su, v, run[0]);
      if o.next.Reading? {
        RunKeeps(su, o.v, run[1..]);
      }
    }
  }

  /** One visit to the hub at most: a join first, its leave last, neither in between. */
  predicate OneVisit(posts: seq<Post>) {
    posts == []
    || (&& |posts| >= 2 && posts[0].Join? && posts[|posts| - 1] == Leave(posts[0].eid)
        && forall i :: 0 < i < |posts| - 1 ==> !posts[i].Join? && !posts[i].Leave?)
  }

  /** Over every run, wherever it stops: the client holds exactly the loaded
    * columns, never loaded twice nor unloaded while absent; Play is entered at most
    * once; a finished session left the hub exactly if it joined it; one caught in an
    * endless scan is still in the hub. */
  lemma EveryRun(su: Setup, room: nat, run: seq<Turn>)
    requires PossibleRun(su, Start(room), run)
    ensures var end := Serve(su, Start(room), run);
            && ColumnsOf(end.v.sent) == Columns(end.v.loaded, true)
            && PlaysOf(end.v.sent) <= 1
            && (!end.next.Scanning? ==> OneVisit(Finish(su, end).posts))
            && (end.next.Scanning? ==> Present(Finish(su, end)))
            && (Finish(su, end).posts != [] <==> end.v.joined)
            && Reaches(Handshaking, end.v.phase)
  {
    hide Serve, PossibleRun, ColumnsOf, PlaysOf, FramingHolds;
    StartHolds(su, room);
    RunKeeps(su, Start(room), run);
  }

  /** Every frame of every run is in the mode of a client that switches right after
    * each Set Compression, provided the threshold keeps its sign in 32 bits. */
  lemma EveryFrameFramed(su: Setup, room: nat, run: seq<Turn>)
    requires PossibleRun(su, Start(room), run) && CompressionAgrees(su)
    ensures var end := Serve(su, Start(room), run).v;
            Framed(end.sent) && ClientMode(end.sent) == (end.threshold >= 0)
  {
    hide Serve, PossibleRun, ColumnsOf, PlaysOf, Framed, ClientMode, Present, CompressionAgrees;
    StartHolds(su, room);
    RunKeeps(su, Start(room), run);
  }

  /** A move to a chunk whose scan never ends: however long it is watched, the
    * session never reads on. Its moves are posted and columns sent, it returns only
    * when a send fails, and otherwise it is still scanning. */
  lemma EndlessMove(su: Setup, v: Vars, t: Turn)
    requires Inv(su, v) && Possible(su, v, t) && t.r.Packet? && Moves(t.r.p)
    requires var w := Prepared(su, v, t.r.p, t.eid);
             Crossed(su, w) && !ScanEnds(ChunkOf(su, w.pos.x), ChunkOf(su, w.pos.z))
    ensures var o := Step(su, v, t);
            && o.next == (if Exec(Prepared(su, v, t.r.p, t.eid),
                                  Script(su, Prepared(su, v, t.r.p, t.eid), t.r.p, t.order, t.rounds)).ok
                          then Scanning else Returning)
            && Inv(su, o.v) && v.loaded <= o.v.loaded
  {
    hide Exec, ChunkOf, ScanEnds, Scan, Enumerates, Want, Inv, Script, Prepared;
    StepKeeps(su, v, t);
    var w := Prepared(su, v, t.r.p, t.eid);
    NeverEnds(ChunkOf(su, w.pos.x), ChunkOf(su, w.pos.z), t.rounds);
    PreparedKeeps(su, v, t.r.p, t.eid);
    HotbarFits(su, w);
    MovePrepared(su, v, t.r.p, t.eid);
    EndlessLoads(su, w, t.r.p, t.order, t.rounds);
  }

  lemma MovePrepared(su: Setup, v: Vars, p: Inbound, eid: i32)
    requires Moves(p)
    ensures var w := Prepared(su, v, p, eid); w.loaded == v.loaded && w.phase == v.phase
    ensures Registered(v.phase, p) ==> v.phase.Play?
  {
  }

  /** The script of such a move unloads nothing. */
  lemma EndlessLoads(su: Setup, w: Vars, p: Inbound, order: seq<ChunkPos>, rounds: nat)
    requires Moves(p) && w.phase.Play? && w.slot < |w.hotbar| && rounds >= SCAN_ROUNDS
    requires var (cx, cz) := (ChunkOf(su, w.pos.x), ChunkOf(su, w.pos.z));
             Crossed(su, w) && !ScanEnds(cx, cz) && Enumerates(order, w.loaded - Want(cx, cz))
    ensures w.loaded <= Exec(w, Script(su, w, p, order, rounds)).v.loaded
  {
    hide Exec, ChunkOf, ScanEnds, UpdateChunks, Enumerates, Want, Scan, Act, AllowedAll, Allowed;
    var (cx, cz) := (ChunkOf(su, w.pos.x), ChunkOf(su, w.pos.z));
    var move := Move(w.eid, w.pos, w.yaw, w.pitch, w.onGround);
    var told := if w.joined && su.hub then [Tell(move)] else [];
    AllowedNone(su, w);
    AllowedOne(su, w, Tell(move));
    ToldOnly(w, move);
    Recentring(su, Exec(w, told).v, cx, cz, order, rounds);
    ExecAppend(w, told, UpdateChunks(cx, cz, order, rounds));
  }

  lemma ToldOnly(w: Vars, post: Post)
    ensures Act(w, Tell(post)) == Outcome(w.(posts := w.posts + [post]), true)
  {
  }

  function LoginRun(name: string): seq<Turn> {
    [Turn(Packet(Handshake(2)), 0, [], 0), Turn(Packet(LoginStart(name)), 0, [], 0)]
  }

  /** Otherwise the Login Success after the first Set Compression is already in the wrong mode. */
  lemma DisagreeingThreshold(su: Setup, name: string)
    requires !CompressionAgrees(su)
    ensures PossibleRun(su, Start(2), LoginRun(name)) && !Framed(Serve(su, Start(2), LoginRun(name)).v.sent)
  {
    hide ClientMode;
    var v, run := Start(2), LoginRun(name);
    var v1 := v.(phase := Login);
    var success := LoginSuccess(su.offlineUuid(name), name);
    LoginSteps(su, name, v1);
    var sent := [Frame(SetCompression(AsI32(su.compression)), false), Frame(success, true)];
    assert run[1..][1..] == [] && run[1..][0] == run[1];
    assert PossibleRun(su, v1, run[1..]) && Serve(su, v1, run[1..]).v.sent == sent;
    assert Serve(su, v, run).v.sent == sent;
    assert sent[..1] == [] + [sent[0]];
    OneMore([], sent[0]);
    assert sent[1].compressed != ClientMode(sent[..1]);
  }

  lemma LoginSteps(su: Setup, name: string, v1: Vars)
    requires v1 == Start(2).(phase := Login) && su.compression >= 0
    ensures var run := LoginRun(name);
            && Possible(su, Start(2), run[0]) && Step(su, Start(2), run[0]) == Stepped(v1, Reading)
            && Possible(su, v1, run[1])
            && var o := Step(su, v1, run[1]);
               && o.next.Reading? && |o.v.hotbar| == HOTBAR_SIZE && o.v.slot == 0
               && o.v.sent == [Frame(SetCompression(AsI32(su.compression)), false),
                               Frame(LoginSuccess(su.offlineUuid(name), name), true)]
  {
    var w := Prepared(su, v1, LoginStart(name), 0);
    var a, b := Compress(su.compression), Send(LoginSuccess(w.uuid, name));
    assert FinishLogin(su, w) == [a] + [b];
    ExecAppend(w, [a], [b]);
    AllowedOne(su, w, a);
    AllowedOne(su, Act(w, a).v, b);
  }

  /** So the option is safe exactly when the client reads back its sign. */
  lemma FramedIff(su: Setup)
    ensures CompressionAgrees(su) <==>
            forall room: nat, run :: PossibleRun(su, Start(room), run) ==> Framed(Serve(su, Start(room), run).v.sent)
  {
    hide CompressionAgrees, PossibleRun, Serve, Framed;
    if CompressionAgrees(su) {
      forall room: nat, run | PossibleRun(su, Start(room), run) ensures Framed(Serve(su, Start(room), run).v.sent) {
        EveryFrameFramed(su, room, run);
      }
    } else {
      DisagreeingThreshold(su, "");
    }
  }

  // ---- The size of a view ----

  predicate SideFits(c0: int, n: nat) { MIN_I32 <= c0 && c0 + n <= MAX_I32 + 1 }

  function Line(x: i32, z0: int, m: nat): set<ChunkPos> { set z: i32 | z0 <= z < z0 + m :: (x, z) }

  function Square(x0: int, n: nat, z0: int, m: nat): set<ChunkPos> {
    set x: i32, z: i32 | x0 <= x < x0 + n && z0 <= z < z0 + m :: (x, z)
  }

  lemma {:induction false} LineSize(x: i32, z0: int, m: nat)
    requires SideFits(z0, m)
    ensures |Line(x, z0, m)| == m
  {
    if m == 0 {
      assert Line(x, z0, m) == {};
    } else {
      LineSize(x, z0, m - 1);
      var z: i32 := z0 + m - 1;
      assert Line(x, z0, m) == Line(x, z0, m - 1) + {(x, z)} && (x, z) !in Line(x, z0, m - 1);
    }
  }

  lemma SquareSplit(x0: int, n: nat, z0: int, m: nat, x: i32)
    requires n > 0 && x == x0 + n - 1
    ensures Square(x0, n, z0, m) == Square(x0, n - 1, z0, m) + Line(x, z0, m)
    ensures Square(x0, n - 1, z0, m) !! Line(x, z0, m)
  {
  }

  lemma {:induction false} SquareSize(x0: int, n: nat, z0: int, m: nat)
    requires SideFits(x0, n) && SideFits(z0, m)
    ensures |Square(x0, n, z0, m)| == n * m
    decreases n
  {
    if n == 0 {
      assert Square(x0, n, z0, m) == {};
    } else {
      SquareStep(x0, n, z0, m, (n - 1) * m);
    }
  }

  lemma SquareStep(x0: int, n: nat, z0: int, m: nat, smaller: nat)
    requires n > 0 && smaller == (n - 1) * m && SideFits(x0, n) && SideFits(z0, m)
    ensures |Square(x0, n, z0, m)| == smaller + m
    decreases n, 0
  {
    hide Square, Line;
    SquareSize(x0, n - 1, z0, m);
    SquareSplit(x0, n, z0, m, x0 + n - 1);
    LineSize(x0 + n - 1, z0, m);
  }

  /** A view is the full (2N+1) by (2N+1) square exactly when neither side overflows 32 bits. */
  lemma ViewIsSquareIff(cx: i32, cz: i32)
    ensures var fits := && -0x8000_0000 <= cx - 8 && cx + 8 < 0x8000_0000
                        && -0x8000_0000 <= cz - 8 && cz + 8 < 0x8000_0000;
            && |Want(cx, cz)| == (if fits then 289 else 0)
            && (fits ==> forall c :: c in Want(cx, cz) <==> -8 <= c.0 - cx <= 8 && -8 <= c.1 - cz <= 8)
  {
    if !Fits(cx) || !Fits(cz) {
      assert Want(cx, cz) == {};
    }
    if Fits(cx) && Fits(cz) {
      SquareSize(cx - VIEW_DISTANCE, VIEW_SPAN, cz - VIEW_DISTANCE, VIEW_SPAN);
      assert Want(cx, cz) == Square(cx - VIEW_DISTANCE, VIEW_SPAN, cz - VIEW_DISTANCE, VIEW_SPAN);
    }
  }
}
