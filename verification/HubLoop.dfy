/** The hub's handlers as the source runs them: they update the registry and the
  * players' channels in place, iterating over the registry in any order. Each is
  * proved to perform exactly the event step of the model. */
module HubLoop {
  import opened Bytes
  import opened Chunk
  import opened World
  import opened Hub
  import opened HubViews

  lemma {:induction false} EnqueueLast(o: Outbox, ps: seq<Packet>, p: Packet)
    ensures EnqueueAll(o, ps + [p]) == Enqueue(EnqueueAll(o, ps), p)
    decreases ps
  {
    hide Enqueue;
    if ps == [] {
      assert ps + [p] == [p] && [p][1..] == [];
      assert EnqueueAll(Enqueue(o, p), []) == Enqueue(o, p);
    } else {
      EnqueueLast(Enqueue(o, ps[0]), ps[1..], p);
      assert (ps + [p])[1..] == ps[1..] + [p];
    }
  }

  /** Two broadcasts in a row reach each client as one. */
  lemma BroadcastTwice(players: Players, except: Option<EntityId>, a: Packet, b: Packet)
    ensures Broadcast(Broadcast(players, except, [a]), except, [b]) == Broadcast(players, except, [a, b])
  {
    hide EnqueueAll, Enqueue;
    forall e | e in players
      ensures EnqueueAll(players[e].out, [a, b]) == EnqueueAll(EnqueueAll(players[e].out, [a]), [b])
    {
      EnqueueTwo(players[e].out, a, b);
    }
  }

  lemma EnqueueTwo(o: Outbox, a: Packet, b: Packet)
    ensures EnqueueAll(o, [a, b]) == EnqueueAll(EnqueueAll(o, [a]), [b])
  {
    hide Enqueue;
    EnqueueLast(o, [a], b);
    EnqueueLast(EnqueueAll(o, [a]), [], b);
    assert [a] + [b] == [a, b] && [] + [b] == [b];
  }

  class PresenceHub {
    var players: Players
    const world: BlockWorld?

    ghost predicate Valid()
      reads this, world
    {
      Keyed(players) && (world != null ==> world.Valid())
    }

    ghost function Now(): State
      reads this, world
    {
      State(players, if world == null then None else Some(world.overrides))
    }

    constructor (world: BlockWorld?)
      requires world != null ==> world.Valid()
      ensures Valid() && this.world == world
      ensures Now() == Start(if world == null then None else Some(world.overrides))
    {
      hide PayloadBytes;
      this.world, players := world, map[];
    }

    /** Enqueues `ps` on every player's channel but one. */
    method Tell(except: Option<EntityId>, ps: seq<Packet>)
      requires Keyed(players)
      modifies this`players
      ensures players == Broadcast(old(players), except, ps) && Keyed(players)
    {
      hide EnqueueAll, Enqueue;
      ghost var before, after := players, Broadcast(players, except, ps);
      var todo := players.Keys;
      while todo != {}
        invariant todo <= players.Keys == before.Keys
        invariant forall e :: e in players ==> players[e] == if e in todo then before[e] else after[e]
      {
        var e :| e in todo;
        var other := players[e];
        if except != Some(other.eid) {
          var out := EnqueueEach(other.out, ps);
          players := players[e := other.(out := out)];
        }
        todo := todo - {e};
      }
      assert players == after;
    }

    method EnqueueEach(o: Outbox, ps: seq<Packet>) returns (out: Outbox)
      ensures out == EnqueueAll(o, ps)
    {
      hide Enqueue;
      out := o;
      for k := 0 to |ps|
        invariant out == EnqueueAll(o, ps[..k])
      {
        EnqueueLast(o, ps[..k], ps[k]);
        assert ps[..k + 1] == ps[..k] + [ps[k]];
        out := Enqueue(out, ps[k]);
      }
      assert ps[..|ps|] == ps;
    }

    method OnJoin(r: JoinRequest) returns (ghost infoOrder: seq<EntityId>, ghost spawnOrder: seq<EntityId>)
      requires Valid() && r.eid !in players
      modifies this`players
      ensures Valid() && VisitsAll(infoOrder, old(players)) && VisitsAll(spawnOrder, old(players))
      ensures players == AfterJoin(old(players), Join(r, infoOrder, spawnOrder))
    {
      hide PayloadBytes, EnqueueAll, Enqueue, VisitsAll, Broadcast, Welcome, PlayerOf;
      var p := PlayerOf(r);
      Named(r);
      var welcome;
      welcome, infoOrder, spawnOrder := Greeting(p);
      var out := EnqueueEach(p.out, welcome);
      Tell(None, [PlayerInfoUpdate([EntryOf(p)]), Spawn(p)]);
      players := players[p.eid := p.(out := out)];
    }

    lemma Named(r: JoinRequest)
      ensures PlayerOf(r).eid == r.eid
    {
    }

    /** All profiles, the newcomer's last, then everyone's entity. */
    method Greeting(p: Player)
      returns (ps: seq<Packet>, ghost infoOrder: seq<EntityId>, ghost spawnOrder: seq<EntityId>)
      ensures VisitsAll(infoOrder, players) && VisitsAll(spawnOrder, players)
      ensures ps == Welcome(players, p, infoOrder, spawnOrder)
    {
      var infos, spawns;
      infos, infoOrder := CollectInfos();
      spawns, spawnOrder := CollectSpawns();
      ps := [PlayerInfoUpdate(infos + [EntryOf(p)])] + spawns;
    }

    /** A list entry for everyone online, in iteration order. */
    method CollectInfos() returns (infos: seq<InfoEntry>, ghost order: seq<EntityId>)
      ensures VisitsAll(order, players) && infos == Entries(players, order)
    {
      infos, order := [], [];
      var todo := players.Keys;
      while todo != {}
        invariant Visited(order, todo) && infos == Entries(players, order)
      {
        var e :| e in todo;
        infos, order, todo := infos + [EntryOf(players[e])], order + [e], todo - {e};
      }
    }

    /** A spawn packet for everyone online, in iteration order. */
    method CollectSpawns() returns (spawns: seq<Packet>, ghost order: seq<EntityId>)
      ensures VisitsAll(order, players) && spawns == Spawns(players, order)
    {
      spawns, order := [], [];
      var todo := players.Keys;
      while todo != {}
        invariant Visited(order, todo) && spawns == Spawns(players, order)
      {
        var e :| e in todo;
        spawns, order, todo := spawns + [Spawn(players[e])], order + [e], todo - {e};
      }
    }

    ghost predicate Visited(order: seq<EntityId>, todo: set<EntityId>)
      reads this
    {
      && (forall i, j :: 0 <= i < j < |order| ==> order[i] != order[j])
      && (forall i :: 0 <= i < |order| ==> order[i] in players && order[i] !in todo)
      && (forall e :: e in players ==> e in order || e in todo)
      && todo <= players.Keys
    }

    method OnLeave(eid: EntityId)
      requires Valid()
      modifies this`players
      ensures Valid() && players == AfterLeave(old(players), eid)
    {
      hide PayloadBytes, EnqueueAll, Broadcast;
      if eid !in players {
        return;
      }
      var p := players[eid];
      players := players - {eid};
      Tell(None, [RemoveEntities([eid]), PlayerInfoRemove([p.uuid])]);
    }

    method OnMove(m: MoveRequest)
      requires Valid()
      modifies this`players
      ensures Valid() && players == AfterMove(old(players), m)
    {
      hide PayloadBytes, EnqueueAll, Broadcast, DegToAngle, Scaled, Advanced, Trunc;
      if m.eid !in players {
        return;
      }
      var p := players[m.eid];
      ghost var p0, players0 := p, players;
      var dx, dy, dz := Scaled(m.pos.x, p.pos.x), Scaled(m.pos.y, p.pos.y), Scaled(m.pos.z, p.pos.z);
      var posMoved := dx != 0.0 || dy != 0.0 || dz != 0.0;
      var yaw, pitch := DegToAngle(m.yaw), DegToAngle(m.pitch);
      var rotated := yaw != p.yaw || pitch != p.pitch;
      if !posMoved && !rotated {
        Unmoved(players, p, m);
        return;
      }
      if posMoved && !(Reachable(dx) && Reachable(dy) && Reachable(dz)) {
        p := p.(pos := m.pos, yaw := yaw, pitch := pitch);
        players := players[m.eid := p];
        BroadcastTwice(players, Some(p.eid), RemoveEntities([p.eid]), Spawn(p));
        Tell(Some(p.eid), [RemoveEntities([p.eid])]);
        Tell(Some(p.eid), [Spawn(p)]);
        return;
      }
      var d := Delta(StepOf(dx), StepOf(dy), StepOf(dz));
      var body :=
        if posMoved && rotated then MoveEntityPosRot(p.eid, d, yaw, pitch, m.onGround)
        else if posMoved then MoveEntityPos(p.eid, d, m.onGround)
        else MoveEntityRot(p.eid, yaw, pitch, m.onGround);
      p := p.(pos := Advanced(p.pos, d), yaw := yaw, pitch := pitch);
      players := players[m.eid := p];
      BroadcastTwice(players, Some(p.eid), body, RotateHead(p.eid, yaw));
      Tell(Some(p.eid), [body]);
      if rotated {
        Tell(Some(p.eid), [RotateHead(p.eid, yaw)]);
      }
    }

    lemma Unmoved(players: Players, p: Player, m: MoveRequest)
      requires m.eid in players && players[m.eid] == p && Classify(p, m).Ignored?
      ensures AfterMove(players, m) == players
    {
      hide DegToAngle, Scaled;
      var b := Broadcast(players[m.eid := p], Some(p.eid), []);
      assert b == players;
    }

    method OnChat(sender: EntityId, msg: string)
      requires Valid()
      modifies this`players
      ensures Valid() && players == AfterChat(old(players), sender, msg)
    {
      hide PayloadBytes, EnqueueAll, Broadcast;
      if sender in players {
        Tell(None, [SystemChat("<" + players[sender].profile.name + "> " + msg)]);
      }
    }

    method OnSetBlock(c: Change)
      requires Valid()
      modifies this`players, world
      ensures Valid() && Now() == AfterSetBlock(old(Now()), c)
    {
      hide PayloadBytes, EnqueueAll, Broadcast, Updated;
      if world == null {
        return;
      }
      var ok := world.SetBlock(c.x, c.y, c.z, c.state);
      if !ok {
        Ineffective(old(world.overrides), c);
        return;
      }
      Tell(None, [UpdatePacket(c)]);
    }

    lemma Ineffective(store: Store, c: Change)
      requires !Buildable(c.y)
      ensures Updated(store, c) == store
    {
    }

    /** A session's writer takes `n` waiting packets off its channel. */
    method Drain(client: EntityId, n: nat)
      requires Valid()
      modifies this`players
      ensures Valid() && players == AfterDrain(old(players), client, n)
    {
      hide PayloadBytes;
      if client in players && n <= players[client].out.pending {
        var p := players[client];
        players := players[client := p.(out := p.out.(pending := p.out.pending - n))];
      }
    }

    /** One event of the `select`; `did` is the event with the iteration orders taken. */
    method Handles(ev: Event) returns (ghost did: Event)
      requires Valid() && (ev.Join? ==> ev.r.eid !in players)
      modifies this`players, world
      ensures Valid() && SameRequest(ev, did)
      ensures Possible(old(Now()), did) && Now() == Apply(old(Now()), did)
    {
      hide PayloadBytes, VisitsAll, AfterJoin, AfterLeave, AfterMove, AfterChat, AfterSetBlock, AfterDrain;
      did := ev;
      match ev {
        case Join(r, _, _) =>
          ghost var infoOrder, spawnOrder := OnJoin(r);
          did := Join(r, infoOrder, spawnOrder);
        case Leave(eid) => OnLeave(eid);
        case Move(m) => OnMove(m);
        case Chat(sender, msg) => OnChat(sender, msg);
        case SetBlock(c) => OnSetBlock(c);
        case Drained(client, n) => Drain(client, n);
      }
    }

    /** The hub's loop over the events it receives. No two joins carry the same entity id. */
    method Serves(events: seq<Event>) returns (ghost run: seq<Event>)
      requires Valid() && FreshIds(players.Keys, events)
      modifies this`players, world
      ensures Valid() && |run| == |events| && forall i :: 0 <= i < |run| ==> SameRequest(events[i], run[i])
      ensures PossibleRun(old(Now()), run) && Now() == RunFrom(old(Now()), run)
    {
      hide PayloadBytes, Apply, Possible, PossibleRun, RunFrom, FreshIds;
      ghost var s := Now();
      run := [];
      NoEvents(s);
      assert events[0..] == events;
      for i := 0 to |events|
        invariant Valid() && |run| == i && FreshIds(players.Keys, events[i..])
        invariant forall k :: 0 <= k < i ==> SameRequest(events[k], run[k])
        invariant PossibleRun(s, run) && Now() == RunFrom(s, run)
      {
        assert events[i..][0] == events[i] && events[i..][1..] == events[i + 1..];
        FreshNext(players.Keys, events[i..]);
        ghost var before := Now();
        ghost var did := Handles(events[i]);
        KeysAfter(before, did);
        FreshStill(before.players.Keys, events[i..], players.Keys);
        RunExtended(s, run, did);
        run := run + [did];
      }
    }
  }

  /** The same event up to the iteration orders. */
  predicate SameRequest(a: Event, b: Event) {
    a == b || (a.Join? && b.Join? && a.r == b.r)
  }

  /** Entity ids are handed out once: no join under an id that is or will be in use. */
  predicate FreshIds(used: set<EntityId>, events: seq<Event>)
    decreases events
  {
    events == []
    || (if events[0].Join? then events[0].r.eid !in used && FreshIds(used + {events[0].r.eid}, events[1..])
        else FreshIds(used, events[1..]))
  }

  lemma FreshNext(used: set<EntityId>, events: seq<Event>)
    requires events != [] && FreshIds(used, events)
    ensures events[0].Join? ==> events[0].r.eid !in used
  {
  }

  lemma {:induction false} FewerUsed(used: set<EntityId>, fewer: set<EntityId>, events: seq<Event>)
    requires FreshIds(used, events) && fewer <= used
    ensures FreshIds(fewer, events)
    decreases events
  {
    if events != [] {
      if events[0].Join? {
        FewerUsed(used + {events[0].r.eid}, fewer + {events[0].r.eid}, events[1..]);
      } else {
        FewerUsed(used, fewer, events[1..]);
      }
    }
  }

  lemma FreshStill(used: set<EntityId>, events: seq<Event>, after: set<EntityId>)
    requires events != [] && FreshIds(used, events)
    requires after <= used + if events[0].Join? then {events[0].r.eid} else {}
    ensures FreshIds(after, events[1..])
  {
    FewerUsed(used + if events[0].Join? then {events[0].r.eid} else {}, after, events[1..]);
  }

  lemma KeysAfter(s: State, ev: Event)
    requires Possible(s, ev)
    ensures Apply(s, ev).players.Keys <= s.players.Keys + if ev.Join? then {ev.r.eid} else {}
  {
    hide Apply, VisitsAll;
    RosterAfter(s, ev);
    PeopleStay(s, ev, Apply(s, ev).players);
  }

  lemma NoEvents(s: State)
    ensures PossibleRun(s, []) && RunFrom(s, []) == s
  {
  }

  lemma {:induction false} RunExtended(s: State, run: seq<Event>, ev: Event)
    requires PossibleRun(s, run) && Possible(RunFrom(s, run), ev)
    ensures PossibleRun(s, run + [ev]) && RunFrom(s, run + [ev]) == Apply(RunFrom(s, run), ev)
    decreases run
  {
    hide Apply, Possible;
    if run == [] {
      assert run + [ev] == [ev] && [ev][1..] == [];
      NoEvents(Apply(s, ev));
    } else {
      assert (run + [ev])[1..] == run[1..] + [ev];
      RunExtended(Apply(s, run[0]), run[1..], ev);
    }
  }
}
