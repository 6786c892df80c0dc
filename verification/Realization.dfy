// Event loops can do whatever the mesh-wide model can: a run in which no device hears itself is a run
// of runtimes that reconnect and identify each other.
module Realization {
  import opened Wrappers
  import opened JsonTrees
  import opened Clocks
  import opened Contexts
  import opened Streams
  import opened Runtimes
  import opened RuntimeRuns
  import opened Replication
  import opened Convergence
  import opened Fleets
  import Contention

  // A packet of one runtime with a whole context for another.
  ghost predicate Addressed(f: Fleet, d: string, c: Context) {
    exists from :: from in f && Packet(d, SyncContext(c)) in f[from].outbox
  }

  // The runtimes hold the contexts of the nodes, and whatever is in flight was sent to every other
  // device than its own.
  ghost predicate Carries(f: Fleet, s: System) {
    && s.nodes.Keys == f.Keys
    && (forall d :: d in f ==> s.nodes[d].context == f[d].context)
    && (forall v, d :: v in s.inFlight && d in f && d != v.context.deviceId ==> Addressed(f, d, v.context))
  }

  // Nothing that was sent is forgotten, and no context changes.
  ghost predicate OnlySends(f: Fleet, g: Fleet) {
    && f.Keys == g.Keys
    && (forall d :: d in f ==> f[d].context == g[d].context)
    && (forall d, p :: d in f && p in f[d].outbox ==> p in g[d].outbox)
  }

  // Turns of the network: losing the last connection to a peer, making the first, identifying it, and
  // receiving its context.
  predicate Reconnects(turns: seq<FleetTurn>) {
    forall t | t in turns ::
      || (t.turn.DisconnectTurn? && t.turn.remaining == 0)
      || (t.turn.ConnectTurn? && t.turn.established == 1)
      || t.turn.IdentifyTurn?
      || (t.turn.MessageTurn? && t.turn.message.SyncContext?)
  }

  lemma {:induction false} FleetConcat(f: Fleet, first: seq<FleetTurn>, second: seq<FleetTurn>)
    ensures FleetRun(f, first + second) == FleetRun(FleetRun(f, first), second)
    decreases |first|
  {
    if first == [] {
      assert first + second == second;
    } else {
      assert (first + second)[1..] == first[1..] + second;
      FleetConcat(Turned(f, first[0]), first[1..], second);
    }
  }

  lemma OneTurn(f: Fleet, t: FleetTurn)
    ensures FleetRun(f, [t]) == Turned(f, t)
  {
    assert [t][1..] == [];
  }

  // ----- Sending to everybody

  lemma {:induction false} Ordered(s: set<nat>) returns (ids: seq<nat>)
    ensures Enumerates(ids, s)
    decreases s
  {
    ids := [];
    if s != {} {
      var id :| id in s;
      var rest := Ordered(s - {id});
      ids := [id] + rest;
    }
  }

  lemma {:induction false} LoseIfKnown(f: Fleet, d: string, peer: string) returns (turns: seq<FleetTurn>)
    requires d in f
    ensures Reconnects(turns)
    ensures var g := FleetRun(f, turns);
      OnlySends(f, g) && peer !in g[d].synced
  {
    turns := [];
    if peer in f[d].peers || peer in f[d].synced {
      var order := Ordered(StreamsOf(f[d].table, peer));
      var lost := FleetTurn(d, DisconnectTurn(peer, 0, order));
      turns := [lost];
      OneTurn(f, lost);
    }
  }

  lemma {:induction false} Connect(f: Fleet, d: string, peer: string) returns (turns: seq<FleetTurn>)
    requires d in f
    ensures Reconnects(turns)
    ensures var g := FleetRun(f, turns);
      OnlySends(f, g) && g[d].synced == f[d].synced
  {
    var turn := FleetTurn(d, ConnectTurn(peer, "", 1));
    turns := [turn];
    OneTurn(f, turn);
  }

  lemma {:induction false} Identify(f: Fleet, d: string, peer: string) returns (turns: seq<FleetTurn>)
    requires d in f && peer !in f[d].synced
    ensures Reconnects(turns)
    ensures var g := FleetRun(f, turns);
      OnlySends(f, g) && Packet(peer, SyncContext(f[d].context)) in g[d].outbox
  {
    var turn := FleetTurn(d, IdentifyTurn(peer, true));
    turns := [turn];
    OneTurn(f, turn);
    var s := f[d];
    var t := AfterIdentify(s, peer, true);
    assert t.outbox == s.outbox + [Packet(peer, SyncContext(s.context))];
    assert t.outbox[|s.outbox|] == Packet(peer, SyncContext(s.context));
  }

  // A connection that there was is lost; the next one is made, and the peer is identified.
  lemma {:induction false} Tell(f: Fleet, d: string, peer: string) returns (turns: seq<FleetTurn>)
    requires d in f
    ensures Reconnects(turns)
    ensures var g := FleetRun(f, turns);
      OnlySends(f, g) && Packet(peer, SyncContext(f[d].context)) in g[d].outbox
  {
    var lose := LoseIfKnown(f, d, peer);
    var g := FleetRun(f, lose);
    var connect := Connect(g, d, peer);
    var h := FleetRun(g, connect);
    var identify := Identify(h, d, peer);
    turns := lose + (connect + identify);
    FleetConcat(f, lose, connect + identify);
    FleetConcat(g, connect, identify);
  }

  lemma {:induction false} Broadcast(f: Fleet, d: string, peers: set<string>) returns (turns: seq<FleetTurn>)
    requires d in f
    ensures Reconnects(turns)
    ensures var g := FleetRun(f, turns);
      OnlySends(f, g) && forall p :: p in peers ==> Packet(p, SyncContext(f[d].context)) in g[d].outbox
    decreases peers
  {
    turns := [];
    if peers != {} {
      var p :| p in peers;
      var head := Tell(f, d, p);
      var tail := Broadcast(FleetRun(f, head), d, peers - {p});
      turns := head + tail;
      FleetConcat(f, head, tail);
    }
  }

  // ----- Step by step

  lemma {:induction false} SendsStillCarry(f: Fleet, g: Fleet, s: System)
    requires Carries(f, s) && OnlySends(f, g)
    ensures Carries(g, s)
  {
    forall v, d | v in s.inFlight && d in f && d != v.context.deviceId ensures Addressed(g, d, v.context) {
      assert Addressed(f, d, v.context);
    }
  }

  lemma {:induction false} SendIsTaken(s: System, f: Fleet, d: string) returns (turns: seq<FleetTurn>)
    requires Carries(f, s) && d in f && f[d].context.deviceId == d
    ensures Carries(FleetRun(f, turns), Executed(s, Step.Send(d))) && Reconnects(turns)
  {
    turns := Broadcast(f, d, f.Keys - {d});
    var t, g := Executed(s, Step.Send(d)), FleetRun(f, turns);
    SendsStillCarry(f, g, s);
    forall v, e | v in t.inFlight && e in g && e != v.context.deviceId ensures Addressed(g, e, v.context) {
      if v !in s.inFlight {
        assert Packet(e, SyncContext(f[d].context)) in g[d].outbox;
      }
    }
  }

  lemma {:induction false} DeliveryIsTaken(s: System, f: Fleet, d: string, m: Version) returns (turns: seq<FleetTurn>)
    requires Carries(f, s) && d in f && m in s.inFlight && m.context.deviceId != d
    ensures Carries(FleetRun(f, turns), Executed(s, Deliver(d, m))) && Reconnects(turns)
  {
    assert Addressed(f, d, m.context);
    var from :| from in f && Packet(d, SyncContext(m.context)) in f[from].outbox;
    turns := [FleetTurn(d, MessageTurn(from, SyncContext(m.context)))];
    HearsContext(f, d, from, m.context);
    var g, t := FleetRun(f, turns), Executed(s, Deliver(d, m));
    assert t.nodes == s.nodes[d := Received(s.nodes[d], m)];
    forall e | e in f ensures t.nodes[e].context == g[e].context && g[e].outbox == f[e].outbox {
      assert e == d || g[e] == f[e];
    }
    OutboxesStay(f, g, t, s);
  }

  lemma {:induction false} HearsContext(f: Fleet, d: string, from: string, c: Context)
    requires d in f && from in f && Packet(d, SyncContext(c)) in f[from].outbox
    ensures var g := FleetRun(f, [FleetTurn(d, MessageTurn(from, SyncContext(c)))]);
      && g.Keys == f.Keys
      && g[d].context == Merged(f[d].context, c)
      && (forall e :: e in f && e != d ==> g[e] == f[e])
      && g[d].outbox == f[d].outbox
  {
    OneTurn(f, FleetTurn(d, MessageTurn(from, SyncContext(c))));
  }

  lemma {:induction false} ChangeIsTaken(s: System, f: Fleet, step: Step) returns (turn: FleetTurn)
    requires Carries(f, s) && step.device in f && (step.Update? || step.Replace?)
    ensures Carries(FleetRun(f, [turn]), Executed(s, step))
    ensures turn.turn.ContextTurn?
    ensures step.Update? ==> turn.turn.command == UpdateSelfContext(step.patch)
  {
    var command := if step.Update? then UpdateSelfContext(step.patch) else ReplaceSelfContext(step.data);
    turn := FleetTurn(step.device, ContextTurn(command, step.now, InsufficientPeers));
    OneTurn(f, turn);
    OutboxesStay(f, Turned(f, turn), Executed(s, step), s);
  }

  lemma {:induction false} OutboxesStay(f: Fleet, g: Fleet, t: System, s: System)
    requires Carries(f, s) && f.Keys == g.Keys == t.nodes.Keys && t.inFlight == s.inFlight
    requires forall d :: d in f ==> t.nodes[d].context == g[d].context && g[d].outbox == f[d].outbox
    ensures Carries(g, t)
  {
    forall v, d | v in t.inFlight && d in g && d != v.context.deviceId ensures Addressed(g, d, v.context) {
      assert Addressed(f, d, v.context);
    }
  }

  lemma {:induction false} StepIsTaken(s: System, f: Fleet, step: Step) returns (turns: seq<FleetTurn>)
    requires Carries(f, s) && Named(s)
    requires step.Deliver? ==> step.message.context.deviceId != step.device
    ensures Carries(FleetRun(f, turns), Executed(s, step))
    ensures step.Send? || step.Deliver? ==> Reconnects(turns)
    ensures forall schema :: OnlyPatches([step], schema) ==> OnlyPatchTurns(turns, schema)
  {
    turns := [];
    if step.device in f {
      match step
      case Update(_, _, _) =>
        var turn := ChangeIsTaken(s, f, step);
        turns := [turn];
        forall schema | OnlyPatches([step], schema) ensures OnlyPatchTurns(turns, schema) {
          assert step in [step];
        }
      case Replace(_, _, _) =>
        var turn := ChangeIsTaken(s, f, step);
        turns := [turn];
        assert step in [step];
      case Send(d) => turns := SendIsTaken(s, f, d);
      case Deliver(d, m) =>
        if m in s.inFlight {
          turns := DeliveryIsTaken(s, f, d, m);
        }
    }
  }

  // Every run of the mesh in which no device hears itself is a run of event loops that hold the same
  // contexts; what the mesh merely sends and delivers takes no more than reconnecting.
  lemma {:induction false} MeshRunIsTaken(s: System, f: Fleet, steps: seq<Step>) returns (turns: seq<FleetTurn>)
    requires Carries(f, s) && Consistent(s) && Echoless(steps)
    ensures Carries(FleetRun(f, turns), Run(s, steps))
    ensures Quiet(steps) ==> Reconnects(turns)
    ensures forall schema :: OnlyPatches(steps, schema) ==> OnlyPatchTurns(turns, schema)
    decreases |steps|
  {
    turns := [];
    if steps != [] {
      var step, rest := steps[0], steps[1..];
      assert step in steps && forall later :: later in rest ==> later in steps;
      assert forall d :: d in s.nodes ==> OwnsItsCounter(s, d);
      var head := StepIsTaken(s, f, step);
      StepConsistent(s, step);
      var tail := MeshRunIsTaken(Executed(s, step), FleetRun(f, head), rest);
      turns := head + tail;
      FleetConcat(f, head, tail);
      forall schema | OnlyPatches(steps, schema) ensures OnlyPatchTurns(turns, schema) {
        assert OnlyPatches([step], schema) && OnlyPatches(rest, schema);
      }
    }
  }

  // ----- Any runtimes can come to know everything

  // After any run, without any further change, reconnecting and the whole contexts sent on that occasion
  // can bring all runtimes to equal clocks that count every command.
  lemma {:induction false} EveryFleetCanComplete(devices: map<string, nat>, turns: seq<FleetTurn>)
    returns (more: seq<FleetTurn>)
    ensures Reconnects(more)
    ensures var f := FleetRun(Booted(devices), turns + more);
      && f.Keys == devices.Keys
      && (forall i, d :: i in f && d in devices ==> Get(f[i].context.clock, d) == ContextTurns(turns, d))
      && forall i, j :: i in f && j in f ==> Compare(f[i].context.clock, f[j].context.clock) == Some(Equal)
  {
    var s := MirrorOf(devices, turns);
    var f := FleetRun(Booted(devices), turns);
    more := CompletingTurns(s, f);
    FleetConcat(Booted(devices), turns, more);
  }

  // A state of the mesh that the fleet has reached.
  lemma {:induction false} MirrorOf(devices: map<string, nat>, turns: seq<FleetTurn>) returns (s: System)
    ensures Mirrors(s, FleetRun(Booted(devices), turns)) && Consistent(s) && s.nodes.Keys == devices.Keys
    ensures forall e :: 0 <= e < |s.log| ==> s.log[e].device in s.nodes
    ensures forall d :: d in devices ==> Count(s.log, d) == ContextTurns(turns, d)
  {
    var steps := FleetIsMesh(devices, turns);
    s := Run(Start(devices), steps);
    StartConsistent(devices);
    RunConsistent(Start(devices), steps);
    RunKeepsDevices(Start(devices), steps);
    RunLogsKnownDevices(Start(devices), steps);
    forall d | d in devices ensures Count(s.log, d) == ContextTurns(turns, d) {
      RunCounts(Start(devices), steps, d);
    }
  }

  // Nothing that is in flight is needed.
  lemma {:induction false} CompletingTurns(s: System, f: Fleet) returns (more: seq<FleetTurn>)
    requires Mirrors(s, f) && Consistent(s) && forall e :: 0 <= e < |s.log| ==> s.log[e].device in s.nodes
    ensures Reconnects(more)
    ensures var g := FleetRun(f, more);
      && g.Keys == f.Keys
      && (forall i, d :: i in g ==> Get(g[i].context.clock, d) == Count(s.log, d))
      && forall i, j :: i in g && j in g ==> Compare(g[i].context.clock, g[j].context.clock) == Some(Equal)
  {
    var quiet := s.(inFlight := {});
    StillConsistent(s, quiet);
    var completing := CompletingSteps(quiet);
    more := MeshRunIsTaken(quiet, f, completing);
    QuietKeepsLog(quiet, completing);
    RunConsistent(quiet, completing);
    CompleteCounts(Run(quiet, completing));
  }

  lemma {:induction false} StillConsistent(s: System, t: System)
    requires Consistent(s) && t == s.(inFlight := {})
    ensures Consistent(t)
  {
    assert forall v :: Present(t, v) ==> Present(s, v);
    assert forall d :: d in s.nodes ==> OwnsItsCounter(s, d);
  }

  lemma SameCountsEqual(c: Clock, d: Clock, log: seq<Command>)
    requires forall actor :: Get(c, actor) == Count(log, actor) && Get(d, actor) == Count(log, actor)
    ensures Compare(c, d) == Some(Equal)
  {
  }

  lemma {:induction false} CompleteCounts(t: System)
    requires Consistent(t) && Complete(t)
    ensures forall i, d :: i in t.nodes ==> Get(t.nodes[i].context.clock, d) == Count(t.log, d)
    ensures forall i, j :: i in t.nodes && j in t.nodes ==>
              Compare(t.nodes[i].context.clock, t.nodes[j].context.clock) == Some(Equal)
  {
    forall i, d | i in t.nodes ensures Get(t.nodes[i].context.clock, d) == Count(t.log, d) {
      assert Present(t, t.nodes[i]);
      CompleteHistoryCounts(t.nodes[i], t.log, d);
    }
    forall i, j | i in t.nodes && j in t.nodes
      ensures Compare(t.nodes[i].context.clock, t.nodes[j].context.clock) == Some(Equal)
    {
      SameCountsEqual(t.nodes[i].context.clock, t.nodes[j].context.clock, t.log);
    }
  }

  // ----- When runtimes agree

  // Whatever runtimes do within the schema, they hold and send equal trees at equal clocks.
  ghost predicate RuntimesAgree(schema: Schema) {
    forall devices, turns, b, c :: OnlyPatchTurns(turns, schema) && BothKnown(devices, turns, b, c) ==>
      (Compare(b.clock, c.clock) == Some(Equal) ==> b.data == c.data)
  }

  ghost predicate BothKnown(devices: map<string, nat>, turns: seq<FleetTurn>, b: Context, c: Context) {
    Known(FleetRun(Booted(devices), turns), b) && Known(FleetRun(Booted(devices), turns), c)
  }

  lemma {:induction false} RuntimesAgreeIff(schema: Schema)
    requires Conforms(SKELETON, schema, [])
    ensures RuntimesAgree(schema) <==> forall p :: !Contended(schema, p)
  {
    if forall p :: !Contended(schema, p) {
      forall devices, turns, b, c | OnlyPatchTurns(turns, schema) && BothKnown(devices, turns, b, c)
        ensures Compare(b.clock, c.clock) == Some(Equal) ==> b.data == c.data
      {
        if Compare(b.clock, c.clock) == Some(Equal) {
          RuntimesAgreeAtEqualClocks(devices, turns, schema, b, c);
        }
      }
    }
    if p :| Contended(schema, p) {
      var devices, turns, i, j := ContendedFleet(schema, p);
      var f := FleetRun(Booted(devices), turns);
      assert BothKnown(devices, turns, f[i].context, f[j].context);
    }
  }

  lemma {:induction false} ContendedFleet(schema: Schema, p: Path)
    returns (devices: map<string, nat>, turns: seq<FleetTurn>, i: string, j: string)
    requires Conforms(SKELETON, schema, []) && Contended(schema, p)
    ensures OnlyPatchTurns(turns, schema)
    ensures var f := FleetRun(Booted(devices), turns);
      && i in f && j in f && f[i].context.data != f[j].context.data
      && Compare(f[i].context.clock, f[j].context.clock) == Some(Equal)
  {
    var before, exchange;
    devices, before, exchange := Contention.ContendedRun(schema, p);
    var steps := before + exchange;
    var s := Run(Start(devices), steps);
    i, j :| i in s.nodes && j in s.nodes && s.nodes[i].context.data != s.nodes[j].context.data;
    RunKeepsDevices(Start(devices), steps);
    EventualConsistency(devices, before, exchange, schema, i, j);
    assert OnlyPatches(steps, schema);
    StartConsistent(devices);
    turns := MeshRunIsTaken(Start(devices), Booted(devices), steps);
  }
}
