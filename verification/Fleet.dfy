// Any number of runtimes together, and their place in the mesh-wide model: what is proved of all runs
// of the mesh holds of all runs of event loops.
module Fleets {
  import opened Wrappers
  import opened Clocks
  import opened Contexts
  import opened Streams
  import opened Runtimes
  import opened RuntimeRuns
  import opened Replication
  import Convergence

  type Fleet = map<string, State>

  datatype FleetTurn = FleetTurn(device: string, turn: Turn)

  function Booted(devices: map<string, nat>): Fleet {
    map d | d in devices :: State(Fresh(d, devices[d]), EMPTY_TABLE, {}, {}, {}, {}, [], [], [])
  }

  ghost predicate SentBy(s: State, c: Context) {
    c in s.gossip || exists p :: p in s.outbox && p.message == SyncContext(c)
  }

  ghost predicate Sent(f: Fleet, c: Context) {
    exists d :: d in f && SentBy(f[d], c)
  }

  // What arrives was sent before: gossip by another runtime, a message to this one by the runtime it
  // names. A final disconnect finds the peer's streams in some order.
  ghost predicate Genuine(f: Fleet, t: FleetTurn)
    requires t.device in f
  {
    match t.turn
    case GossipTurn(c) => exists d :: d in f && d != t.device && c in f[d].gossip
    case MessageTurn(from, m) => from in f && Packet(t.device, m) in f[from].outbox
    case DisconnectTurn(peer, remaining, order) =>
      remaining == 0 ==> Enumerates(order, StreamsOf(f[t.device].table, peer))
    case _ => true
  }

  lemma ArrivalsWereSent(f: Fleet, t: FleetTurn)
    requires t.device in f && Genuine(f, t) && Incoming(t.turn).Some?
    ensures Sent(f, Incoming(t.turn).value)
  {
    match t.turn
    case GossipTurn(c) =>
      var d :| d in f && c in f[d].gossip;
      assert SentBy(f[d], c);
    case MessageTurn(from, m) =>
      assert SentBy(f[from], m.context);
    case _ =>
  }

  ghost function Turned(f: Fleet, t: FleetTurn): Fleet {
    if t.device in f && Genuine(f, t) then f[t.device := AfterTurn(f[t.device], t.turn)] else f
  }

  ghost function FleetRun(f: Fleet, turns: seq<FleetTurn>): Fleet
    decreases |turns|
  {
    if turns == [] then f else FleetRun(Turned(f, turns[0]), turns[1..])
  }

  // ----- Every run of the fleet is a run of the mesh

  // The nodes hold the contexts of the runtimes, and what is in flight is what the runtimes sent.
  ghost predicate Mirrors(s: System, f: Fleet) {
    && s.nodes.Keys == f.Keys
    && (forall d :: d in f ==> s.nodes[d].context == f[d].context)
    && (forall c :: Sent(f, c) <==> InFlight(s, c))
  }

  ghost predicate InFlight(s: System, c: Context) {
    exists v :: v in s.inFlight && v.context == c
  }

  // The turn sends out a snapshot.
  predicate Sends(s: State, turn: Turn) {
    match turn
    case ContextTurn(_, _, outcome) => outcome == Published
    case IdentifyTurn(peer, speaks) => speaks && peer !in s.synced
    case _ => false
  }

  lemma {:induction false} TurnSends(s: State, turn: Turn, c: Context)
    ensures var t := AfterTurn(s, turn);
      SentBy(t, c) <==> SentBy(s, c) || (Sends(s, turn) && c == t.context)
  {
    var t := AfterTurn(s, turn);
    match turn
    case StreamTurn(command) =>
      assert forall p :: p in CommandPackets(s.table, command) ==> !p.message.SyncContext?;
    case IdentifyTurn(peer, speaks) =>
      if Sends(s, turn) {
        assert Packet(peer, SyncContext(t.context)) in t.outbox;
      }
    case _ =>
  }

  lemma {:induction false} TurnedSends(f: Fleet, t: FleetTurn, c: Context)
    requires t.device in f && Genuine(f, t)
    ensures Sent(Turned(f, t), c) <==>
            Sent(f, c) || (Sends(f[t.device], t.turn) && c == Turned(f, t)[t.device].context)
  {
    var g := Turned(f, t);
    TurnSends(f[t.device], t.turn, c);
    if Sent(f, c) {
      var d :| d in f && SentBy(f[d], c);
      assert SentBy(g[d], c);
    }
  }

  // The context changes as one step of the mesh, or not at all.
  lemma {:induction false} ChangeIsMirrored(s: System, f: Fleet, t: FleetTurn) returns (steps: seq<Step>)
    requires Mirrors(s, f) && t.device in f && Genuine(f, t)
    ensures var u := Run(s, steps);
      && u.nodes.Keys == f.Keys && u.inFlight == s.inFlight
      && forall d :: d in f ==> u.nodes[d].context == Turned(f, t)[d].context
    ensures forall schema :: PatchTurn(t, schema) ==> Convergence.OnlyPatches(steps, schema)
    ensures forall d :: CommandsOf(steps, d) == Bit(t.device == d && t.turn.ContextTurn?)
  {
    var history: set<nat> := {};
    if Incoming(t.turn).Some? {
      ArrivalsWereSent(f, t);
      var v :| v in s.inFlight && v.context == Incoming(t.turn).value;
      history := v.history;
      assert v == Version(v.context, history);
    }
    TurnIsMeshStep(f[t.device], t.turn, s, t.device, history);
    var step := MeshStep(t.device, t.turn, history);
    if step.Some? {
      steps := [step.value];
      assert steps[1..] == [];
      assert Run(s, steps) == Run(Executed(s, step.value), []) == Executed(s, step.value);
    } else {
      steps := [];
    }
  }

  lemma {:induction false} TurnIsMirrored(s: System, f: Fleet, t: FleetTurn) returns (steps: seq<Step>)
    requires Mirrors(s, f) && t.device in f && Genuine(f, t)
    ensures Mirrors(Run(s, steps), Turned(f, t))
    ensures forall schema :: PatchTurn(t, schema) ==> Convergence.OnlyPatches(steps, schema)
    ensures forall d :: CommandsOf(steps, d) == Bit(t.device == d && t.turn.ContextTurn?)
  {
    var change := ChangeIsMirrored(s, f, t);
    var u, g := Run(s, change), Turned(f, t);
    var send := if Sends(f[t.device], t.turn) then [Step.Send(t.device)] else [];
    steps := change + send;
    Convergence.RunConcat(s, change, send);
    CommandsConcat(change, send);
    var w := Run(u, send);
    if send != [] {
      assert send[1..] == [];
      assert w == Executed(u, Step.Send(t.device));
      assert u.nodes[t.device] in w.inFlight;
    }
    assert forall d :: CommandsOf(send, d) == 0;
    forall c ensures Sent(g, c) <==> InFlight(w, c) {
      TurnedSends(f, t, c);
      assert InFlight(w, c) <==> InFlight(s, c) || (send != [] && c == u.nodes[t.device].context);
    }
  }

  lemma {:induction false} CommandsConcat(first: seq<Step>, second: seq<Step>)
    ensures forall d :: CommandsOf(first + second, d) == CommandsOf(first, d) + CommandsOf(second, d)
    decreases |first|
  {
    if first == [] {
      assert first + second == second;
    } else {
      assert (first + second)[1..] == first[1..] + second;
      CommandsConcat(first[1..], second);
    }
  }

  predicate PatchTurn(t: FleetTurn, schema: Convergence.Schema) {
    t.turn.ContextTurn? ==>
      t.turn.command.UpdateSelfContext? && Convergence.Conforms(t.turn.command.patch, schema, [])
  }

  predicate OnlyPatchTurns(turns: seq<FleetTurn>, schema: Convergence.Schema) {
    forall t | t in turns :: PatchTurn(t, schema)
  }

  function ContextTurns(turns: seq<FleetTurn>, device: string): nat {
    if turns == [] then 0
    else Bit(turns[0].device == device && turns[0].turn.ContextTurn?) + ContextTurns(turns[1..], device)
  }

  // Any interleaving of the event loops of any runtimes is a run of the mesh: the same contexts are
  // held, the same were sent, and the same changes were made.
  lemma {:induction false} FleetRunIsMirrored(s: System, f: Fleet, turns: seq<FleetTurn>) returns (steps: seq<Step>)
    requires Mirrors(s, f)
    ensures Mirrors(Run(s, steps), FleetRun(f, turns))
    ensures forall schema :: OnlyPatchTurns(turns, schema) ==> Convergence.OnlyPatches(steps, schema)
    ensures forall d :: d in f ==> CommandsOf(steps, d) == ContextTurns(turns, d)
    decreases |turns|
  {
    steps := [];
    if turns != [] {
      var t, rest := turns[0], turns[1..];
      var head: seq<Step> := [];
      if t.device in f && Genuine(f, t) {
        head := TurnIsMirrored(s, f, t);
      }
      var tail := FleetRunIsMirrored(Run(s, head), Turned(f, t), rest);
      steps := head + tail;
      Convergence.RunConcat(s, head, tail);
      CommandsConcat(head, tail);
      assert forall schema :: OnlyPatchTurns(turns, schema) ==> PatchTurn(t, schema) && OnlyPatchTurns(rest, schema);
    }
  }

  lemma {:induction false} FleetIsMesh(devices: map<string, nat>, turns: seq<FleetTurn>) returns (steps: seq<Step>)
    ensures Mirrors(Run(Start(devices), steps), FleetRun(Booted(devices), turns))
    ensures forall schema :: OnlyPatchTurns(turns, schema) ==> Convergence.OnlyPatches(steps, schema)
    ensures forall d :: d in devices ==> CommandsOf(steps, d) == ContextTurns(turns, d)
  {
    assert forall c :: !Sent(Booted(devices), c) && !InFlight(Start(devices), c);
    steps := FleetRunIsMirrored(Start(devices), Booted(devices), turns);
  }

  // ----- What the event loops inherit

  // A context that some runtime holds or has sent.
  ghost predicate Known(f: Fleet, c: Context) {
    Sent(f, c) || exists d :: d in f && f[d].context == c
  }

  lemma {:induction false} KnownIsPresent(s: System, f: Fleet, c: Context) returns (v: Version)
    requires Mirrors(s, f) && Known(f, c)
    ensures Present(s, v) && v.context == c
  {
    if Sent(f, c) {
      v :| v in s.inFlight && v.context == c;
    } else {
      var d :| d in f && f[d].context == c;
      v := s.nodes[d];
    }
  }

  // A runtime's own counter is the number of its context commands, published or not, and no context
  // that any runtime holds or sends is ahead of it.
  lemma {:induction false} RuntimesCountTheirCommands(devices: map<string, nat>, turns: seq<FleetTurn>,
                                                      device: string, c: Context)
    requires device in devices && Known(FleetRun(Booted(devices), turns), c)
    ensures var f := FleetRun(Booted(devices), turns);
      && device in f
      && Get(f[device].context.clock, device) == ContextTurns(turns, device)
      && Get(c.clock, device) <= ContextTurns(turns, device)
  {
    var steps := FleetIsMesh(devices, turns);
    var v := KnownIsPresent(Run(Start(devices), steps), FleetRun(Booted(devices), turns), c);
    OwnCounterCountsCommands(devices, steps, device, v);
  }

  // Runtimes told only to patch, with no path contended, hold and send equal trees at equal clocks.
  lemma {:induction false} RuntimesAgreeAtEqualClocks(devices: map<string, nat>, turns: seq<FleetTurn>,
                                                      schema: Convergence.Schema, b: Context, c: Context)
    requires Convergence.Conforms(SKELETON, schema, []) && OnlyPatchTurns(turns, schema)
    requires forall p :: !Convergence.Contended(schema, p)
    requires Known(FleetRun(Booted(devices), turns), b) && Known(FleetRun(Booted(devices), turns), c)
    requires Compare(b.clock, c.clock) == Some(Equal)
    ensures b.data == c.data
  {
    var steps := FleetIsMesh(devices, turns);
    var s, f := Run(Start(devices), steps), FleetRun(Booted(devices), turns);
    var u := KnownIsPresent(s, f, b);
    var v := KnownIsPresent(s, f, c);
    Convergence.EqualClocksSameTree(devices, steps, schema, u, v);
  }
}
