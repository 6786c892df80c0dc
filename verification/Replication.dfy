// The mesh as a system of steps. Any number of devices with distinct ids change their own
// contexts and merge each other's snapshots; snapshots may be lost, repeated and reordered.
module Replication {
  import opened Wrappers
  import opened JsonTrees
  import opened DeepMerges
  import opened Clocks
  import opened Contexts

  // A local change, as the log of the whole mesh records it. Its index in the log is its identity.
  datatype Command = Command(device: string, replacing: bool, payload: Json)

  // A context together with the local changes it depends on: its causal history.
  datatype Version = Version(context: Context, history: set<nat>)

  datatype System = System(nodes: map<string, Version>, inFlight: set<Version>, log: seq<Command>)

  datatype Step =
    | Update(device: string, patch: Json, now: nat)
    | Replace(device: string, data: Json, now: nat)
    | Send(device: string)
    | Deliver(device: string, message: Version)

  // Every device starts with the skeleton, at its own creation time, and knows of no change.
  ghost function Start(devices: map<string, nat>): System {
    System(map d | d in devices :: Version(Fresh(d, devices[d]), {}), {}, [])
  }

  ghost function Changed(s: System, device: string, context: Context, command: Command): System
    requires device in s.nodes
  {
    var event: nat := |s.log|;
    System(s.nodes[device := Version(Ticked(context), s.nodes[device].history + {event})],
           s.inFlight, s.log + [command])
  }

  // What receiving a message makes of a node's version.
  ghost function Received(v: Version, m: Version): Version {
    Version(Merged(v.context, m.context), v.history + m.history)
  }

  // Steps of devices that do not exist and deliveries of messages never sent do nothing.
  ghost function Executed(s: System, step: Step): System {
    if step.device !in s.nodes then s else
    var v := s.nodes[step.device];
    match step
    case Update(d, patch, now) => Changed(s, d, Patched(v.context, patch, now), Command(d, false, patch))
    case Replace(d, data, now) => Changed(s, d, Replaced(v.context, data, now), Command(d, true, data))
    case Send(_) => s.(inFlight := s.inFlight + {v})
    case Deliver(d, m) => if m in s.inFlight then s.(nodes := s.nodes[d := Received(v, m)]) else s
  }

  ghost function Run(s: System, steps: seq<Step>): System
    decreases |steps|
  {
    if steps == [] then s else Run(Executed(s, steps[0]), steps[1..])
  }

  ghost predicate Present(s: System, v: Version) {
    v in s.nodes.Values || v in s.inFlight
  }

  // ----- Counting changes

  function Count(log: seq<Command>, device: string): nat {
    if log == [] then 0
    else Count(log[..|log| - 1], device) + if log[|log| - 1].device == device then 1 else 0
  }

  // The how-manieth change of its device an event is.
  function Ordinal(log: seq<Command>, event: nat): nat
    requires event < |log|
  {
    Count(log[..event + 1], log[event].device)
  }

  lemma CountAppend(log: seq<Command>, c: Command, device: string)
    ensures Count(log + [c], device) == Count(log, device) + if c.device == device then 1 else 0
  {
  }

  lemma {:induction false} CountMonotone(log: seq<Command>, n: nat, device: string)
    requires n <= |log|
    ensures Count(log[..n], device) <= Count(log, device)
    decreases |log|
  {
    if n == |log| {
      assert log[..n] == log;
    } else {
      var rest := log[..|log| - 1];
      assert rest[..n] == log[..n];
      CountMonotone(rest, n, device);
    }
  }

  lemma {:induction false} OrdinalBounds(log: seq<Command>, event: nat)
    requires event < |log|
    ensures 1 <= Ordinal(log, event) <= Count(log, log[event].device)
  {
    CountMonotone(log, event + 1, log[event].device);
    assert log[..event + 1][..event] == log[..event];
  }

  // Each of a device's changes from the first to the last is somewhere in the log.
  lemma {:induction false} EventWithOrdinal(log: seq<Command>, device: string, n: nat) returns (event: nat)
    requires 1 <= n <= Count(log, device)
    ensures event < |log| && log[event].device == device && Ordinal(log, event) == n
    decreases |log|
  {
    var rest := log[..|log| - 1];
    if log[|log| - 1].device == device && n == Count(log, device) {
      event := |log| - 1;
      assert log[..event + 1] == log;
    } else {
      event := EventWithOrdinal(rest, device, n);
      assert rest[..event + 1] == log[..event + 1];
    }
  }

  // ----- The invariant: a clock is a summary of a history

  // For each device the history holds exactly its first so many changes, as many as the clock says.
  ghost predicate Tracks(v: Version, log: seq<Command>) {
    && (forall e :: e in v.history ==> e < |log|)
    && (forall e: nat :: e < |log| ==>
          (e in v.history <==> Ordinal(log, e) <= Get(v.context.clock, log[e].device)))
    && (forall d :: Get(v.context.clock, d) <= Count(log, d))
  }

  // A node has its own id and knows all of its own changes.
  ghost predicate OwnsItsCounter(s: System, device: string)
    requires device in s.nodes
  {
    && s.nodes[device].context.deviceId == device
    && Get(s.nodes[device].context.clock, device) == Count(s.log, device)
  }

  ghost predicate Consistent(s: System) {
    && (forall v :: Present(s, v) ==> Tracks(v, s.log))
    && (forall d :: d in s.nodes ==> OwnsItsCounter(s, d))
  }

  lemma {:induction false} StartConsistent(devices: map<string, nat>)
    ensures Consistent(Start(devices))
  {
  }

  lemma {:induction false} OrdinalAfterAppend(log: seq<Command>, c: Command, event: nat)
    requires event <= |log|
    ensures event < |log| ==> Ordinal(log + [c], event) == Ordinal(log, event)
    ensures event == |log| ==> Ordinal(log + [c], event) == Count(log, c.device) + 1
  {
    if event < |log| {
      assert (log + [c])[..event + 1] == log[..event + 1];
    } else {
      assert (log + [c])[..event + 1] == log + [c];
      CountAppend(log, c, c.device);
    }
  }

  // A version that does not know of the new change still tracks its history.
  lemma {:induction false} TracksAfterAppend(v: Version, log: seq<Command>, c: Command)
    requires Tracks(v, log)
    ensures Tracks(v, log + [c])
  {
    forall e: nat | e < |log + [c]|
      ensures e in v.history <==> Ordinal(log + [c], e) <= Get(v.context.clock, (log + [c])[e].device)
    {
      OrdinalAfterAppend(log, c, e);
    }
    forall d ensures Get(v.context.clock, d) <= Count(log + [c], d) {
      CountAppend(log, c, d);
    }
  }

  lemma {:induction false} TracksAfterChange(s: System, device: string, context: Context, c: Command)
    requires device in s.nodes && Tracks(s.nodes[device], s.log) && OwnsItsCounter(s, device)
    requires context.deviceId == device && context.clock == s.nodes[device].context.clock
    requires c.device == device
    ensures Tracks(Changed(s, device, context, c).nodes[device], s.log + [c])
    ensures OwnsItsCounter(Changed(s, device, context, c), device)
  {
    var v, log := Changed(s, device, context, c).nodes[device], s.log + [c];
    forall e: nat | e < |log|
      ensures e in v.history <==> Ordinal(log, e) <= Get(v.context.clock, log[e].device)
    {
      EventAfterChange(s.nodes[device], s.log, c, e);
    }
    forall d ensures Get(v.context.clock, d) <= Count(log, d) {
      CountAppend(s.log, c, d);
    }
    CountAppend(s.log, c, device);
  }

  // The new event, and only it, joins the history when its device counts it.
  lemma {:induction false} EventAfterChange(v: Version, log: seq<Command>, c: Command, e: nat)
    requires Tracks(v, log) && Get(v.context.clock, c.device) == Count(log, c.device)
    requires e <= |log|
    ensures (e in v.history || e == |log|) <==>
            Ordinal(log + [c], e) <= Get(Advanced(v.context.clock, c.device), (log + [c])[e].device)
  {
    OrdinalAfterAppend(log, c, e);
    if e < |log| {
      OrdinalBounds(log, e);
    }
  }

  lemma {:induction false} TracksAfterReceive(v: Version, m: Version, log: seq<Command>)
    requires Tracks(v, log) && Tracks(m, log)
    ensures Tracks(Received(v, m), log)
  {
    var r := Received(v, m);
    forall d ensures Get(r.context.clock, d) ==
      if Get(v.context.clock, d) >= Get(m.context.clock, d) then Get(v.context.clock, d) else Get(m.context.clock, d)
    {
      MergedClockIsJoin(v.context, m.context);
      JoinPointwise(v.context.clock, m.context.clock, d);
      assert Get(r.context.clock, d) <= Get(Join(v.context.clock, m.context.clock), d);
      assert Get(Join(v.context.clock, m.context.clock), d) <= Get(r.context.clock, d);
    }
  }

  lemma {:induction false} StepConsistent(s: System, step: Step)
    requires Consistent(s)
    ensures Consistent(Executed(s, step))
  {
    if step.device in s.nodes {
      var v, t := s.nodes[step.device], Executed(s, step);
      assert Present(s, v);
      match step
      case Update(d, patch, now) =>
        ChangeConsistent(s, d, Patched(v.context, patch, now), Command(d, false, patch));
      case Replace(d, data, now) =>
        ChangeConsistent(s, d, Replaced(v.context, data, now), Command(d, true, data));
      case Send(_) =>
      case Deliver(d, m) =>
        if m in s.inFlight {
          assert Present(s, m);
          TracksAfterReceive(v, m, s.log);
          forall w | Present(t, w) ensures Tracks(w, t.log) {
            assert w == Received(v, m) || Present(s, w);
          }
          MergedClockIsJoin(v.context, m.context);
          JoinPointwise(v.context.clock, m.context.clock, d);
          assert Get(Join(v.context.clock, m.context.clock), d) <= Get(t.nodes[d].context.clock, d);
          assert Present(t, t.nodes[d]);
        }
    }
  }

  lemma {:induction false} ChangeConsistent(s: System, device: string, context: Context, c: Command)
    requires Consistent(s) && device in s.nodes
    requires context.deviceId == device && context.clock == s.nodes[device].context.clock
    requires c.device == device
    ensures Consistent(Changed(s, device, context, c))
  {
    var t := Changed(s, device, context, c);
    assert Present(s, s.nodes[device]);
    TracksAfterChange(s, device, context, c);
    forall w | Present(t, w) ensures Tracks(w, t.log) {
      if w != t.nodes[device] {
        assert Present(s, w);
        TracksAfterAppend(w, s.log, c);
      }
    }
    forall d | d in t.nodes ensures OwnsItsCounter(t, d) {
      if d != device {
        assert OwnsItsCounter(s, d);
        CountAppend(s.log, c, d);
      }
    }
  }

  lemma {:induction false} RunConsistent(s: System, steps: seq<Step>)
    requires Consistent(s)
    ensures Consistent(Run(s, steps))
    decreases |steps|
  {
    if steps != [] {
      StepConsistent(s, steps[0]);
      RunConsistent(Executed(s, steps[0]), steps[1..]);
    }
  }

  // ----- The vector-clock theorem

  lemma {:induction false} ClockOrderIsHistoryInclusion(u: Version, v: Version, log: seq<Command>)
    requires Tracks(u, log) && Tracks(v, log)
    ensures Leq(u.context.clock, v.context.clock) <==> u.history <= v.history
  {
    var c, d := u.context.clock, v.context.clock;
    if Leq(c, d) {
      forall e | e in u.history ensures e in v.history {
        assert Get(c, log[e].device) <= Get(d, log[e].device);
      }
    }
    if u.history <= v.history {
      forall actor ensures Get(c, actor) <= Get(d, actor) {
        if Get(c, actor) > 0 {
          var e := EventWithOrdinal(log, actor, Get(c, actor));
          assert e in u.history;
        }
      }
    }
  }

  // In every run, for any two contexts at nodes or in flight: the comparison of their clocks says
  // exactly how the sets of changes they depend on are related.
  lemma {:induction false} VectorClockTheorem(devices: map<string, nat>, steps: seq<Step>, u: Version, v: Version)
    requires Present(Run(Start(devices), steps), u) && Present(Run(Start(devices), steps), v)
    ensures Compare(u.context.clock, v.context.clock) ==
            if u.history == v.history then Some(Equal)
            else if u.history < v.history then Some(Less)
            else if u.history > v.history then Some(Greater)
            else None
  {
    StartConsistent(devices);
    RunConsistent(Start(devices), steps);
    var log := Run(Start(devices), steps).log;
    ClockOrderIsHistoryInclusion(u, v, log);
    ClockOrderIsHistoryInclusion(v, u, log);
  }

  function CommandsOf(steps: seq<Step>, device: string): nat {
    if steps == [] then 0
    else CommandsOf(steps[1..], device) +
         if steps[0].device == device && (steps[0].Update? || steps[0].Replace?) then 1 else 0
  }

  lemma {:induction false} RunCounts(s: System, steps: seq<Step>, device: string)
    requires device in s.nodes
    ensures device in Run(s, steps).nodes
    ensures Count(Run(s, steps).log, device) == Count(s.log, device) + CommandsOf(steps, device)
    decreases |steps|
  {
    if steps != [] {
      var t := Executed(s, steps[0]);
      match steps[0] {
        case Update(d, patch, _) => CountAppend(s.log, Command(d, false, patch), device);
        case Replace(d, data, _) => CountAppend(s.log, Command(d, true, data), device);
        case _ =>
      }
      RunCounts(t, steps[1..], device);
    }
  }

  // A node's own counter is the number of changes it was told to make; nobody else's is ahead of it.
  lemma {:induction false} OwnCounterCountsCommands(devices: map<string, nat>, steps: seq<Step>,
                                                    device: string, v: Version)
    requires device in devices && Present(Run(Start(devices), steps), v)
    ensures var s := Run(Start(devices), steps);
      && device in s.nodes
      && Get(s.nodes[device].context.clock, device) == CommandsOf(steps, device)
      && Get(v.context.clock, device) <= CommandsOf(steps, device)
  {
    StartConsistent(devices);
    RunConsistent(Start(devices), steps);
    RunCounts(Start(devices), steps, device);
  }

  // ----- No invented values

  // Every leaf was written at its own path by a change in the history. (The skeleton has no leaves.)
  ghost predicate Sourced(v: Version, log: seq<Command>) {
    && (forall e :: e in v.history ==> e < |log|)
    && forall p, x :: LeafAt(v.context.data, p, x) ==>
         exists e :: e in v.history && LeafAt(log[e].payload, p, x)
  }

  lemma SkeletonHasNoLeaves(p: Path, x: Json)
    ensures !LeafAt(SKELETON, p, x)
  {
    if p != [] && p[0] == "avi" {
      var below := p[1..];
      assert Lookup(SKELETON, p) == Lookup(SKELETON.fields["avi"], below);
      if below != [] && below[0] == "device" {
        assert Lookup(SKELETON, p) == Lookup(EMPTY_OBJECT, below[1..]);
      }
    }
  }

  lemma {:induction false} SourcedAfterAppend(v: Version, log: seq<Command>, c: Command)
    requires Sourced(v, log)
    ensures Sourced(v, log + [c])
  {
  }

  lemma {:induction false} SourcedAfterChange(v: Version, log: seq<Command>, c: Command, w: Version)
    requires Sourced(v, log)
    requires w.history == v.history + {|log|}
    requires forall p, x :: LeafAt(w.context.data, p, x) ==> LeafAt(v.context.data, p, x) || LeafAt(c.payload, p, x)
    ensures Sourced(w, log + [c])
  {
  }

  lemma {:induction false} SourcedAfterReceive(v: Version, m: Version, log: seq<Command>)
    requires Sourced(v, log) && Sourced(m, log)
    ensures Sourced(Received(v, m), log)
  {
    var r := Received(v, m);
    forall p, x | LeafAt(r.context.data, p, x)
      ensures exists e :: e in r.history && LeafAt(log[e].payload, p, x)
    {
      MergedLeafOrigin(v.context, m.context, p, x);
      if LeafAt(v.context.data, p, x) {
        var e :| e in v.history && LeafAt(log[e].payload, p, x);
        assert e in r.history;
      } else {
        var e :| e in m.history && LeafAt(log[e].payload, p, x);
        assert e in r.history;
      }
    }
  }

  lemma {:induction false} MergedLeafOrigin(a: Context, b: Context, p: Path, x: Json)
    requires LeafAt(Merged(a, b).data, p, x)
    ensures LeafAt(a.data, p, x) || LeafAt(b.data, p, x)
  {
    match Compare(a.clock, b.clock)
    case Some(Greater) => MergeInventsNoLeaf(a.data, b.data, true, p, x);
    case None => MergeInventsNoLeaf(a.data, b.data, PrefersSelf(a, b), p, x);
    case _ =>
  }

  ghost predicate AllSourced(s: System) {
    forall v :: Present(s, v) ==> Sourced(v, s.log)
  }

  lemma {:induction false} StepSourced(s: System, step: Step)
    requires AllSourced(s)
    ensures AllSourced(Executed(s, step))
  {
    if step.device in s.nodes {
      var v, t := s.nodes[step.device], Executed(s, step);
      assert Present(s, v);
      match step
      case Update(d, patch, now) =>
        forall p, x | LeafAt(t.nodes[d].context.data, p, x)
          ensures LeafAt(v.context.data, p, x) || LeafAt(patch, p, x)
        {
          MergeInventsNoLeaf(v.context.data, patch, false, p, x);
        }
        ChangeSourced(s, d, Patched(v.context, patch, now), Command(d, false, patch));
      case Replace(d, data, now) =>
        ChangeSourced(s, d, Replaced(v.context, data, now), Command(d, true, data));
      case Send(_) =>
      case Deliver(d, m) =>
        if m in s.inFlight {
          assert Present(s, m);
          SourcedAfterReceive(v, m, s.log);
          forall w | Present(t, w) ensures Sourced(w, t.log) {
            assert w == Received(v, m) || Present(s, w);
          }
        }
    }
  }

  lemma {:induction false} ChangeSourced(s: System, device: string, context: Context, c: Command)
    requires AllSourced(s) && device in s.nodes
    requires forall p, x :: LeafAt(context.data, p, x) ==>
               LeafAt(s.nodes[device].context.data, p, x) || LeafAt(c.payload, p, x)
    ensures AllSourced(Changed(s, device, context, c))
  {
    var t := Changed(s, device, context, c);
    assert Present(s, s.nodes[device]);
    SourcedAfterChange(s.nodes[device], s.log, c, t.nodes[device]);
    forall w | Present(t, w) ensures Sourced(w, t.log) {
      if w != t.nodes[device] {
        assert Present(s, w);
        SourcedAfterAppend(w, s.log, c);
      }
    }
  }

  lemma {:induction false} RunSourced(s: System, steps: seq<Step>)
    requires AllSourced(s)
    ensures AllSourced(Run(s, steps))
    decreases |steps|
  {
    if steps != [] {
      StepSourced(s, steps[0]);
      RunSourced(Executed(s, steps[0]), steps[1..]);
    }
  }

  // In every run, with replacements and deletions too, a value that is not an object stands in a
  // context only where a change that the context depends on wrote it.
  lemma {:induction false} NoInventedValues(devices: map<string, nat>, steps: seq<Step>, v: Version, p: Path, x: Json)
    requires Present(Run(Start(devices), steps), v)
    requires LeafAt(v.context.data, p, x)
    ensures var log := Run(Start(devices), steps).log;
      exists e: nat :: e < |log| && e in v.history && LeafAt(log[e].payload, p, x)
  {
    var s := Start(devices);
    forall w | Present(s, w) ensures Sourced(w, s.log) {
      forall q, y ensures !LeafAt(SKELETON, q, y) {
        SkeletonHasNoLeaves(q, y);
      }
    }
    RunSourced(s, steps);
    var t := Run(s, steps);
    assert Sourced(v, t.log);
    var e :| e in v.history && LeafAt(t.log[e].payload, p, x);
  }
}
