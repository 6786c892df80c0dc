// What the replicated contexts converge to, and under which conditions.
module Convergence {
  import opened Wrappers
  import opened JsonTrees
  import opened DeepMerges
  import opened Clocks
  import opened Contexts
  import opened Replication

  // What a path may hold: always an object, always some leaf, or always one and the same leaf.
  datatype Kind = ObjectHere | LeafHere | Only(leaf: Json)

  type Schema = Path -> Kind

  // The tree t, placed at path at, respects the schema.
  predicate Conforms(t: Json, schema: Schema, at: Path)
    decreases t
  {
    match schema(at)
    case ObjectHere => t.Obj? && forall k | k in t.fields :: Conforms(t.fields[k], schema, at + [k])
    case LeafHere => !t.Obj?
    case Only(x) => !t.Obj? && t == x
  }

  lemma {:induction false} ConformsBelow(t: Json, schema: Schema, at: Path, p: Path)
    requires Conforms(t, schema, at) && HasPath(t, p)
    ensures Conforms(Lookup(t, p).value, schema, at + p)
    decreases |p|
  {
    if p == [] {
      assert at + p == at;
    } else {
      ConformsBelow(t.fields[p[0]], schema, at + [p[0]], p[1..]);
      assert at + [p[0]] + p[1..] == at + p;
    }
  }

  // A path at which patches of the schema can put different leaves.
  ghost predicate Contended(schema: Schema, p: Path) {
    schema(p).LeafHere? && forall n :: 0 <= n < |p| ==> schema(p[..n]).ObjectHere?
  }

  lemma {:induction false} LeafUnderObjects(t: Json, schema: Schema, p: Path, x: Json)
    requires Conforms(t, schema, []) && LeafAt(t, p, x)
    ensures schema(p) == Only(x) || Contended(schema, p)
  {
    ConformsBelow(t, schema, [], p);
    assert [] + p == p;
    forall n | 0 <= n < |p| ensures schema(p[..n]).ObjectHere? {
      assert p == p[..n] + p[n..];
      LookupConcat(t, p[..n], p[n..]);
      ConformsBelow(t, schema, [], p[..n]);
      assert [] + p[..n] == p[..n];
    }
  }

  lemma {:induction false} ConformingMerge(a: Json, b: Json, preferA: bool, schema: Schema, at: Path)
    requires Conforms(a, schema, at) && Conforms(b, schema, at)
    ensures Conforms(DeepMerge(a, b, preferA), schema, at)
    decreases b
  {
    if a.Obj? && b.Obj? {
      var m := DeepMerge(a, b, preferA);
      forall k | k in m.fields ensures Conforms(m.fields[k], schema, at + [k]) {
        if k in a.fields && k in b.fields {
          ConformingMerge(a.fields[k], b.fields[k], preferA, schema, at + [k]);
        }
      }
    }
  }

  // Trees of one schema never hide each other's paths.
  lemma {:induction false} ConformingMergeKeepsPaths(a: Json, b: Json, preferA: bool, schema: Schema, at: Path, p: Path)
    requires Conforms(a, schema, at) && Conforms(b, schema, at)
    ensures HasPath(DeepMerge(a, b, preferA), p) <==> HasPath(a, p) || HasPath(b, p)
    decreases |p|
  {
    if p != [] && a.Obj? && b.Obj? && p[0] in a.fields && p[0] in b.fields {
      ConformingMergeKeepsPaths(a.fields[p[0]], b.fields[p[0]], preferA, schema, at + [p[0]], p[1..]);
    }
  }

  lemma {:induction false} MorePathsAbsorb(a: Json, b: Json, schema: Schema, at: Path)
    requires Conforms(a, schema, at) && Conforms(b, schema, at)
    requires forall p :: HasPath(b, p) ==> HasPath(a, p)
    ensures Absorbs(a, b)
    decreases b
  {
    if a.Obj? && b.Obj? {
      forall k | k in b.fields ensures k in a.fields && Absorbs(a.fields[k], b.fields[k]) {
        LookupStep(a, k, []);
        LookupStep(b, k, []);
        assert HasPath(b, [k] + []);
        forall p | HasPath(b.fields[k], p) ensures HasPath(a.fields[k], p) {
          LookupStep(a, k, p);
          LookupStep(b, k, p);
          assert HasPath(b, [k] + p);
        }
        MorePathsAbsorb(a.fields[k], b.fields[k], schema, at + [k]);
      }
    }
  }

  // ----- Shape convergence

  // Runs in which contexts are only patched, and every patch respects the schema.
  predicate OnlyPatches(steps: seq<Step>, schema: Schema) {
    forall step | step in steps :: !step.Replace? && (step.Update? ==> Conforms(step.patch, schema, []))
  }

  // The paths of the tree are the skeleton's and those of the patches in the history, no more, no less.
  ghost predicate Shaped(v: Version, log: seq<Command>, schema: Schema) {
    && Conforms(v.context.data, schema, [])
    && (forall e :: e in v.history ==> e < |log|)
    && forall p :: HasPath(v.context.data, p) <==> Expected(v.history, log, p)
  }

  ghost predicate Expected(history: set<nat>, log: seq<Command>, p: Path)
    requires forall e :: e in history ==> e < |log|
  {
    HasPath(SKELETON, p) || exists e :: e in history && HasPath(log[e].payload, p)
  }

  ghost predicate AllShaped(s: System, schema: Schema) {
    forall v :: Present(s, v) ==> Shaped(v, s.log, schema)
  }

  lemma {:induction false} ShapedAfterAppend(v: Version, log: seq<Command>, c: Command, schema: Schema)
    requires Shaped(v, log, schema)
    ensures Shaped(v, log + [c], schema)
  {
  }

  lemma {:induction false} ShapedAfterPatch(v: Version, log: seq<Command>, c: Command, w: Version, schema: Schema)
    requires Shaped(v, log, schema) && Conforms(c.payload, schema, [])
    requires w.history == v.history + {|log|}
    requires w.context.data == DeepMerge(v.context.data, c.payload, false)
    ensures Shaped(w, log + [c], schema)
  {
    var log' := log + [c];
    ConformingMerge(v.context.data, c.payload, false, schema, []);
    ShapedAfterAppend(v, log, c, schema);
    forall p ensures HasPath(w.context.data, p) <==> Expected(w.history, log', p) {
      ConformingMergeKeepsPaths(v.context.data, c.payload, false, schema, [], p);
      assert HasPath(v.context.data, p) <==> Expected(v.history, log', p);
      if HasPath(c.payload, p) {
        assert |log| in w.history && HasPath(log'[|log|].payload, p);
      }
      if e :| e in v.history && HasPath(log'[e].payload, p) {
        assert e in w.history;
      }
    }
  }

  // Also where a newer tree overwrites an older one, because the newer history contains the older.
  lemma {:induction false} ShapedAfterReceive(v: Version, m: Version, log: seq<Command>, schema: Schema)
    requires Tracks(v, log) && Tracks(m, log)
    requires Shaped(v, log, schema) && Shaped(m, log, schema)
    ensures Shaped(Received(v, m), log, schema)
  {
    var r := Received(v, m);
    ClockOrderIsHistoryInclusion(v, m, log);
    ClockOrderIsHistoryInclusion(m, v, log);
    forall p ensures Expected(r.history, log, p) <==> Expected(v.history, log, p) || Expected(m.history, log, p) {
      if e :| e in v.history + m.history && HasPath(log[e].payload, p) {
        assert e in v.history || e in m.history;
      }
      if e :| e in v.history && HasPath(log[e].payload, p) {
        assert e in r.history;
      }
      if e :| e in m.history && HasPath(log[e].payload, p) {
        assert e in r.history;
      }
    }
    var a, b := v.context, m.context;
    match Compare(a.clock, b.clock)
    case Some(Less) =>
      assert r.history == m.history;
    case Some(Equal) =>
      assert r.history == v.history;
    case Some(Greater) =>
      ShapedMerge(a.data, b.data, true, schema);
    case None =>
      ShapedMerge(a.data, b.data, PrefersSelf(a, b), schema);
  }

  lemma {:induction false} ShapedMerge(a: Json, b: Json, preferA: bool, schema: Schema)
    requires Conforms(a, schema, []) && Conforms(b, schema, [])
    ensures Conforms(DeepMerge(a, b, preferA), schema, [])
    ensures forall p :: HasPath(DeepMerge(a, b, preferA), p) <==> HasPath(a, p) || HasPath(b, p)
  {
    ConformingMerge(a, b, preferA, schema, []);
    forall p ensures HasPath(DeepMerge(a, b, preferA), p) <==> HasPath(a, p) || HasPath(b, p) {
      ConformingMergeKeepsPaths(a, b, preferA, schema, [], p);
    }
  }

  lemma {:induction false} StepShaped(s: System, step: Step, schema: Schema)
    requires Consistent(s) && AllShaped(s, schema)
    requires !step.Replace? && (step.Update? ==> Conforms(step.patch, schema, []))
    ensures AllShaped(Executed(s, step), schema)
  {
    if step.device in s.nodes {
      var v, t := s.nodes[step.device], Executed(s, step);
      assert Present(s, v);
      match step
      case Update(d, patch, now) =>
        var c := Command(d, false, patch);
        ShapedAfterPatch(v, s.log, c, t.nodes[d], schema);
        forall w | Present(t, w) ensures Shaped(w, t.log, schema) {
          if w != t.nodes[d] {
            assert Present(s, w);
            ShapedAfterAppend(w, s.log, c, schema);
          }
        }
      case Send(_) =>
      case Deliver(d, m) =>
        if m in s.inFlight {
          assert Present(s, m);
          ShapedAfterReceive(v, m, s.log, schema);
          forall w | Present(t, w) ensures Shaped(w, t.log, schema) {
            assert w == Received(v, m) || Present(s, w);
          }
        }
    }
  }

  lemma {:induction false} RunShaped(s: System, steps: seq<Step>, schema: Schema)
    requires Consistent(s) && AllShaped(s, schema) && OnlyPatches(steps, schema)
    ensures Consistent(Run(s, steps)) && AllShaped(Run(s, steps), schema)
    decreases |steps|
  {
    if steps != [] {
      assert steps[0] in steps;
      StepConsistent(s, steps[0]);
      StepShaped(s, steps[0], schema);
      RunShaped(Executed(s, steps[0]), steps[1..], schema);
    }
  }

  lemma {:induction false} StartShaped(devices: map<string, nat>, steps: seq<Step>, schema: Schema)
    requires Conforms(SKELETON, schema, []) && OnlyPatches(steps, schema)
    ensures var s := Run(Start(devices), steps); Consistent(s) && AllShaped(s, schema)
  {
    StartConsistent(devices);
    RunShaped(Start(devices), steps, schema);
  }

  // In every such run, every context has exactly the key paths of the skeleton and of the patches
  // it depends on.
  lemma {:induction false} ShapeConvergence(devices: map<string, nat>, steps: seq<Step>, schema: Schema,
                                            v: Version, p: Path)
    requires Conforms(SKELETON, schema, []) && OnlyPatches(steps, schema)
    requires Present(Run(Start(devices), steps), v)
    ensures var log := Run(Start(devices), steps).log;
      HasPath(v.context.data, p) <==>
        HasPath(SKELETON, p) || exists e: nat :: e < |log| && e in v.history && HasPath(log[e].payload, p)
  {
    StartShaped(devices, steps, schema);
    var log := Run(Start(devices), steps).log;
    assert HasPath(v.context.data, p) <==> Expected(v.history, log, p);
    if e :| e in v.history && HasPath(log[e].payload, p) {
      assert e < |log|;
    }
  }

  // Equal clocks mean equal key paths, and equal leaves wherever the schema fixes the leaf.
  lemma {:induction false} EqualClocksAgree(devices: map<string, nat>, steps: seq<Step>, schema: Schema,
                                            u: Version, v: Version, p: Path)
    requires Conforms(SKELETON, schema, []) && OnlyPatches(steps, schema)
    requires Present(Run(Start(devices), steps), u) && Present(Run(Start(devices), steps), v)
    requires Compare(u.context.clock, v.context.clock) == Some(Equal)
    ensures HasPath(u.context.data, p) <==> HasPath(v.context.data, p)
    ensures ObjectAt(u.context.data, p) <==> ObjectAt(v.context.data, p)
    ensures schema(p).Only? ==> Lookup(u.context.data, p) == Lookup(v.context.data, p)
  {
    StartShaped(devices, steps, schema);
    VectorClockTheorem(devices, steps, u, v);
    var log := Run(Start(devices), steps).log;
    assert HasPath(u.context.data, p) <==> Expected(u.history, log, p);
    assert HasPath(v.context.data, p) <==> Expected(v.history, log, p);
    if HasPath(u.context.data, p) {
      ConformsBelow(u.context.data, schema, [], p);
      ConformsBelow(v.context.data, schema, [], p);
      assert [] + p == p;
    }
  }

  // If no path is contended, equal clocks mean equal trees: strong eventual consistency.
  lemma {:induction false} EqualClocksSameTree(devices: map<string, nat>, steps: seq<Step>, schema: Schema,
                                               u: Version, v: Version)
    requires Conforms(SKELETON, schema, []) && OnlyPatches(steps, schema)
    requires forall p :: !Contended(schema, p)
    requires Present(Run(Start(devices), steps), u) && Present(Run(Start(devices), steps), v)
    requires Compare(u.context.clock, v.context.clock) == Some(Equal)
    ensures u.context.data == v.context.data
  {
    StartShaped(devices, steps, schema);
    var s, t := u.context.data, v.context.data;
    forall p ensures ObjectAt(s, p) <==> ObjectAt(t, p) {
      EqualClocksAgree(devices, steps, schema, u, v, p);
    }
    forall p, x ensures LeafAt(s, p, x) <==> LeafAt(t, p, x) {
      EqualClocksAgree(devices, steps, schema, u, v, p);
      if LeafAt(s, p, x) {
        LeafUnderObjects(s, schema, p, x);
      }
      if LeafAt(t, p, x) {
        LeafUnderObjects(t, schema, p, x);
      }
    }
    SameContentSameTree(s, t);
  }

  // ----- Nothing is lost, and stale messages do nothing

  lemma {:induction false} HistoriesGrow(s: System, steps: seq<Step>, device: string)
    requires device in s.nodes
    ensures var t := Run(s, steps);
      && device in t.nodes
      && s.nodes[device].history <= t.nodes[device].history
      && s.inFlight <= t.inFlight
      && s.log <= t.log
    decreases |steps|
  {
    if steps != [] {
      HistoriesGrow(Executed(s, steps[0]), steps[1..], device);
    }
  }

  lemma {:induction false} RunConcat(s: System, first: seq<Step>, second: seq<Step>)
    ensures Run(s, first + second) == Run(Run(s, first), second)
    decreases |first|
  {
    if first == [] {
      assert first + second == second;
    } else {
      assert (first + second)[1..] == first[1..] + second;
      RunConcat(Executed(s, first[0]), first[1..], second);
    }
  }

  // A key path a node once had, it has for ever, although a newer tree overwrites the whole of it.
  lemma {:induction false} NoKeyIsLost(devices: map<string, nat>, steps: seq<Step>, more: seq<Step>, schema: Schema,
                                       device: string, p: Path)
    requires Conforms(SKELETON, schema, []) && OnlyPatches(steps + more, schema)
    requires device in Run(Start(devices), steps).nodes
    requires HasPath(Run(Start(devices), steps).nodes[device].context.data, p)
    ensures device in Run(Start(devices), steps + more).nodes
    ensures HasPath(Run(Start(devices), steps + more).nodes[device].context.data, p)
  {
    forall step | step in steps ensures step in steps + more {
    }
    StartShaped(devices, steps, schema);
    StartShaped(devices, steps + more, schema);
    var s, t := Run(Start(devices), steps), Run(Start(devices), steps + more);
    RunConcat(Start(devices), steps, more);
    HistoriesGrow(s, more, device);
    var v, w := s.nodes[device], t.nodes[device];
    assert Present(s, v) && Present(t, w);
    assert Expected(v.history, s.log, p);
    if e :| e in v.history && HasPath(s.log[e].payload, p) {
      assert e in w.history && t.log[e] == s.log[e];
    }
    assert Expected(w.history, t.log, p);
  }

  // A delivery whose clock is at or below the receiver's changes nothing at all.
  lemma {:induction false} StaleDeliveryIsNoOp(devices: map<string, nat>, steps: seq<Step>, schema: Schema,
                                               device: string, m: Version)
    requires Conforms(SKELETON, schema, []) && OnlyPatches(steps, schema)
    requires device in Run(Start(devices), steps).nodes && m in Run(Start(devices), steps).inFlight
    requires Leq(m.context.clock, Run(Start(devices), steps).nodes[device].context.clock)
    ensures Executed(Run(Start(devices), steps), Deliver(device, m)) == Run(Start(devices), steps)
  {
    StartShaped(devices, steps, schema);
    var s := Run(Start(devices), steps);
    var v := s.nodes[device];
    assert Present(s, v) && Present(s, m);
    ClockOrderIsHistoryInclusion(m, v, s.log);
    forall p | HasPath(m.context.data, p) ensures HasPath(v.context.data, p) {
      assert Expected(m.history, s.log, p);
      if e :| e in m.history && HasPath(s.log[e].payload, p) {
        assert e in v.history;
      }
      assert Expected(v.history, s.log, p);
    }
    MorePathsAbsorb(v.context.data, m.context.data, schema, []);
    StaleDeliveryIsNoOpIff(v.context, m.context);
    assert v.history + m.history == v.history;
    assert s.nodes[device := v] == s.nodes;
  }

  // ----- Delivering everything

  // Steps that only move messages.
  predicate Quiet(steps: seq<Step>) {
    forall step | step in steps :: step.Send? || step.Deliver?
  }

  lemma {:induction false} QuietKeepsLog(s: System, steps: seq<Step>)
    requires Quiet(steps)
    ensures Run(s, steps).log == s.log && Run(s, steps).nodes.Keys == s.nodes.Keys
    decreases |steps|
  {
    if steps != [] {
      assert steps[0] in steps;
      var t := Executed(s, steps[0]);
      assert t.nodes.Keys == s.nodes.Keys;
      QuietKeepsLog(t, steps[1..]);
    }
  }

  lemma {:induction false} DeliveredSticks(s: System, steps: seq<Step>, k: nat, device: string, m: Version)
    requires k < |steps| && steps[k] == Deliver(device, m) && m in s.inFlight && device in s.nodes
    ensures device in Run(s, steps).nodes && m.history <= Run(s, steps).nodes[device].history
    decreases |steps|
  {
    var t := Executed(s, steps[0]);
    if k == 0 {
      assert m.history <= t.nodes[device].history;
      HistoriesGrow(t, steps[1..], device);
    } else {
      HistoriesGrow(s, [steps[0]], device);
      assert Run(s, [steps[0]]) == t;
      DeliveredSticks(t, steps[1..], k - 1, device, m);
    }
  }

  // Every node is handed, somewhere in the steps, a message that carries all that each other node
  // knows at the start.
  ghost predicate FullExchange(s: System, steps: seq<Step>) {
    forall i, j :: i in s.nodes && j in s.nodes && i != j ==> Hears(s, steps, i, j)
  }

  ghost predicate Hears(s: System, steps: seq<Step>, i: string, j: string)
    requires j in s.nodes
  {
    exists k, m :: 0 <= k < |steps| && steps[k] == Deliver(i, m) && m in s.inFlight && s.nodes[j].history <= m.history
  }

  // After any run, with losses, repetitions and reorderings, one full exchange in any order brings
  // every node to know every change, with every counter at its final value.
  lemma {:induction false} FullExchangeCompletes(devices: map<string, nat>, before: seq<Step>, exchange: seq<Step>,
                                                 device: string)
    requires Quiet(exchange) && FullExchange(Run(Start(devices), before), exchange)
    requires device in devices
    ensures var s := Run(Start(devices), before + exchange);
      && device in s.nodes
      && (forall e: nat :: e in s.nodes[device].history <==> e < |s.log|)
      && (forall d :: d in devices ==> Get(s.nodes[device].context.clock, d) == CommandsOf(before, d))
  {
    var start, mid := Start(devices), Run(Start(devices), before);
    var end := Run(start, before + exchange);
    RunConcat(start, before, exchange);
    StartConsistent(devices);
    RunConsistent(start, before);
    RunConsistent(mid, exchange);
    QuietKeepsLog(mid, exchange);
    RunKeepsDevices(start, before);
    HistoriesGrow(mid, exchange, device);
    var v := end.nodes[device];
    assert Present(end, v);
    RunLogsKnownDevices(start, before);
    forall e: nat | e < |end.log| ensures e in v.history {
      ExchangeTeaches(mid, exchange, device, e);
    }
    forall d | d in devices ensures Get(v.context.clock, d) == CommandsOf(before, d) {
      RunCounts(start, before, d);
      CompleteHistoryCounts(v, end.log, d);
    }
  }

  lemma {:induction false} ExchangeTeaches(s: System, exchange: seq<Step>, device: string, e: nat)
    requires Consistent(s) && FullExchange(s, exchange)
    requires device in s.nodes && e < |s.log| && s.log[e].device in s.nodes
    ensures device in Run(s, exchange).nodes && e in Run(s, exchange).nodes[device].history
  {
    var author := s.log[e].device;
    assert Present(s, s.nodes[author]) && OwnsItsCounter(s, author);
    OrdinalBounds(s.log, e);
    assert e in s.nodes[author].history;
    if author == device {
      HistoriesGrow(s, exchange, device);
    } else {
      assert Hears(s, exchange, device, author);
      var k, m :| 0 <= k < |exchange| && exchange[k] == Deliver(device, m) && m in s.inFlight &&
                  s.nodes[author].history <= m.history;
      DeliveredSticks(s, exchange, k, device, m);
    }
  }

  lemma {:induction false} CompleteHistoryCounts(v: Version, log: seq<Command>, device: string)
    requires Tracks(v, log) && forall e: nat :: e < |log| ==> e in v.history
    ensures Get(v.context.clock, device) == Count(log, device)
  {
    if Count(log, device) > 0 {
      var e := EventWithOrdinal(log, device, Count(log, device));
      assert e in v.history;
    }
  }

  lemma {:induction false} RunKeepsDevices(s: System, steps: seq<Step>)
    ensures Run(s, steps).nodes.Keys == s.nodes.Keys
    decreases |steps|
  {
    if steps != [] {
      var t := Executed(s, steps[0]);
      assert t.nodes.Keys == s.nodes.Keys;
      RunKeepsDevices(t, steps[1..]);
    }
  }

  lemma {:induction false} RunLogsKnownDevices(s: System, steps: seq<Step>)
    requires forall e :: 0 <= e < |s.log| ==> s.log[e].device in s.nodes
    ensures forall e :: 0 <= e < |Run(s, steps).log| ==> Run(s, steps).log[e].device in Run(s, steps).nodes
    decreases |steps|
  {
    if steps != [] {
      RunLogsKnownDevices(Executed(s, steps[0]), steps[1..]);
    }
  }

  // ----- A full exchange is always possible

  lemma {:induction false} SendAll(s: System, devices: set<string>) returns (steps: seq<Step>)
    requires devices <= s.nodes.Keys
    ensures Quiet(steps) && Echoless(steps)
    ensures Run(s, steps).nodes == s.nodes
    ensures forall d :: d in devices ==> s.nodes[d] in Run(s, steps).inFlight
    decreases devices
  {
    if devices == {} {
      steps := [];
    } else {
      var d :| d in devices;
      var t := Executed(s, Send(d));
      var rest := SendAll(t, devices - {d});
      HistoriesGrow(t, rest, d);
      steps := [Send(d)] + rest;
      assert steps[1..] == rest;
      assert forall step :: step in steps ==> step == Send(d) || step in rest;
    }
  }

  // No device is handed what it sent itself.
  predicate Echoless(steps: seq<Step>) {
    forall step | step in steps :: step.Deliver? ==> step.message.context.deviceId != step.device
  }

  // Every node has its own id.
  ghost predicate Named(s: System) {
    forall d :: d in s.nodes ==> s.nodes[d].context.deviceId == d
  }

  lemma {:induction false} AllPairs(s: System, pairs: set<(string, string)>) returns (steps: seq<Step>)
    requires Named(s) && forall p :: p in pairs ==> p.1 in s.nodes && p.0 != p.1
    ensures Quiet(steps) && Echoless(steps)
    ensures forall p :: p in pairs ==> Deliver(p.0, s.nodes[p.1]) in steps
    decreases pairs
  {
    if pairs == {} {
      steps := [];
    } else {
      var p :| p in pairs;
      var rest := AllPairs(s, pairs - {p});
      steps := [Deliver(p.0, s.nodes[p.1])] + rest;
      assert forall step :: step in steps ==> step == Deliver(p.0, s.nodes[p.1]) || step in rest;
    }
  }

  // From wherever a run has got to, sending and delivering alone can complete a full exchange.
  lemma {:induction false} ExchangeIsAlwaysPossible(s: System) returns (sends: seq<Step>, exchange: seq<Step>)
    requires Named(s)
    ensures Quiet(sends) && Quiet(exchange) && Echoless(sends + exchange)
    ensures FullExchange(Run(s, sends), exchange)
  {
    sends := SendAll(s, s.nodes.Keys);
    var t := Run(s, sends);
    var pairs := set i, j | i in t.nodes.Keys && j in t.nodes.Keys && i != j :: (i, j);
    exchange := AllPairs(t, pairs);
    forall i, j | i in t.nodes && j in t.nodes && i != j ensures Hears(t, exchange, i, j) {
      assert (i, j) in pairs;
      assert Deliver(i, t.nodes[j]) in exchange;
      var k :| 0 <= k < |exchange| && exchange[k] == Deliver(i, t.nodes[j]);
      assert t.nodes[j] in t.inFlight && t.nodes[j].history <= t.nodes[j].history;
    }
  }

  lemma {:induction false} EveryRunCanComplete(devices: map<string, nat>, before: seq<Step>) returns (more: seq<Step>)
    ensures Quiet(more)
    ensures Complete(Run(Start(devices), before + more))
  {
    var s := Run(Start(devices), before);
    StartConsistent(devices);
    RunConsistent(Start(devices), before);
    RunLogsKnownDevices(Start(devices), before);
    more := CompletingSteps(s);
    RunConcat(Start(devices), before, more);
  }

  lemma {:induction false} CompletingSteps(s: System) returns (more: seq<Step>)
    requires Consistent(s) && forall e :: 0 <= e < |s.log| ==> s.log[e].device in s.nodes
    ensures Quiet(more) && Echoless(more)
    ensures Complete(Run(s, more))
  {
    assert forall d :: d in s.nodes ==> OwnsItsCounter(s, d);
    var sends, exchange := ExchangeIsAlwaysPossible(s);
    more := sends + exchange;
    var t := Run(s, sends);
    RunConcat(s, sends, exchange);
    RunConsistent(s, sends);
    QuietKeepsLog(s, sends);
    QuietKeepsLog(t, exchange);
    var u := Run(s, more);
    forall d, e: nat | d in u.nodes && e < |u.log| ensures e in u.nodes[d].history {
      ExchangeTeaches(t, exchange, d, e);
    }
  }

  // The eventual-consistency claim, as far as it holds: after a full exchange all nodes have the
  // same clock and the same key paths, and the same tree if no path is contended.
  lemma {:induction false} EventualConsistency(devices: map<string, nat>, before: seq<Step>, exchange: seq<Step>,
                                               schema: Schema, i: string, j: string)
    requires Quiet(exchange) && FullExchange(Run(Start(devices), before), exchange)
    requires Conforms(SKELETON, schema, []) && OnlyPatches(before, schema)
    requires i in devices && j in devices
    ensures var s := Run(Start(devices), before + exchange);
      && i in s.nodes && j in s.nodes
      && Compare(s.nodes[i].context.clock, s.nodes[j].context.clock) == Some(Equal)
      && (forall p :: HasPath(s.nodes[i].context.data, p) <==> HasPath(s.nodes[j].context.data, p))
      && ((forall p :: !Contended(schema, p)) ==> s.nodes[i].context.data == s.nodes[j].context.data)
  {
    var steps := before + exchange;
    var s := Run(Start(devices), steps);
    FullExchangeCompletes(devices, before, exchange, i);
    FullExchangeCompletes(devices, before, exchange, j);
    var u, v := s.nodes[i], s.nodes[j];
    assert Present(s, u) && Present(s, v);
    assert u.history == v.history;
    VectorClockTheorem(devices, steps, u, v);
    assert OnlyPatches(steps, schema);
    forall p ensures HasPath(u.context.data, p) <==> HasPath(v.context.data, p) {
      EqualClocksAgree(devices, steps, schema, u, v, p);
    }
    if forall p :: !Contended(schema, p) {
      EqualClocksSameTree(devices, steps, schema, u, v);
    }
  }

  // ----- Disagreement at complete knowledge is permanent

  ghost predicate Complete(s: System) {
    forall d, e: nat :: d in s.nodes && e < |s.log| ==> e in s.nodes[d].history
  }

  // Once every node knows every change, no message changes a leaf: leaves that differ between nodes
  // then stay different until somebody makes a new change.
  lemma {:induction false} SettledLeavesStay(s: System, steps: seq<Step>, device: string, p: Path, x: Json)
    requires Consistent(s) && Complete(s) && Quiet(steps)
    requires device in s.nodes && LeafAt(s.nodes[device].context.data, p, x)
    ensures device in Run(s, steps).nodes
    ensures LeafAt(Run(s, steps).nodes[device].context.data, p, x)
    decreases |steps|
  {
    if steps != [] {
      assert steps[0] in steps;
      StepConsistent(s, steps[0]);
      SettledStep(s, steps[0], device, p, x);
      SettledLeavesStay(Executed(s, steps[0]), steps[1..], device, p, x);
    }
  }

  lemma {:induction false} SettledStep(s: System, step: Step, device: string, p: Path, x: Json)
    requires Consistent(s) && Complete(s) && (step.Send? || step.Deliver?)
    requires device in s.nodes && LeafAt(s.nodes[device].context.data, p, x)
    ensures var t := Executed(s, step);
      Complete(t) && device in t.nodes && LeafAt(t.nodes[device].context.data, p, x)
  {
    if step.Deliver? && step.device in s.nodes && step.message in s.inFlight {
      var v, m := s.nodes[step.device], step.message;
      assert Present(s, v) && Present(s, m);
      ClockOrderIsHistoryInclusion(m, v, s.log);
      assert m.history <= v.history;
      if step.device == device {
        MergeByPath(v.context.data, m.context.data, p);
      }
    }
  }
}
