// Exactly which patches make the mesh eventually consistent.
module Contention {
  import opened JsonTrees
  import opened DeepMerges
  import opened Contexts
  import opened Replication
  import opened Convergence
  import opened Conflicts
  import opened Limits
  import opened Orders

  // A run of patches of the schema, followed by a full exchange.
  ghost predicate Exchanged(devices: map<string, nat>, before: seq<Step>, exchange: seq<Step>, schema: Schema) {
    && OnlyPatches(before, schema)
    && Quiet(exchange) && FullExchange(Run(Start(devices), before), exchange)
  }

  ghost predicate AllAgree(devices: map<string, nat>, steps: seq<Step>) {
    var s := Run(Start(devices), steps);
    forall i, j :: i in s.nodes && j in s.nodes ==> s.nodes[i].context.data == s.nodes[j].context.data
  }

  // However many devices there are and whatever they do within the schema, a full exchange leaves
  // them all with the same tree.
  ghost predicate Guaranteed(schema: Schema) {
    forall devices, before, exchange :: Exchanged(devices, before, exchange, schema) ==>
      AllAgree(devices, before + exchange)
  }

  // No two devices are created at one time, and every change is later than all that came before it.
  ghost predicate TimesGrow(devices: map<string, nat>, steps: seq<Step>) {
    && (forall i, j :: i in devices && j in devices && i != j ==> devices[i] != devices[j])
    && (forall d, k :: d in devices && 0 <= k < |steps| && Changes(steps[k]) ==> devices[d] < steps[k].now)
    && (forall k, l :: 0 <= k < l < |steps| && Changes(steps[k]) && Changes(steps[l]) ==> steps[k].now < steps[l].now)
  }

  predicate Changes(step: Step) {
    step.Update? || step.Replace?
  }

  // The same, of the runs in which all times differ and grow, as those of perfect clocks do.
  ghost predicate GuaranteedInTime(schema: Schema) {
    forall devices, before, exchange ::
      Exchanged(devices, before, exchange, schema) && TimesGrow(devices, before) ==>
        AllAgree(devices, before + exchange)
  }

  // The mesh is eventually consistent for the patches of a schema exactly if the schema has no
  // contended path, and perfect clocks make no difference to that.
  lemma {:induction false} EventualConsistencyIff(schema: Schema)
    requires Conforms(SKELETON, schema, [])
    ensures Guaranteed(schema) <==> forall p :: !Contended(schema, p)
    ensures GuaranteedInTime(schema) <==> forall p :: !Contended(schema, p)
  {
    if forall p :: !Contended(schema, p) {
      forall devices, before, exchange | Exchanged(devices, before, exchange, schema)
        ensures AllAgree(devices, before + exchange)
      {
        UncontendedAgree(devices, before, exchange, schema);
      }
    }
    if p :| Contended(schema, p) {
      var devices, before, exchange := ContendedRun(schema, p);
      assert Exchanged(devices, before, exchange, schema);
      assert !AllAgree(devices, before + exchange);
    }
  }

  lemma {:induction false} UncontendedAgree(devices: map<string, nat>, before: seq<Step>, exchange: seq<Step>,
                                            schema: Schema)
    requires Conforms(SKELETON, schema, []) && forall p :: !Contended(schema, p)
    requires Exchanged(devices, before, exchange, schema)
    ensures AllAgree(devices, before + exchange)
  {
    RunKeepsDevices(Start(devices), before + exchange);
    forall i, j | i in devices && j in devices
      ensures var s := Run(Start(devices), before + exchange);
        i in s.nodes && j in s.nodes && s.nodes[i].context.data == s.nodes[j].context.data
    {
      EventualConsistency(devices, before, exchange, schema, i, j);
    }
  }

  lemma {:induction false} NestedConforms(schema: Schema, p: Path, at: Path, x: Json)
    requires !x.Obj? && schema(at + p).LeafHere?
    requires forall n :: 0 <= n < |p| ==> schema(at + p[..n]).ObjectHere?
    ensures Conforms(Nested(p, x), schema, at)
    decreases |p|
  {
    if p == [] {
      assert at + p == at;
    } else {
      var next, rest := at + [p[0]], p[1..];
      assert at + p[..0] == at;
      assert next + rest == at + p;
      forall n | 0 <= n < |rest| ensures schema(next + rest[..n]).ObjectHere? {
        assert next + rest[..n] == at + p[..n + 1];
      }
      NestedConforms(schema, rest, next, x);
    }
  }

  // Two devices put different leaves at the contended path.
  lemma {:induction false} ContendedRun(schema: Schema, p: Path)
    returns (devices: map<string, nat>, before: seq<Step>, exchange: seq<Step>)
    requires Contended(schema, p)
    ensures Exchanged(devices, before, exchange, schema) && TimesGrow(devices, before)
    ensures Echoless(before + exchange)
    ensures !AllAgree(devices, before + exchange)
  {
    var i, j := "i", "j";
    var u, v := Nested(p, Bool(true)), Nested(p, Bool(false));
    NestedBothConform(schema, p);
    devices := map[i := 0, j := 1];
    var start := Start(devices);
    StartOfTwo(i, j);
    before, exchange := CrossingRun(start, i, j, u, v);
    CrossingIsOrderly(schema, i, j, u, v, before);
    RunConcat(start, before, exchange);
    LeavesCross(i, j, p, Bool(true), Bool(false));
  }

  lemma StartOfTwo(i: string, j: string)
    requires i != j
    ensures Start(map[i := 0, j := 1]).nodes == map[i := Version(Fresh(i, 0), {}), j := Version(Fresh(j, 1), {})]
  {
  }

  // i patches, j patches after that, i again after that, and all is sent. Then i hears j, and j hears
  // i twice.
  lemma {:induction false} CrossingRun(s: System, i: string, j: string, p: Json, q: Json)
    returns (before: seq<Step>, exchange: seq<Step>)
    requires i != j && s.nodes.Keys == {i, j} && Named(s)
    ensures before == [Update(i, p, 10), Send(i), Update(j, q, 20), Send(j), Update(i, p, 30), Send(i)]
    ensures Quiet(exchange) && Echoless(before + exchange) && FullExchange(Run(s, before), exchange)
    ensures var t := Run(Run(s, before), exchange);
      var c1, d := Next(s.nodes[i].context, p, 10), Next(s.nodes[j].context, q, 20);
      var c2 := Next(c1, p, 30);
      && i in t.nodes && t.nodes[i].context == Merged(c2, d)
      && j in t.nodes && t.nodes[j].context == Merged(Merged(d, c1), c2)
  {
    var m1, mj, m2;
    before, m1, mj, m2 := CrossingPatches(s, i, j, p, q);
    assert Run(s, before).nodes == map[i := m2, j := mj];
    exchange := CrossingExchange(Run(s, before), i, j, m1, mj, m2);
    CrossingHasNoEcho(before, exchange);
  }

  lemma {:induction false} CrossingExchange(s: System, i: string, j: string, m1: Version, mj: Version, m2: Version)
    returns (exchange: seq<Step>)
    requires i != j && s.nodes == map[i := m2, j := mj]
    requires m1 in s.inFlight && mj in s.inFlight && m2 in s.inFlight
    requires m1.context.deviceId == m2.context.deviceId == i && mj.context.deviceId == j
    ensures Quiet(exchange) && Echoless(exchange) && FullExchange(s, exchange)
    ensures var t := Run(s, exchange);
      && i in t.nodes && t.nodes[i].context == Merged(m2.context, mj.context)
      && j in t.nodes && t.nodes[j].context == Merged(Merged(mj.context, m1.context), m2.context)
  {
    exchange := [Deliver(i, mj)] + [Deliver(j, m1), Deliver(j, m2)];
    CrossingIsFull(s, i, j, m1, mj, m2, exchange);
    CrossingDeliveries(s, i, j, m1, mj, m2);
  }

  lemma {:induction false} CrossingPatches(s: System, i: string, j: string, p: Json, q: Json)
    returns (before: seq<Step>, m1: Version, mj: Version, m2: Version)
    requires i != j && s.nodes.Keys == {i, j}
    ensures before == [Update(i, p, 10), Send(i), Update(j, q, 20), Send(j), Update(i, p, 30), Send(i)]
    ensures m1.context == Next(s.nodes[i].context, p, 10)
    ensures mj.context == Next(s.nodes[j].context, q, 20)
    ensures m2.context == Next(m1.context, p, 30)
    ensures var t := Run(s, before);
      && t.nodes == s.nodes[i := m2][j := mj]
      && m1 in t.inFlight && mj in t.inFlight && m2 in t.inFlight
  {
    var first, second, third;
    first, m1 := PatchAndPublish(s, i, p, 10);
    var s1 := Run(s, first);
    second, mj := PatchAndPublish(s1, j, q, 20);
    var s2 := Run(s1, second);
    third, m2 := PatchAndPublish(s2, i, p, 30);
    before := (first + second) + third;
    RunConcat(s, first, second);
    RunConcat(s, first + second, third);
  }

  lemma {:induction false} CrossingDeliveries(s: System, i: string, j: string, m1: Version, mj: Version, m2: Version)
    requires i != j && s.nodes == map[i := m2, j := mj]
    requires m1 in s.inFlight && mj in s.inFlight && m2 in s.inFlight
    ensures var t := Run(s, [Deliver(i, mj)] + [Deliver(j, m1), Deliver(j, m2)]);
      && i in t.nodes && t.nodes[i].context == Merged(m2.context, mj.context)
      && j in t.nodes && t.nodes[j].context == Merged(Merged(mj.context, m1.context), m2.context)
  {
    HearsOne(s, i, mj);
    var t := Run(s, [Deliver(i, mj)]);
    assert t.nodes[j] == mj;
    HearsBoth(t, j, m1, m2);
    RunConcat(s, [Deliver(i, mj)], [Deliver(j, m1), Deliver(j, m2)]);
  }

  lemma {:induction false} CrossingIsFull(s: System, i: string, j: string, m1: Version, mj: Version, m2: Version,
                                          exchange: seq<Step>)
    requires s.nodes == map[i := m2, j := mj] && mj in s.inFlight && m2 in s.inFlight
    requires exchange == [Deliver(i, mj), Deliver(j, m1), Deliver(j, m2)]
    requires m1.context.deviceId == m2.context.deviceId == i && mj.context.deviceId == j && i != j
    ensures Quiet(exchange) && Echoless(exchange) && FullExchange(s, exchange)
  {
    assert exchange[0] == Deliver(i, mj) && exchange[2] == Deliver(j, m2);
    assert mj.history <= mj.history && m2.history <= m2.history;
    forall d, e | d in s.nodes && e in s.nodes && d != e ensures Hears(s, exchange, d, e) {
      var k, m := if d == i then 0 else 2, if d == i then mj else m2;
      assert exchange[k] == Deliver(d, m);
    }
  }

  lemma {:induction false} CrossingHasNoEcho(before: seq<Step>, exchange: seq<Step>)
    requires forall step :: step in before ==> !step.Deliver?
    requires Echoless(exchange)
    ensures Echoless(before + exchange)
  {
  }

  lemma {:induction false} CrossingIsOrderly(schema: Schema, i: string, j: string, p: Json, q: Json, before: seq<Step>)
    requires i != j && Conforms(p, schema, []) && Conforms(q, schema, [])
    requires before == [Update(i, p, 10), Send(i), Update(j, q, 20), Send(j), Update(i, p, 30), Send(i)]
    ensures OnlyPatches(before, schema) && TimesGrow(map[i := 0, j := 1], before)
  {
  }

  // The older context wins at both ends, but it is not the same one.
  lemma {:induction false} LeavesCross(i: string, j: string, p: Path, x: Json, y: Json)
    requires i != j && !x.Obj? && !y.Obj?
    ensures var c1, d := Next(Fresh(i, 0), Nested(p, x), 10), Next(Fresh(j, 1), Nested(p, y), 20);
      var c2 := Next(c1, Nested(p, x), 30);
      && LeafAt(Merged(c2, d).data, p, y)
      && LeafAt(Merged(Merged(d, c1), c2).data, p, x)
  {
    var c1, d := Next(Fresh(i, 0), Nested(p, x), 10), Next(Fresh(j, 1), Nested(p, y), 20);
    var c2 := Next(c1, Nested(p, x), 30);
    NestedHolds(p, x);
    NestedHolds(p, y);
    PatchByPath(SKELETON, Nested(p, x), p);
    PatchByPath(SKELETON, Nested(p, y), p);
    AheadOf(c1.clock, d.clock, i);
    AheadOf(c2.clock, d.clock, i);
    AheadOf(d.clock, c1.clock, j);
    AheadOf(d.clock, c2.clock, j);
    OlderLeafWins(c2, d, p, y);
    OlderLeafWins(d, c1, p, x);
    var e := Merged(d, c1);
    MergedGet(d, c1, j);
    AheadOf(e.clock, c2.clock, j);
    LeafSurvives(e, c2, p, x);
  }

  lemma {:induction false} NestedBothConform(schema: Schema, p: Path)
    requires Contended(schema, p)
    ensures Conforms(Nested(p, Bool(true)), schema, []) && Conforms(Nested(p, Bool(false)), schema, [])
  {
    assert [] + p == p;
    forall n | 0 <= n < |p| ensures schema([] + p[..n]).ObjectHere? {
      assert [] + p[..n] == p[..n];
    }
    NestedConforms(schema, p, [], Bool(true));
    NestedConforms(schema, p, [], Bool(false));
  }
}
