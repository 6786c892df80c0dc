// What the age of a change means for later merges, and runs of three devices in which the order of
// delivery decides what one of them ends with.
module Orders {
  import opened Wrappers
  import opened JsonTrees
  import opened Clocks
  import opened Contexts
  import opened Conflicts
  import opened Replication
  import opened Convergence
  import opened Limits

  function Triple(i: string, j: string, k: string): map<string, nat> {
    map[i := 0, j := 0, k := 0]
  }

  // A device patches its context and sends it.
  lemma {:induction false} PatchAndPublish(s: System, d: string, patch: Json, now: nat)
    returns (steps: seq<Step>, m: Version)
    requires d in s.nodes
    ensures steps == [Update(d, patch, now), Send(d)]
    ensures m.context == Next(s.nodes[d].context, patch, now)
    ensures var t := Run(s, steps);
      t.nodes == s.nodes[d := m] && t.inFlight == s.inFlight + {m}
  {
    m := Version(Next(s.nodes[d].context, patch, now), s.nodes[d].history + {|s.log|});
    steps := [Update(d, patch, now), Send(d)] + [];
    TwoSteps(s, Update(d, patch, now), Send(d), []);
  }

  // A device sends its context as it is.
  lemma {:induction false} Publish(s: System, d: string) returns (steps: seq<Step>)
    requires d in s.nodes
    ensures var t := Run(s, steps);
      t.nodes == s.nodes && t.inFlight == s.inFlight + {s.nodes[d]}
  {
    steps := [Send(d)] + [];
    RunStep(s, Send(d), []);
  }

  lemma {:induction false} HearsOne(s: System, d: string, m: Version)
    requires d in s.nodes && m in s.inFlight
    ensures var t := Run(s, [Deliver(d, m)]);
      t.nodes == s.nodes[d := Received(s.nodes[d], m)] && t.inFlight == s.inFlight
  {
    assert [Deliver(d, m)] + [] == [Deliver(d, m)];
    RunStep(s, Deliver(d, m), []);
  }

  lemma {:induction false} HearsBoth(s: System, d: string, m: Version, n: Version)
    requires d in s.nodes && m in s.inFlight && n in s.inFlight
    ensures var t := Run(s, [Deliver(d, m), Deliver(d, n)]);
      t.nodes == s.nodes[d := Received(Received(s.nodes[d], m), n)] && t.inFlight == s.inFlight
  {
    HearsOne(s, d, m);
    var t := Run(s, [Deliver(d, m)]);
    HearsOne(t, d, n);
    RunConcat(s, [Deliver(d, m)], [Deliver(d, n)]);
    assert [Deliver(d, m)] + [Deliver(d, n)] == [Deliver(d, m), Deliver(d, n)];
  }

  // ----- The age of a change

  // The step changes the device's context or hands it another one.
  predicate Disturbs(step: Step, d: string) {
    step.device == d && !step.Send?
  }

  lemma {:induction false} UndisturbedStays(s: System, steps: seq<Step>, d: string)
    requires d in s.nodes && forall step :: step in steps ==> !Disturbs(step, d)
    ensures d in Run(s, steps).nodes && Run(s, steps).nodes[d] == s.nodes[d]
    decreases |steps|
  {
    if steps != [] {
      assert steps[0] in steps;
      UndisturbedStays(Executed(s, steps[0]), steps[1..], d);
    }
  }

  // After a patch or a replacement, until it is disturbed, a device's context is as old as that change,
  // whatever its age was before; and a replacement is all that it holds.
  lemma {:induction false} AgeOfLastChange(s: System, before: seq<Step>, change: Step, after: seq<Step>)
    requires change.device in s.nodes && (change.Update? || change.Replace?)
    requires forall step :: step in after ==> !Disturbs(step, change.device)
    ensures var t := Run(s, before + [change] + after);
      && change.device in t.nodes
      && t.nodes[change.device].context.timestamp == change.now
      && (change.Replace? ==> t.nodes[change.device].context.data == change.data)
  {
    var t := Run(s, before);
    RunConcat(s, before, [change]);
    RunConcat(s, before + [change], after);
    RunKeepsDevices(s, before);
    assert [change] + [] == [change];
    RunStep(t, change, []);
    UndisturbedStays(Executed(t, change), after, change.device);
  }

  // Until then it is as old as the device, knows of no change, and holds no leaf.
  lemma {:induction false} AgeBeforeAnyChange(devices: map<string, nat>, steps: seq<Step>, d: string)
    requires d in devices && forall step :: step in steps ==> !Disturbs(step, d)
    ensures var s := Run(Start(devices), steps);
      && d in s.nodes
      && s.nodes[d].context.deviceId == d
      && s.nodes[d].context.timestamp == devices[d]
      && (forall actor :: Get(s.nodes[d].context.clock, actor) == 0)
      && (forall p, x :: !LeafAt(s.nodes[d].context.data, p, x))
  {
    UndisturbedStays(Start(devices), steps, d);
    forall p, x ensures !LeafAt(SKELETON, p, x) {
      SkeletonHasNoLeaves(p, x);
    }
  }

  // A change that leaves x at p meets a concurrent context with another leaf there: at either end the
  // other leaf wins exactly if that context is older than the change. (At equal age each keeps its own.)
  lemma {:induction false} ChangeMeetsLeafIff(s: System, change: Step, b: Context, p: Path, x: Json, y: Json)
    requires change.device in s.nodes && (change.Update? || change.Replace?)
    requires var c := Executed(s, change).nodes[change.device].context;
      LeafAt(c.data, p, x) && Compare(c.clock, b.clock) == None
    requires LeafAt(b.data, p, y) && x != y
    ensures var c := Executed(s, change).nodes[change.device].context;
      && (LeafAt(Merged(c, b).data, p, y) <==> b.timestamp < change.now)
      && (LeafAt(Merged(c, b).data, p, x) <==> b.timestamp >= change.now)
      && (LeafAt(Merged(b, c).data, p, x) <==> b.timestamp > change.now)
      && (LeafAt(Merged(b, c).data, p, y) <==> b.timestamp <= change.now)
  {
    var c := Executed(s, change).nodes[change.device].context;
    LeafOverwrittenIff(c, b, p, x, y);
    CompareDual(c.clock, b.clock);
    LeafOverwrittenIff(b, c, p, y, x);
  }

  // ----- Three writers

  // Each of three devices patches once.
  lemma {:induction false} ThreePatches(i: string, j: string, k: string, p: Json, q: Json, r: Json)
    returns (steps: seq<Step>, mi: Version, mj: Version, mk: Version)
    requires i != j && j != k && i != k
    ensures mi.context == Next(Fresh(i, 0), p, 3)
    ensures mj.context == Next(Fresh(j, 0), q, 1)
    ensures mk.context == Next(Fresh(k, 0), r, 2)
    ensures var s := Run(Start(Triple(i, j, k)), steps);
      && i in s.nodes && s.nodes[i] == mi
      && mj in s.inFlight && mk in s.inFlight
  {
    var s0 := Start(Triple(i, j, k));
    var first, second, third;
    first, mi := PatchAndPublish(s0, i, p, 3);
    var s1 := Run(s0, first);
    second, mj := PatchAndPublish(s1, j, q, 1);
    var s2 := Run(s1, second);
    third, mk := PatchAndPublish(s2, k, r, 2);
    steps := (first + second) + third;
    RunConcat(s0, first, second);
    RunConcat(s0, first + second, third);
  }

  lemma {:induction false} OnceTicked(i: string, patch: Json, now: nat)
    ensures Get(Next(Fresh(i, 0), patch, now).clock, i) == 1
    ensures forall d :: d != i ==> Get(Next(Fresh(i, 0), patch, now).clock, d) == 0
  {
  }

  // i and k write one key, j, earlier than both, another. What i ends with depends on whether it hears
  // j first or k.
  lemma {:induction false} OrderDecidesRun(i: string, j: string, k: string, key: string, other: string,
                                           x: string, y: string)
    returns (steps: seq<Step>, mj: Version, mk: Version)
    requires i != j && j != k && i != k && key != other && key != "avi"
    ensures var s := Run(Start(Triple(i, j, k)), steps);
      && mj in s.inFlight && mk in s.inFlight
      && var jFirst := Run(s, [Deliver(i, mj), Deliver(i, mk)]);
         var kFirst := Run(s, [Deliver(i, mk), Deliver(i, mj)]);
      && i in jFirst.nodes && LeafAt(jFirst.nodes[i].context.data, [key], Text(x))
      && i in kFirst.nodes && LeafAt(kFirst.nodes[i].context.data, [key], Text(y))
  {
    var mi;
    steps, mi, mj, mk := ThreePatches(i, j, k, One(key, x), One(other, x), One(key, y));
    var s := Run(Start(Triple(i, j, k)), steps);
    var a, b, c := mi.context, mj.context, mk.context;
    HearsBoth(s, i, mj, mk);
    HearsBoth(s, i, mk, mj);
    OnceTicked(i, One(key, x), 3);
    OnceTicked(j, One(other, x), 1);
    OnceTicked(k, One(key, y), 2);
    ThreeConcurrent(a, b, c, i, j, k);
    PatchedLookup(SKELETON, key, x, key);
    PatchedLookup(SKELETON, other, x, key);
    PatchedLookup(SKELETON, key, y, key);
    assert !Cut(b.data, [key]);
    OrderMatters(a, b, c, [key], Text(x), Text(y));
    MergeAllTwo(a, b, c);
    MergeAllTwo(a, c, b);
  }

  // ----- A relay

  lemma MergedGet(a: Context, b: Context, d: string)
    ensures Get(Merged(a, b).clock, d) ==
            if Get(a.clock, d) >= Get(b.clock, d) then Get(a.clock, d) else Get(b.clock, d)
  {
    MergedClockIsJoin(a, b);
    JoinPointwise(a.clock, b.clock, d);
    assert Get(Merged(a, b).clock, d) <= Get(Join(a.clock, b.clock), d);
    assert Get(Join(a.clock, b.clock), d) <= Get(Merged(a, b).clock, d);
  }

  // What k holds when it has heard the first contexts of i and j.
  ghost function Relayed(k: string, a1: Context, b1: Context): Context {
    Merged(Merged(Fresh(k, 0), a1), b1)
  }

  lemma {:induction false} RelayedClock(k: string, a1: Context, b1: Context, d: string)
    ensures var (n, m) := (Get(a1.clock, d), Get(b1.clock, d));
      Get(Relayed(k, a1, b1).clock, d) == if n >= m then n else m
  {
    MergedGet(Fresh(k, 0), a1, d);
    MergedGet(Merged(Fresh(k, 0), a1), b1, d);
  }

  lemma {:induction false} RelayedKeepsLeaf(i: string, j: string, k: string, p: Json, q: Json, at: Path, x: Json)
    requires i != j
    requires var a1 := Next(Fresh(i, 0), p, 1); LeafAt(a1.data, at, x)
    ensures var c := Relayed(k, Next(Fresh(i, 0), p, 1), Next(Fresh(j, 0), q, 1));
      c.timestamp == 1 && LeafAt(c.data, at, x)
  {
    var a1, b1 := Next(Fresh(i, 0), p, 1), Next(Fresh(j, 0), q, 1);
    var c1 := Merged(Fresh(k, 0), a1);
    OnceTicked(i, p, 1);
    OnceTicked(j, q, 1);
    AheadOf(a1.clock, Fresh(k, 0).clock, i);
    assert c1.data == a1.data && c1.timestamp == 1;
    MergedGet(Fresh(k, 0), a1, i);
    MergedGet(Fresh(k, 0), a1, j);
    AheadOf(c1.clock, b1.clock, i);
    AheadOf(b1.clock, c1.clock, j);
    LeafSurvives(c1, b1, at, x);
  }

  // i and j each patch twice; k knows the first of each.
  lemma {:induction false} RelayedIsCovered(i: string, j: string, k: string, p: Json, q: Json, p': Json, q': Json)
    requires i != j && j != k && i != k
    ensures var a1, b1 := Next(Fresh(i, 0), p, 1), Next(Fresh(j, 0), q, 1);
      var a, b, c := Next(a1, p', 5), Next(b1, q', 6), Relayed(k, a1, b1);
      MutuallyConcurrent(a, b, c) && Leq(c.clock, Join(a.clock, b.clock))
  {
    var a1, b1 := Next(Fresh(i, 0), p, 1), Next(Fresh(j, 0), q, 1);
    var a, b, c := Next(a1, p', 5), Next(b1, q', 6), Relayed(k, a1, b1);
    OnceTicked(i, p, 1);
    OnceTicked(j, q, 1);
    RelayedClock(k, a1, b1, i);
    RelayedClock(k, a1, b1, j);
    AheadOf(a.clock, b.clock, i);
    AheadOf(b.clock, a.clock, j);
    AheadOf(a.clock, c.clock, i);
    AheadOf(c.clock, a.clock, j);
    AheadOf(b.clock, c.clock, j);
    AheadOf(c.clock, b.clock, i);
    forall d ensures Get(c.clock, d) <= Get(Join(a.clock, b.clock), d) {
      RelayedClock(k, a1, b1, d);
      JoinPointwise(a.clock, b.clock, d);
    }
  }

  // i and j patch and send, k hears both and sends, i and j patch again, and j sends.
  lemma {:induction false} RelayRun(i: string, j: string, k: string, p: Json, q: Json, p': Json, q': Json)
    returns (steps: seq<Step>, mj: Version, mk: Version)
    requires i != j && j != k && i != k
    ensures var a1, b1 := Next(Fresh(i, 0), p, 1), Next(Fresh(j, 0), q, 1);
      var s := Run(Start(Triple(i, j, k)), steps);
      && mj in s.inFlight && mk in s.inFlight && i in s.nodes
      && s.nodes[i].context == Next(a1, p', 5) && mj.context == Next(b1, q', 6) && mk.context == Relayed(k, a1, b1)
  {
    var s0 := Start(Triple(i, j, k));
    var first, second, fourth, fifth, sixth, m1, m2, mi;
    first, m1 := PatchAndPublish(s0, i, p, 1);
    var s1 := Run(s0, first);
    second, m2 := PatchAndPublish(s1, j, q, 1);
    var s2 := Run(s1, second);
    var third := [Deliver(k, m1), Deliver(k, m2)];
    HearsBoth(s2, k, m1, m2);
    var s3 := Run(s2, third);
    mk := s3.nodes[k];
    fourth := Publish(s3, k);
    var s4 := Run(s3, fourth);
    fifth, mi := PatchAndPublish(s4, i, p', 5);
    var s5 := Run(s4, fifth);
    sixth, mj := PatchAndPublish(s5, j, q', 6);
    steps := ((((first + second) + third) + fourth) + fifth) + sixth;
    RunConcat(s0, first, second);
    RunConcat(s0, first + second, third);
    RunConcat(s0, (first + second) + third, fourth);
    RunConcat(s0, ((first + second) + third) + fourth, fifth);
    RunConcat(s0, (((first + second) + third) + fourth) + fifth, sixth);
  }

  // k relays i's first value, older than anything sent since. i takes it back over its own later
  // value, unless it has heard j's newer context before.
  lemma {:induction false} RelayedValueRun(i: string, j: string, k: string, key: string, other: string,
                                           x: string, y: string)
    returns (steps: seq<Step>, mj: Version, mk: Version)
    requires i != j && j != k && i != k
    ensures var s := Run(Start(Triple(i, j, k)), steps);
      && mj in s.inFlight && mk in s.inFlight
      && var both, one := Run(s, [Deliver(i, mj), Deliver(i, mk)]), Run(s, [Deliver(i, mk)]);
      && i in both.nodes && LeafAt(both.nodes[i].context.data, [key], Text(y))
      && i in one.nodes && LeafAt(one.nodes[i].context.data, [key], Text(x))
  {
    var p, q, p' := One(key, x), One(other, x), One(key, y);
    steps, mj, mk := RelayRun(i, j, k, p, q, p', q);
    var s := Run(Start(Triple(i, j, k)), steps);
    var a1, b1 := Next(Fresh(i, 0), p, 1), Next(Fresh(j, 0), q, 1);
    var a, b, c := Next(a1, p', 5), Next(b1, q, 6), Relayed(k, a1, b1);
    HearsBoth(s, i, mj, mk);
    HearsOne(s, i, mk);
    PatchedLookup(SKELETON, key, x, key);
    PatchedLookup(a1.data, key, y, key);
    RelayedKeepsLeaf(i, j, k, p, q, [key], Text(x));
    RelayedIsCovered(i, j, k, p, q, p', q);
    CoveredOldestLoses(a, b, c, [key], Text(y), Text(x));
    MergeAllTwo(a, b, c);
    assert [c][1..] == [] && MergeAll(a, [c]) == MergeAll(Merged(a, c), []);
  }
}
