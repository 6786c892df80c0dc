// Runs and merges that show where the guarantees of the context engine stop.
module Limits {
  import opened Wrappers
  import opened JsonTrees
  import opened DeepMerges
  import opened Clocks
  import opened Contexts
  import opened Replication
  import opened Convergence
  import opened Conflicts

  function One(key: string, value: string): Json {
    Obj(map[key := Text(value)])
  }

  lemma PatchedLookup(t: Json, key: string, value: string, other: string)
    requires t.Obj?
    ensures Lookup(DeepMerge(t, One(key, value), false), [other]) ==
            if other == key then Some(Text(value)) else Lookup(t, [other])
  {
  }

  lemma RunStep(s: System, step: Step, rest: seq<Step>)
    ensures Run(s, [step] + rest) == Run(Executed(s, step), rest)
  {
  }

  // deep_merge is not associative: a leaf in the middle shields the first tree from the third.
  lemma MergeNotAssociative()
    ensures exists a, b, c :: !Associates(a, b, c)
  {
    var a, b, c := EMPTY_OBJECT, Null, One("k", "v");
    MergeAssociativeIff(a, b, c);
    assert "k" in c.fields;
    assert Obstructs(a, b, c, []);
    assert !Associates(a, b, c);
  }

  // merge can announce an update that changed nothing: the message is older, differs, and is absorbed.
  lemma UpdateReportedWithoutChange() returns (a: Context, m: Context)
    ensures Compare(a.clock, m.clock) == Some(Greater)
    ensures Reported(a, m) && Merged(a, m) == a
  {
    a := Context("a", 0, map["a" := 1], One("k", "v"));
    m := Context("b", 0, map[], EMPTY_OBJECT);
    AheadOf(a.clock, m.clock, "a");
    assert "k" in a.data.fields;
    assert Absorbs(a.data, m.data);
    StaleDeliveryIsNoOpIff(a, m);
  }

  // It can also be concurrent and win by its age, with a tree that is already contained.
  lemma ConcurrentUpdateWithoutChange() returns (a: Context, m: Context)
    ensures Compare(a.clock, m.clock) == None && !PrefersSelf(a, m)
    ensures Reported(a, m) && Merged(a, m).data == a.data
  {
    a := Context("a", 5, map["a" := 1], One("k", "v"));
    m := Context("b", 1, map["b" := 1], EMPTY_OBJECT);
    AheadOf(a.clock, m.clock, "a");
    AheadOf(m.clock, a.clock, "b");
    assert "k" in a.data.fields;
    assert Contains(a.data, m.data);
    ReportIsRightIff(a, m);
  }

  lemma TwoSteps(s: System, first: Step, second: Step, rest: seq<Step>)
    ensures Run(s, [first, second] + rest) == Run(Executed(Executed(s, first), second), rest)
  {
  }

  function Pair(i: string, j: string): map<string, nat> {
    map[i := 0, j := 0]
  }

  // Two nodes that know of no change yet.
  ghost predicate Two(s: System, i: string, j: string) {
    && i != j && s.nodes.Keys == {i, j} && s.log == []
    && s.nodes[i].history == {} && s.nodes[j].history == {}
  }

  lemma StartIsTwo(i: string, j: string)
    requires i != j
    ensures Two(Start(Pair(i, j)), i, j)
    ensures Start(Pair(i, j)).nodes[i].context == Fresh(i, 0)
    ensures Start(Pair(i, j)).nodes[j].context == Fresh(j, 0)
  {
  }

  // One's own next context after a patch.
  function Next(c: Context, patch: Json, now: nat): Context {
    Ticked(Patched(c, patch, now))
  }

  // ----- Equal ages

  // Both nodes patch, both send, both hear the other.
  lemma ExchangeRun(s: System, i: string, j: string, p: Json, q: Json, now: nat) returns (steps: seq<Step>)
    requires Two(s, i, j)
    ensures var t := Run(s, steps);
      var c, d := Next(s.nodes[i].context, p, now), Next(s.nodes[j].context, q, now);
      && t.nodes.Keys == {i, j}
      && t.nodes[i].context == Merged(c, d) && t.nodes[j].context == Merged(d, c)
      && Complete(t)
  {
    var u, v := Version(Next(s.nodes[i].context, p, now), {0}), Version(Next(s.nodes[j].context, q, now), {1});
    var s2 := BothPatch(s, i, j, p, q, now);
    var s4 := Executed(Executed(s2, Send(i)), Send(j));
    BothSend(s2, i, j);
    BothHear(s4, i, j, u, v);
    var deliveries := [Deliver(i, v), Deliver(j, u)] + [];
    var rest := [Send(i), Send(j)] + deliveries;
    steps := [Update(i, p, now), Update(j, q, now)] + rest;
    TwoSteps(s, Update(i, p, now), Update(j, q, now), rest);
    TwoSteps(s2, Send(i), Send(j), deliveries);
    TwoSteps(s4, Deliver(i, v), Deliver(j, u), []);
  }

  lemma BothPatch(s: System, i: string, j: string, p: Json, q: Json, now: nat) returns (t: System)
    requires Two(s, i, j)
    ensures t == Executed(Executed(s, Update(i, p, now)), Update(j, q, now))
    ensures |t.log| == 2
    ensures t.nodes == map[i := Version(Next(s.nodes[i].context, p, now), {0}),
                           j := Version(Next(s.nodes[j].context, q, now), {1})]
  {
    t := Executed(Executed(s, Update(i, p, now)), Update(j, q, now));
    assert {} + {0} == {0} && {} + {1} == {1};
  }

  lemma BothSend(s: System, i: string, j: string)
    requires i in s.nodes && j in s.nodes
    ensures var t := Executed(Executed(s, Send(i)), Send(j));
      t.nodes == s.nodes && t.log == s.log && s.nodes[i] in t.inFlight && s.nodes[j] in t.inFlight
  {
  }

  lemma BothHear(s: System, i: string, j: string, u: Version, v: Version)
    requires i != j && s.nodes == map[i := u, j := v] && u in s.inFlight && v in s.inFlight
    ensures var t := Executed(Executed(s, Deliver(i, v)), Deliver(j, u));
      && t.nodes == map[i := Received(u, v), j := Received(v, u)]
      && t.log == s.log
  {
  }

  lemma NextConcurrent(c: Context, d: Context, p: Json, q: Json, now: nat)
    requires c.deviceId != d.deviceId && c.clock == d.clock == map[]
    ensures Compare(Next(c, p, now).clock, Next(d, q, now).clock) == None
  {
    AheadOf(Next(c, p, now).clock, Next(d, q, now).clock, c.deviceId);
    AheadOf(Next(d, q, now).clock, Next(c, p, now).clock, d.deviceId);
  }

  // At equal ages each side of an exchange keeps its own leaf.
  lemma {:induction false} EachKeepsItsOwn(c: Context, d: Context, key: string, x: string, y: string, now: nat)
    requires c.deviceId != d.deviceId && c.clock == d.clock == map[] && c.data.Obj? && d.data.Obj?
    ensures var a, b := Next(c, One(key, x), now), Next(d, One(key, y), now);
      LeafAt(Merged(a, b).data, [key], Text(x))
  {
    var a, b := Next(c, One(key, x), now), Next(d, One(key, y), now);
    NextConcurrent(c, d, One(key, x), One(key, y), now);
    PatchedLookup(c.data, key, x, key);
    LeafSurvives(a, b, [key], Text(x));
  }

  // Two nodes write different values to one key in the same second and hear each other: their
  // clocks are equal, and no messages ever repair the difference.
  lemma {:induction false} EqualAgesNeverSettle(i: string, j: string, key: string, x: string, y: string, now: nat,
                                                more: seq<Step>)
    returns (steps: seq<Step>)
    requires i != j && x != y && Quiet(more)
    ensures var s := Run(Start(Pair(i, j)), steps);
      && i in s.nodes && j in s.nodes
      && SameClock(s.nodes[i].context.clock, s.nodes[j].context.clock)
    ensures var s := Run(Start(Pair(i, j)), steps + more);
      && i in s.nodes && j in s.nodes
      && LeafAt(s.nodes[i].context.data, [key], Text(x))
      && LeafAt(s.nodes[j].context.data, [key], Text(y))
  {
    var start := Start(Pair(i, j));
    StartIsTwo(i, j);
    steps := ExchangeRun(start, i, j, One(key, x), One(key, y), now);
    ExchangeAlignsClocks(Next(Fresh(i, 0), One(key, x), now), Next(Fresh(j, 0), One(key, y), now));
    EachKeepsItsOwn(Fresh(i, 0), Fresh(j, 0), key, x, y, now);
    EachKeepsItsOwn(Fresh(j, 0), Fresh(i, 0), key, y, x, now);
    StartConsistent(Pair(i, j));
    RunConsistent(start, steps);
    RunConcat(start, steps, more);
    SettledLeavesStay(Run(start, steps), more, i, [key], Text(x));
    SettledLeavesStay(Run(start, steps), more, j, [key], Text(y));
  }

  // ----- Deletion

  // i writes a key and deletes it again, sending both times.
  lemma WriteAndDelete(s: System, i: string, j: string, p: Json, t: Json) returns (steps: seq<Step>,
                       m1: Version, m2: Version)
    requires Two(s, i, j)
    ensures m1.context == Next(s.nodes[i].context, p, 1)
    ensures m2.context == Ticked(Replaced(m1.context, t, 2))
    ensures var r := Run(s, steps);
      && r.nodes.Keys == {i, j} && r.nodes[i] == m2 && r.nodes[j] == s.nodes[j]
      && m1 in r.inFlight && m2 in r.inFlight
      && r.log == [Command(i, false, p), Command(i, true, t)]
  {
    m1 := Version(Next(s.nodes[i].context, p, 1), {0});
    m2 := Version(Ticked(Replaced(m1.context, t, 2)), {0, 1});
    var s2 := Executed(Executed(s, Update(i, p, 1)), Send(i));
    var rest := [Replace(i, t, 2), Send(i)] + [];
    steps := [Update(i, p, 1), Send(i)] + rest;
    TwoSteps(s, Update(i, p, 1), Send(i), rest);
    TwoSteps(s2, Replace(i, t, 2), Send(i), []);
    assert s2.nodes[i] == m1 && m1 in s2.inFlight && s2.log == [Command(i, false, p)];
    assert {0} + {1} == {0, 1};
  }

  // j hears both messages, and then the first one again.
  lemma HearsTwiceThenOnce(s: System, j: string, m1: Version, m2: Version) returns (steps: seq<Step>)
    requires j in s.nodes && m1 in s.inFlight && m2 in s.inFlight
    ensures var r := Run(s, steps);
      r.log == s.log && r.nodes == s.nodes[j := Received(Received(Received(s.nodes[j], m1), m2), m1)]
  {
    var s2 := Executed(Executed(s, Deliver(j, m1)), Deliver(j, m2));
    var last := [Deliver(j, m1)] + [];
    steps := [Deliver(j, m1), Deliver(j, m2)] + last;
    TwoSteps(s, Deliver(j, m1), Deliver(j, m2), last);
    RunStep(s2, Deliver(j, m1), []);
  }

  // With both of another device's contexts merged, the older one still adds what the newer dropped.
  lemma {:induction false} OldContextRestores(b: Context, c1: Context, c2: Context, key: string)
    requires Compare(b.clock, c1.clock) == Compare(c1.clock, c2.clock) == Some(Less)
    requires HasPath(c1.data, [key]) && !HasPath(c2.data, [key]) && !Cut(c2.data, [key])
    ensures var r := Merged(Merged(Merged(b, c1), c2), c1);
      SameClock(r.clock, c2.clock) && HasPath(r.data, [key])
  {
    TakesOver(b, c1);
    var b1 := Merged(b, c1);
    SameClockOrders(b1.clock, c1.clock, c2.clock);
    TakesOver(b1, c2);
    var b2 := Merged(b1, c2);
    SameClockOrders(b2.clock, c2.clock, c1.clock);
    MergeByPath(b2.data, c1.data, [key]);
  }

  // A newer context is taken over whole.
  lemma {:induction false} TakesOver(b: Context, c: Context)
    requires Leq(b.clock, c.clock) && !Leq(c.clock, b.clock)
    ensures Merged(b, c).data == c.data && SameClock(Merged(b, c).clock, c.clock)
  {
  }

  lemma {:induction false} SameClockOrders(c: Clock, d: Clock, e: Clock)
    requires SameClock(c, d)
    ensures (Leq(c, e) <==> Leq(d, e)) && (Leq(e, c) <==> Leq(e, d))
  {
  }

  // Nobody but i changes anything, and j has heard of the deletion; the repeated old message brings
  // the key back at j without any conflict, and leaves both nodes at equal clocks.
  lemma {:induction false} RepeatedMessageUndoesDeletion(i: string, j: string, key: string, x: string)
    returns (steps: seq<Step>)
    requires i != j && key != "avi"
    ensures var s := Run(Start(Pair(i, j)), steps);
      && i in s.nodes && j in s.nodes
      && (forall c :: c in s.log ==> c.device == i)
      && SameClock(s.nodes[i].context.clock, s.nodes[j].context.clock)
      && !HasPath(s.nodes[i].context.data, [key])
      && HasPath(s.nodes[j].context.data, [key])
  {
    var start := Start(Pair(i, j));
    StartIsTwo(i, j);
    var first, m1, m2 := WriteAndDelete(start, i, j, One(key, x), SKELETON);
    var second := HearsTwiceThenOnce(Run(start, first), j, m1, m2);
    steps := first + second;
    RunConcat(start, first, second);
    DeletionRestored(i, j, key, x);
  }

  lemma {:induction false} DeletionRestored(i: string, j: string, key: string, x: string)
    requires i != j && key != "avi"
    ensures var c1 := Next(Fresh(i, 0), One(key, x), 1);
      var c2 := Ticked(Replaced(c1, SKELETON, 2));
      var r := Merged(Merged(Merged(Fresh(j, 0), c1), c2), c1);
      SameClock(r.clock, c2.clock) && !HasPath(c2.data, [key]) && HasPath(r.data, [key])
  {
    var c1 := Next(Fresh(i, 0), One(key, x), 1);
    var c2 := Ticked(Replaced(c1, SKELETON, 2));
    AheadOf(c1.clock, Fresh(j, 0).clock, i);
    AheadOf(c2.clock, c1.clock, i);
    PatchedLookup(SKELETON, key, x, key);
    assert !HasPath(SKELETON, [key]) && !Cut(SKELETON, [key]);
    OldContextRestores(Fresh(j, 0), c1, c2, key);
  }

  // ----- One writer

  // i patches and sends; j hears it; i patches again.
  lemma RevertRunFirstHalf(s: System, i: string, j: string, p: Json, p': Json) returns (steps: seq<Step>)
    requires Two(s, i, j)
    ensures var t := Run(s, steps);
      var a1 := Next(s.nodes[i].context, p, 10);
      && t.nodes == map[i := Version(Next(a1, p', 20), {0, 1}), j := Version(Merged(s.nodes[j].context, a1), {0})]
      && t.log == [Command(i, false, p), Command(i, false, p')]
  {
    var m1 := Version(Next(s.nodes[i].context, p, 10), {0});
    var s2 := PatchAndSend(s, i, j, p, 10);
    HearThenPatch(s2, i, j, m1, p');
    var rest := [Deliver(j, m1), Update(i, p', 20)] + [];
    steps := [Update(i, p, 10), Send(i)] + rest;
    TwoSteps(s, Update(i, p, 10), Send(i), rest);
    TwoSteps(s2, Deliver(j, m1), Update(i, p', 20), []);
  }

  lemma HearThenPatch(s: System, i: string, j: string, m: Version, p: Json)
    requires i != j && s.nodes.Keys == {i, j} && s.nodes[i] == m && m in s.inFlight
    requires |s.log| == 1 && m.history == {0} && s.nodes[j].history == {}
    ensures var t := Executed(Executed(s, Deliver(j, m)), Update(i, p, 20));
      && t.nodes == map[i := Version(Next(m.context, p, 20), {0, 1}),
                        j := Version(Merged(s.nodes[j].context, m.context), {0})]
      && t.log == s.log + [Command(i, false, p)]
  {
    assert {0} + {1} == {0, 1} && {} + {0} == {0};
  }

  lemma PatchAndSend(s: System, i: string, j: string, p: Json, now: nat) returns (t: System)
    requires Two(s, i, j)
    ensures t == Executed(Executed(s, Update(i, p, now)), Send(i))
    ensures var m := Version(Next(s.nodes[i].context, p, now), {0});
      t.nodes == map[i := m, j := s.nodes[j]] && m in t.inFlight && t.log == [Command(i, false, p)]
  {
    t := Executed(Executed(s, Update(i, p, now)), Send(i));
    assert {} + {0} == {0};
  }

  // j patches and sends; i hears it.
  lemma RevertRunSecondHalf(s: System, i: string, j: string, q: Json) returns (steps: seq<Step>)
    requires i != j && i in s.nodes && j in s.nodes
    ensures var t := Run(s, steps);
      && i in t.nodes
      && t.nodes[i] == Version(Merged(s.nodes[i].context, Next(s.nodes[j].context, q, 15)),
                               s.nodes[i].history + (s.nodes[j].history + {|s.log|}))
      && t.log == s.log + [Command(j, false, q)]
  {
    var m := Version(Next(s.nodes[j].context, q, 15), s.nodes[j].history + {|s.log|});
    var s2 := Executed(Executed(s, Update(j, q, 15)), Send(j));
    var last := [Deliver(i, m)] + [];
    steps := [Update(j, q, 15), Send(j)] + last;
    TwoSteps(s, Update(j, q, 15), Send(j), last);
    RunStep(s2, Deliver(i, m), []);
    assert s2.nodes[i] == s.nodes[i] && m in s2.inFlight;
  }

  lemma {:induction false} OlderCopyWins(c: Context, d: Context, key: string, other: string, x: string, y: string)
    requires c.deviceId != d.deviceId && c.clock == d.clock == map[] && c.data.Obj? && key != other
    ensures var a1 := Next(c, One(key, x), 10);
      var a2 := Next(a1, One(key, y), 20);
      var b2 := Next(Merged(d, a1), One(other, x), 15);
      LeafAt(Merged(a2, b2).data, [key], Text(x))
  {
    var a1 := Next(c, One(key, x), 10);
    var a2 := Next(a1, One(key, y), 20);
    var b1 := Merged(d, a1);
    var b2 := Next(b1, One(other, x), 15);
    AheadOf(a1.clock, d.clock, c.deviceId);
    assert b1.data == a1.data && Get(b1.clock, c.deviceId) == 1;
    AheadOf(a2.clock, b2.clock, c.deviceId);
    AheadOf(b2.clock, a2.clock, d.deviceId);
    PatchedLookup(c.data, key, x, key);
    PatchedLookup(b1.data, other, x, key);
    OlderLeafWins(a2, b2, [key], Text(x));
  }

  // Only i ever writes the key, and its last value is y; a concurrent message of lower age that still
  // carries the first value puts it back at i itself, which knows all three changes.
  lemma {:induction false} OwnUpdateReverted(i: string, j: string, key: string, other: string, x: string, y: string)
    returns (steps: seq<Step>)
    requires i != j && key != other
    ensures var s := Run(Start(Pair(i, j)), steps);
      && i in s.nodes
      && s.log == [Command(i, false, One(key, x)), Command(i, false, One(key, y)), Command(j, false, One(other, x))]
      && s.nodes[i].history == {0, 1, 2}
      && LeafAt(s.nodes[i].context.data, [key], Text(x))
  {
    var start := Start(Pair(i, j));
    StartIsTwo(i, j);
    var first := RevertRunFirstHalf(start, i, j, One(key, x), One(key, y));
    var second := RevertRunSecondHalf(Run(start, first), i, j, One(other, x));
    steps := first + second;
    RunConcat(start, first, second);
    OlderCopyWins(Fresh(i, 0), Fresh(j, 0), key, other, x, y);
  }
}
