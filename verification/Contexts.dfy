// AviContext: the replicated context of one device, and what merging two contexts guarantees.
module Contexts {
  import opened Wrappers
  import opened JsonTrees
  import opened DeepMerges
  import opened Clocks

  // A context as it travels between nodes.
  datatype Context = Context(deviceId: string, timestamp: nat, clock: Clock, data: Json)

  const SKELETON := Obj(map["avi" := Obj(map["device" := EMPTY_OBJECT])])

  function Fresh(deviceId: string, now: nat): Context {
    Context(deviceId, now, map[], SKELETON)
  }

  function Patched(c: Context, patch: Json, now: nat): Context {
    c.(data := DeepMerge(c.data, patch, false), timestamp := now)
  }

  function Replaced(c: Context, data: Json, now: nat): Context {
    c.(data := data, timestamp := now)
  }

  // The local commands also count as one event of the device.
  function Ticked(c: Context): Context {
    c.(clock := Advanced(c.clock, c.deviceId))
  }

  // The oldest context wins a conflict; at equal age each side prefers itself.
  function PrefersSelf(a: Context, b: Context): bool {
    a.timestamp <= b.timestamp
  }

  ghost function Merged(a: Context, b: Context): Context {
    match Compare(a.clock, b.clock)
    case Some(Less) =>
      a.(data := b.data, timestamp := b.timestamp, clock := Join(a.clock, b.clock))
    case Some(Greater) =>
      a.(data := DeepMerge(a.data, b.data, true))
    case Some(Equal) => a
    case None =>
      a.(data := DeepMerge(a.data, b.data, PrefersSelf(a, b)),
         timestamp := if PrefersSelf(a, b) then a.timestamp else b.timestamp,
         clock := Join(a.clock, b.clock))
  }

  // What merge answers, as whether the context was updated.
  ghost predicate Reported(a: Context, b: Context) {
    a.data != b.data && Compare(a.clock, b.clock) != Some(Equal)
  }

  class AviContext {
    const deviceId: string
    const vectorClock: VectorClock
    var timestamp: nat
    var data: Json

    ghost function View(): Context
      reads this, vectorClock
    {
      Context(deviceId, timestamp, vectorClock.counters, data)
    }

    constructor (deviceId: string, now: nat)
      ensures View() == Fresh(deviceId, now)
      ensures this.deviceId == deviceId && timestamp == now && vectorClock.counters == map[]
      ensures data == Obj(map["avi" := Obj(map["device" := Obj(map[])])])
      ensures fresh(vectorClock)
    {
      this.deviceId := deviceId;
      var clock := new VectorClock();
      this.vectorClock := clock;
      this.timestamp := now;
      this.data := SKELETON;
    }

    method Snapshot() returns (c: Context)
      ensures c == View()
    {
      c := Context(deviceId, timestamp, vectorClock.counters, data);
    }

    method ApplyPatch(patch: Json, now: nat)
      modifies this
      ensures View() == Patched(old(View()), patch, now)
    {
      data := MergeInto(data, patch, false);
      timestamp := now;
    }

    method ReplaceData(newData: Json, now: nat)
      modifies this
      ensures View() == Replaced(old(View()), newData, now)
    {
      data := newData;
      timestamp := now;
    }

    // The comparison decides between taking over, filling gaps, ignoring and reconciling.
    // The answer reports only whether the trees differed, not whether anything changed.
    method Merge(other: Context) returns (updated: bool)
      modifies this, vectorClock
      ensures View() == Merged(old(View()), other)
      ensures updated <==> Reported(old(View()), other)
      ensures !updated ==> data == old(data)
    {
      MergeIdempotent(data, true);
      MergeIdempotent(data, false);
      var cmp := vectorClock.PartialCmp(other.clock);
      updated := false;
      match cmp {
        case Some(Less) =>
          if data != other.data {
            data := other.data;
            updated := true;
          }
          timestamp := other.timestamp;
          vectorClock.Merge(other.clock);
        case Some(Greater) =>
          if data != other.data {
            data := MergeInto(data, other.data, true);
            updated := true;
          }
        case Some(Equal) =>
        case None =>
          var preferSelf := timestamp <= other.timestamp;
          if data != other.data {
            data := MergeInto(data, other.data, preferSelf);
            updated := true;
          }
          if !preferSelf {
            timestamp := other.timestamp;
          }
          vectorClock.Merge(other.clock);
      }
    }
  }

  // ----- The clock after a merge

  // In all four branches, also the two that leave the clock alone, it ends at the pointwise maximum.
  lemma {:induction false} MergedClockIsJoin(a: Context, b: Context)
    ensures SameClock(Merged(a, b).clock, Join(a.clock, b.clock))
  {
  }

  // ----- Duplicates and stale messages

  lemma {:induction false} CompareAfterMerge(a: Context, m: Context)
    ensures Compare(Merged(a, m).clock, m.clock) ==
            if Leq(a.clock, m.clock) then Some(Equal) else Some(Greater)
  {
  }

  // Delivering the same message twice is delivering it once.
  lemma {:induction false} DuplicateDeliveryIsNoOp(a: Context, m: Context)
    ensures Merged(Merged(a, m), m) == Merged(a, m)
  {
    CompareAfterMerge(a, m);
    MergeAgainKeeps(a.data, m.data, true);
    MergeAgainKeeps(a.data, m.data, PrefersSelf(a, m));
  }

  // A message that is not newer leaves the context alone exactly when the clocks are equal or the
  // tree already absorbs the older one; otherwise it brings back what the newer state had dropped.
  lemma {:induction false} StaleDeliveryIsNoOpIff(a: Context, m: Context)
    requires Leq(m.clock, a.clock)
    ensures Merged(a, m) == a <==> Leq(a.clock, m.clock) || Absorbs(a.data, m.data)
  {
    AbsorbsIffMergeKeeps(a.data, m.data);
  }

  // ----- Pairwise exchange

  // Both sides merge the other's context as it was before the exchange.
  lemma {:induction false} ExchangeAlignsClocks(a: Context, b: Context)
    ensures SameClock(Merged(a, b).clock, Merged(b, a).clock)
  {
    MergedClockIsJoin(a, b);
    MergedClockIsJoin(b, a);
    JoinSymmetric(a.clock, b.clock);
    var j := Join(a.clock, b.clock);
    LeqTransitive(Merged(a, b).clock, j, Merged(b, a).clock);
    LeqTransitive(Merged(b, a).clock, j, Merged(a, b).clock);
  }

  // Exactly when an exchange makes the two trees equal.
  ghost predicate ExchangeSettles(a: Context, b: Context) {
    match Compare(a.clock, b.clock)
    case Some(Less) => Absorbs(b.data, a.data)
    case Some(Greater) => Absorbs(a.data, b.data)
    case Some(Equal) => a.data == b.data
    case None => a.timestamp != b.timestamp || Compatible(a.data, b.data)
  }

  lemma {:induction false} ExchangeAgreesIff(a: Context, b: Context)
    ensures Merged(a, b).data == Merged(b, a).data <==> ExchangeSettles(a, b)
    ensures Merged(a, b).timestamp == Merged(b, a).timestamp <==>
            (a.timestamp == b.timestamp || Compare(a.clock, b.clock) != Some(Equal))
  {
    CompareDual(a.clock, b.clock);
    AbsorbsIffMergeKeeps(a.data, b.data);
    AbsorbsIffMergeKeeps(b.data, a.data);
    MergeFlip(a.data, b.data);
    MergeFlip(b.data, a.data);
    CompatibleIffMergesAgree(a.data, b.data);
  }

  // Between concurrent contexts of different age the older tree wins every conflict on both sides.
  lemma {:induction false} OldestWins(a: Context, b: Context, p: Path)
    requires Compare(a.clock, b.clock) == None
    requires a.timestamp < b.timestamp
    ensures Lookup(Merged(a, b).data, p) == MergedLookup(a.data, b.data, p)
    ensures Lookup(Merged(b, a).data, p) == MergedLookup(a.data, b.data, p)
    ensures Merged(a, b).timestamp == Merged(b, a).timestamp == a.timestamp
  {
    CompareDual(a.clock, b.clock);
    MergeByPath(a.data, b.data, p);
    MergeFlip(a.data, b.data);
  }

  // ----- Folding merges over many contexts

  ghost function MergeAll(a: Context, ms: seq<Context>): Context
    decreases |ms|
  {
    if ms == [] then a else MergeAll(Merged(a, ms[0]), ms[1..])
  }

  ghost predicate Unconflicted(all: set<Context>) {
    && (forall c, d :: c in all && d in all && c != d ==> Compare(c.clock, d.clock) == None)
    && (forall c, d :: c in all && d in all ==> Compatible(c.data, d.data))
  }

  // acc holds the union of the trees in parts, under the least upper bound of their clocks.
  ghost predicate Gathers(acc: Context, parts: set<Context>) {
    && (forall p :: ObjectAt(acc.data, p) <==> exists c :: c in parts && ObjectAt(c.data, p))
    && (forall p, x :: LeafAt(acc.data, p, x) <==> exists c :: c in parts && LeafAt(c.data, p, x))
    && (forall u :: Leq(acc.clock, u) <==> forall c :: c in parts ==> Leq(c.clock, u))
  }

  // A context that is concurrent with every part, or one of them, is never newer than what was
  // gathered, so the merge always keeps both sides.
  lemma {:induction false} GatherStep(acc: Context, parts: set<Context>, m: Context, all: set<Context>)
    requires parts <= all && m in all && parts != {}
    requires Unconflicted(all) && Gathers(acc, parts)
    requires forall c :: c in all ==> Compatible(acc.data, c.data)
    ensures Gathers(Merged(acc, m), parts + {m})
    ensures forall c :: c in all ==> Compatible(Merged(acc, m).data, c.data)
  {
    if Leq(acc.clock, m.clock) {
      forall c | c in parts ensures c == m {
        assert Leq(c.clock, m.clock);
      }
      assert parts == {m};
      assert Leq(acc.clock, acc.clock);
      assert Merged(acc, m) == acc && parts + {m} == parts;
    } else {
      var r := Merged(acc, m);
      CompatiblePreferenceIrrelevant(acc.data, m.data, PrefersSelf(acc, m));
      assert r.data == DeepMerge(acc.data, m.data, true);
      forall c | c in all ensures Compatible(r.data, c.data) {
        CompatibleWithMerge(acc.data, m.data, c.data);
      }
      GatherContent(acc, parts, m);
      forall u ensures Leq(r.clock, u) <==> forall c :: c in parts + {m} ==> Leq(c.clock, u) {
        GatherClock(acc, m, u);
        assert Leq(acc.clock, u) <==> forall c :: c in parts ==> Leq(c.clock, u);
      }
    }
  }

  lemma {:induction false} GatherContent(acc: Context, parts: set<Context>, m: Context)
    requires Gathers(acc, parts) && Compatible(acc.data, m.data)
    ensures var t := DeepMerge(acc.data, m.data, true);
      && (forall p :: ObjectAt(t, p) <==> exists c :: c in parts + {m} && ObjectAt(c.data, p))
      && (forall p, x :: LeafAt(t, p, x) <==> exists c :: c in parts + {m} && LeafAt(c.data, p, x))
  {
    var t := DeepMerge(acc.data, m.data, true);
    forall p ensures ObjectAt(t, p) <==> exists c :: c in parts + {m} && ObjectAt(c.data, p) {
      CompatibleMergeIsUnion(acc.data, m.data, p);
      if ObjectAt(m.data, p) {
        assert m in parts + {m};
      }
      if ObjectAt(acc.data, p) {
        var c :| c in parts && ObjectAt(c.data, p);
        assert c in parts + {m};
      }
    }
    forall p, x ensures LeafAt(t, p, x) <==> exists c :: c in parts + {m} && LeafAt(c.data, p, x) {
      CompatibleMergeIsUnion(acc.data, m.data, p);
      if LeafAt(m.data, p, x) {
        assert m in parts + {m};
      }
      if LeafAt(acc.data, p, x) {
        var c :| c in parts && LeafAt(c.data, p, x);
        assert c in parts + {m};
      }
    }
  }

  lemma {:induction false} GatherClock(a: Context, b: Context, u: Clock)
    ensures Leq(Merged(a, b).clock, u) <==> Leq(a.clock, u) && Leq(b.clock, u)
  {
    var j := Join(a.clock, b.clock);
    JoinIsLeastUpperBound(a.clock, b.clock);
    MergedClockIsJoin(a, b);
    if Leq(Merged(a, b).clock, u) {
      LeqTransitive(j, Merged(a, b).clock, u);
      LeqTransitive(a.clock, j, u);
      LeqTransitive(b.clock, j, u);
    }
    if Leq(a.clock, u) && Leq(b.clock, u) {
      LeqTransitive(Merged(a, b).clock, j, u);
    }
  }

  lemma {:induction false} MergeAllGathers(acc: Context, parts: set<Context>, ms: seq<Context>, all: set<Context>)
    requires parts <= all && parts != {} && (forall m :: m in ms ==> m in all)
    requires Unconflicted(all) && Gathers(acc, parts)
    requires forall c :: c in all ==> Compatible(acc.data, c.data)
    ensures Gathers(MergeAll(acc, ms), parts + set m | m in ms)
    decreases |ms|
  {
    if ms == [] {
      assert parts + (set m | m in ms) == parts;
    } else {
      GatherStep(acc, parts, ms[0], all);
      MergeAllGathers(Merged(acc, ms[0]), parts + {ms[0]}, ms[1..], all);
      HeadAndTail(parts, ms);
    }
  }

  lemma HeadAndTail(parts: set<Context>, ms: seq<Context>)
    requires ms != []
    ensures parts + {ms[0]} + (set m | m in ms[1..]) == parts + (set m | m in ms)
  {
    assert ms == [ms[0]] + ms[1..];
  }

  // Whatever the first context, the order and the repetitions: folding over the same set of
  // mutually concurrent, non-conflicting contexts ends with the same tree and the same clock.
  lemma {:induction false} OrderIndependence(a: Context, ms: seq<Context>, b: Context, ns: seq<Context>)
    requires (set c | c in [a] + ms) == (set c | c in [b] + ns)
    requires Unconflicted(set c | c in [a] + ms)
    ensures MergeAll(a, ms).data == MergeAll(b, ns).data
    ensures SameClock(MergeAll(a, ms).clock, MergeAll(b, ns).clock)
  {
    var all := set c | c in [a] + ms;
    GatheredFromFirst(a, ms);
    GatheredFromFirst(b, ns);
    GatheredSame(MergeAll(a, ms), MergeAll(b, ns), all);
  }

  lemma {:induction false} GatheredFromFirst(a: Context, ms: seq<Context>)
    requires Unconflicted(set c | c in [a] + ms)
    ensures Gathers(MergeAll(a, ms), set c | c in [a] + ms)
  {
    var all := set c | c in [a] + ms;
    assert a in [a] + ms;
    assert all == {a} + (set m | m in ms);
    MergeAllGathers(a, {a}, ms, all);
  }

  lemma {:induction false} GatheredSame(x: Context, y: Context, all: set<Context>)
    requires Gathers(x, all) && Gathers(y, all)
    ensures x.data == y.data && SameClock(x.clock, y.clock)
  {
    assert SameContent(x.data, y.data);
    SameContentSameTree(x.data, y.data);
    assert Leq(x.clock, x.clock) && Leq(y.clock, y.clock);
  }
}
