// What a merge does to single paths and leaves, and when the oldest of many contexts wins.
module Conflicts {
  import opened Wrappers
  import opened JsonTrees
  import opened DeepMerges
  import opened Clocks
  import opened Contexts

  // ----- One merge, path by path

  lemma {:induction false} MergedByPath(a: Context, m: Context, p: Path)
    ensures Lookup(Merged(a, m).data, p) ==
            match Compare(a.clock, m.clock)
            case Some(Less) => Lookup(m.data, p)
            case Some(Equal) => Lookup(a.data, p)
            case Some(Greater) => MergedLookup(a.data, m.data, p)
            case None =>
              if PrefersSelf(a, m) then MergedLookup(a.data, m.data, p) else MergedLookup(m.data, a.data, p)
  {
    MergeByPath(a.data, m.data, p);
    MergeByPath(m.data, a.data, p);
    MergeFlip(m.data, a.data);
  }

  // A missing path comes with a message exactly if the message has it and either is newer, or is not
  // and meets no preferred non-object above it. (That is how deleted keys return.)
  lemma {:induction false} PathAppearsIff(a: Context, m: Context, p: Path)
    requires !HasPath(a.data, p)
    ensures HasPath(Merged(a, m).data, p) <==>
            && HasPath(m.data, p)
            && match Compare(a.clock, m.clock)
               case Some(Less) => true
               case Some(Equal) => false
               case Some(Greater) => !Cut(a.data, p)
               case None => PrefersSelf(a, m) ==> !Cut(a.data, p)
  {
    MergedByPath(a, m, p);
  }

  // A path is lost to a message exactly if the message lacks it and either is newer, or is concurrent,
  // older of age and has a non-object above it.
  lemma {:induction false} PathDisappearsIff(a: Context, m: Context, p: Path)
    requires HasPath(a.data, p)
    ensures !HasPath(Merged(a, m).data, p) <==>
            && !HasPath(m.data, p)
            && match Compare(a.clock, m.clock)
               case Some(Less) => true
               case None => !PrefersSelf(a, m) && Cut(m.data, p)
               case _ => false
  {
    MergedByPath(a, m, p);
  }

  // Between different leaves at one path the message's wins exactly if the message is newer, or
  // concurrent and older of age, whoever wrote either of them.
  lemma {:induction false} LeafOverwrittenIff(a: Context, m: Context, p: Path, x: Json, y: Json)
    requires LeafAt(a.data, p, x) && LeafAt(m.data, p, y) && x != y
    ensures LeafAt(Merged(a, m).data, p, y) <==>
            || Compare(a.clock, m.clock) == Some(Less)
            || (Compare(a.clock, m.clock) == None && m.timestamp < a.timestamp)
    ensures LeafAt(Merged(a, m).data, p, x) <==> !LeafAt(Merged(a, m).data, p, y)
  {
    MergedByPath(a, m, p);
  }

  // The answer of merge says whether the tree changed, except exactly where the trees differ and the
  // side that gives way has nothing new: absorbed if the receiver is preferred, contained if the
  // message is.
  lemma {:induction false} ReportIsRightIff(a: Context, m: Context)
    ensures (Reported(a, m) <==> Merged(a, m).data != a.data) <==>
            || a.data == m.data
            || match Compare(a.clock, m.clock)
               case Some(Greater) => !Absorbs(a.data, m.data)
               case None => if PrefersSelf(a, m) then !Absorbs(a.data, m.data) else !Contains(a.data, m.data)
               case _ => true
  {
    AbsorbsIffMergeKeeps(a.data, m.data);
    ContainsIffPatchKeeps(a.data, m.data);
    MergeIdempotent(a.data, true);
    MergeIdempotent(a.data, false);
  }

  // ----- The oldest of many

  // The context knows something that none of the others knows.
  ghost predicate HasOwnNews(c: Context, all: set<Context>) {
    exists actor :: KnowsMost(c, all, actor)
  }

  ghost predicate KnowsMost(c: Context, all: set<Context>, actor: string) {
    forall d :: d in all && d != c ==> Get(d.clock, actor) < Get(c.clock, actor)
  }

  // acc knows what the parts know, and no more.
  ghost predicate KnowsParts(acc: Context, parts: set<Context>) {
    && (forall c :: c in parts ==> Leq(c.clock, acc.clock))
    && (forall actor :: TaughtBy(acc, parts, actor))
  }

  ghost predicate TaughtBy(acc: Context, parts: set<Context>, actor: string) {
    exists c :: c in parts && Get(acc.clock, actor) == Get(c.clock, actor)
  }

  lemma {:induction false} KnowsOneMore(acc: Context, parts: set<Context>, m: Context)
    requires KnowsParts(acc, parts)
    ensures KnowsParts(Merged(acc, m), parts + {m})
  {
    var r := Merged(acc, m);
    MergedClockIsJoin(acc, m);
    JoinIsLeastUpperBound(acc.clock, m.clock);
    LeqTransitive(m.clock, Join(acc.clock, m.clock), r.clock);
    LeqTransitive(acc.clock, Join(acc.clock, m.clock), r.clock);
    forall c | c in parts + {m} ensures Leq(c.clock, r.clock) {
      if c in parts {
        LeqTransitive(c.clock, acc.clock, r.clock);
      }
    }
    forall actor ensures TaughtBy(r, parts + {m}, actor) {
      JoinPointwise(acc.clock, m.clock, actor);
      assert Get(r.clock, actor) <= Get(Join(acc.clock, m.clock), actor) <= Get(r.clock, actor);
      assert TaughtBy(acc, parts, actor);
      var c :| c in parts && Get(acc.clock, actor) == Get(c.clock, actor);
      assert c in parts + {m} && m in parts + {m};
    }
  }

  // The context has a non-object at p or above it.
  predicate Settles(c: Context, p: Path) {
    Cut(c.data, p) || (HasPath(c.data, p) && !ObjectAt(c.data, p))
  }

  ghost predicate StrictlyOldest(oldest: Context, all: set<Context>) {
    oldest in all && forall c :: c in all && c != oldest ==> oldest.timestamp < c.timestamp
  }

  // Before the oldest context comes, acc is younger than it; from then on acc has its age and
  // whatever it has at p.
  ghost predicate Follows(acc: Context, parts: set<Context>, oldest: Context, p: Path) {
    if oldest in parts then acc.timestamp == oldest.timestamp && Lookup(acc.data, p) == Lookup(oldest.data, p)
    else oldest.timestamp < acc.timestamp
  }

  lemma {:induction false} OldestStep(acc: Context, parts: set<Context>, m: Context, all: set<Context>,
                                      oldest: Context, p: Path)
    requires parts <= all && m in all && HasOwnNews(oldest, all)
    requires StrictlyOldest(oldest, all) && HasPath(oldest.data, p) && !ObjectAt(oldest.data, p)
    requires Follows(acc, parts, oldest, p) && KnowsParts(acc, parts)
    ensures Follows(Merged(acc, m), parts + {m}, oldest, p)
  {
    MergedByPath(acc, m, p);
    var actor :| KnowsMost(oldest, all, actor);
    if oldest in parts {
      assert Get(oldest.clock, actor) <= Get(acc.clock, actor);
      if m == oldest {
        assert Leq(m.clock, acc.clock);
      } else {
        AheadOf(acc.clock, m.clock, actor);
      }
    } else if m == oldest {
      assert TaughtBy(acc, parts, actor);
      AheadOf(m.clock, acc.clock, actor);
    }
  }

  lemma {:induction false} OldestFold(acc: Context, parts: set<Context>, ms: seq<Context>, all: set<Context>,
                                      oldest: Context, p: Path)
    requires parts <= all && (forall m :: m in ms ==> m in all) && HasOwnNews(oldest, all)
    requires StrictlyOldest(oldest, all) && HasPath(oldest.data, p) && !ObjectAt(oldest.data, p)
    requires Follows(acc, parts, oldest, p) && KnowsParts(acc, parts)
    ensures Follows(MergeAll(acc, ms), parts + (set m | m in ms), oldest, p)
    decreases |ms|
  {
    if ms == [] {
      assert parts + (set m | m in ms) == parts;
    } else {
      assert ms[0] in ms && forall m :: m in ms[1..] ==> m in ms;
      OldestStep(acc, parts, ms[0], all, oldest, p);
      KnowsOneMore(acc, parts, ms[0]);
      var next, known := Merged(acc, ms[0]), parts + {ms[0]};
      OldestFold(next, known, ms[1..], all, oldest, p);
      HeadAndTail(parts, ms);
      assert MergeAll(acc, ms) == MergeAll(next, ms[1..]);
    }
  }

  lemma {:induction false} OldestLeafWins(a: Context, ms: seq<Context>, p: Path, oldest: Context)
    requires HasOwnNews(oldest, set c | c in [a] + ms) && StrictlyOldest(oldest, set c | c in [a] + ms)
    requires HasPath(oldest.data, p) && !ObjectAt(oldest.data, p)
    ensures Lookup(MergeAll(a, ms).data, p) == Lookup(oldest.data, p)
    ensures MergeAll(a, ms).timestamp == oldest.timestamp
  {
    var all := set c | c in [a] + ms;
    assert a in [a] + ms;
    assert all == {a} + (set m | m in ms);
    assert a in {a} && Leq(a.clock, a.clock);
    assert forall actor :: TaughtBy(a, {a}, actor);
    OldestFold(a, {a}, ms, all, oldest, p);
  }

  // Oldest wins: of any number of contexts the oldest, if it knows something that the others do not,
  // decides every path at or above which it has a non-object, in any order and with any repetitions.
  lemma {:induction false} OldestOfAllWins(a: Context, ms: seq<Context>, p: Path, oldest: Context)
    requires HasOwnNews(oldest, set c | c in [a] + ms) && StrictlyOldest(oldest, set c | c in [a] + ms)
    requires Settles(oldest, p)
    ensures Lookup(MergeAll(a, ms).data, p) == Lookup(oldest.data, p)
  {
    if Cut(oldest.data, p) {
      CutIffNonObjectPrefix(oldest.data, p);
      var n :| 0 <= n < |p| && HasPath(oldest.data, p[..n]) && !Lookup(oldest.data, p[..n]).value.Obj?;
      OldestLeafWins(a, ms, p[..n], oldest);
      BelowLeaf(oldest.data, p, n);
      BelowLeaf(MergeAll(a, ms).data, p, n);
    } else {
      OldestLeafWins(a, ms, p, oldest);
    }
  }

  lemma {:induction false} BelowLeaf(t: Json, p: Path, n: nat)
    requires n < |p| && HasPath(t, p[..n]) && !ObjectAt(t, p[..n])
    ensures Lookup(t, p) == None
  {
    assert p == p[..n] + p[n..];
    LookupConcat(t, p[..n], p[n..]);
  }

  // ----- Where the order decides

  lemma AheadOf(c: Clock, d: Clock, actor: string)
    requires Get(c, actor) > Get(d, actor)
    ensures !Leq(c, d)
  {
  }

  ghost predicate MutuallyConcurrent(a: Context, b: Context, c: Context) {
    Compare(a.clock, b.clock) == Compare(b.clock, c.clock) == Compare(a.clock, c.clock) == None
  }

  // Three mutually concurrent contexts of different ages: a conflict at p between a and the older c
  // is won by whichever came first, when b, the oldest, has nothing at p. Once b is merged, its age
  // stands for all of the merged values, so the order of delivery decides what a ends with.
  lemma {:induction false} OrderMatters(a: Context, b: Context, c: Context, p: Path, x: Json, y: Json)
    requires MutuallyConcurrent(a, b, c)
    requires b.timestamp <= c.timestamp < a.timestamp
    requires LeafAt(a.data, p, x) && LeafAt(c.data, p, y)
    requires !HasPath(b.data, p) && !Cut(b.data, p)
    ensures LeafAt(MergeAll(a, [b, c]).data, p, x)
    ensures LeafAt(MergeAll(a, [c, b]).data, p, y)
  {
    MergeAllTwo(a, b, c);
    GatherClock(a, b, c.clock);
    LeafSurvives(a, b, p, x);
    LeafSurvives(Merged(a, b), c, p, x);
    MergeAllTwo(a, c, b);
    GatherClock(a, c, b.clock);
    OlderLeafWins(a, c, p, y);
    LeafSurvives(Merged(a, c), b, p, y);
  }

  // The oldest context loses where what it knows is covered by two others together: after those are
  // merged it counts as outdated, although it is concurrent with each of them.
  lemma {:induction false} CoveredOldestLoses(a: Context, b: Context, c: Context, p: Path, x: Json, y: Json)
    requires MutuallyConcurrent(a, b, c) && Leq(c.clock, Join(a.clock, b.clock))
    requires c.timestamp < a.timestamp <= b.timestamp
    requires LeafAt(a.data, p, x) && LeafAt(c.data, p, y)
    ensures LeafAt(MergeAll(a, [b, c]).data, p, x)
    ensures LeafAt(MergeAll(a, [c]).data, p, y)
  {
    MergeAllTwo(a, b, c);
    GatherClock(a, b, c.clock);
    LeafSurvives(a, b, p, x);
    var ab := Merged(a, b);
    MergeByPath(ab.data, c.data, p);
    OlderLeafWins(a, c, p, y);
    assert [c][1..] == [];
    assert MergeAll(a, [c]) == MergeAll(Merged(a, c), []);
  }

  // A leaf survives the merge with a context that is not newer, unless that one is older of age and
  // has something at or above the path.
  lemma {:induction false} LeafSurvives(u: Context, m: Context, p: Path, x: Json)
    requires !Leq(u.clock, m.clock) && LeafAt(u.data, p, x)
    requires PrefersSelf(u, m) || (!HasPath(m.data, p) && !Cut(m.data, p))
    ensures LeafAt(Merged(u, m).data, p, x)
  {
    MergeByPath(u.data, m.data, p);
    PatchByPath(u.data, m.data, p);
  }

  lemma {:induction false} OlderLeafWins(u: Context, m: Context, p: Path, y: Json)
    requires Compare(u.clock, m.clock) == None && m.timestamp < u.timestamp
    requires LeafAt(m.data, p, y)
    ensures LeafAt(Merged(u, m).data, p, y)
  {
    PatchByPath(u.data, m.data, p);
  }

  lemma MergeAllTwo(a: Context, b: Context, c: Context)
    ensures MergeAll(a, [b, c]) == Merged(Merged(a, b), c)
  {
    assert [b, c][1..] == [c] && [c][1..] == [];
    assert MergeAll(Merged(a, b), [c]) == MergeAll(Merged(Merged(a, b), c), []);
  }

  // Whatever other contexts there are, whoever comes first and in what order: as long as this one is
  // the oldest and knows something the others do not, the same value ends up at p.
  ghost predicate OrderIrrelevant(oldest: Context, p: Path) {
    forall a, ms, b, ns :: SameSurroundings(oldest, a, ms, b, ns) ==>
      Lookup(MergeAll(a, ms).data, p) == Lookup(MergeAll(b, ns).data, p)
  }

  ghost predicate SameSurroundings(oldest: Context, a: Context, ms: seq<Context>, b: Context, ns: seq<Context>) {
    && (set c | c in [a] + ms) == (set c | c in [b] + ns)
    && HasOwnNews(oldest, set c | c in [a] + ms)
    && StrictlyOldest(oldest, set c | c in [a] + ms)
  }

  // The oldest context makes the order of delivery irrelevant for a path exactly if it has a non-object
  // at or above the path, and then what remains there is its own value; or if it knows nothing at all,
  // so that it has no news for anybody.
  lemma {:induction false} OrderIrrelevantIff(oldest: Context, p: Path)
    ensures OrderIrrelevant(oldest, p) <==> Settles(oldest, p) || Leq(oldest.clock, map[])
  {
    if Settles(oldest, p) {
      forall a, ms, b, ns | SameSurroundings(oldest, a, ms, b, ns)
        ensures Lookup(MergeAll(a, ms).data, p) == Lookup(MergeAll(b, ns).data, p)
      {
        OldestOfAllWins(a, ms, p, oldest);
        OldestOfAllWins(b, ns, p, oldest);
      }
    } else if Leq(oldest.clock, map[]) {
      forall a, ms, b, ns | SameSurroundings(oldest, a, ms, b, ns)
        ensures Lookup(MergeAll(a, ms).data, p) == Lookup(MergeAll(b, ns).data, p)
      {
        NothingNewForOthers(oldest, a, ms);
        NothingNewForOthers(oldest, b, ns);
      }
    } else {
      var actor :| Get(oldest.clock, actor) > 0;
      if ObjectAt(oldest.data, p) {
        var k := FreshKey(Lookup(oldest.data, p).value.fields.Keys);
        CutBelowObject(oldest.data, p, k);
        var a, b, ms, ns := OrdersThatDiffer(oldest, p + [k], actor);
        LookupConcat(MergeAll(a, ms).data, p, [k]);
        LookupConcat(MergeAll(b, ns).data, p, [k]);
        assert SameSurroundings(oldest, a, ms, b, ns);
      } else {
        var a, b, ms, ns := OrdersThatDiffer(oldest, p, actor);
        assert SameSurroundings(oldest, a, ms, b, ns);
      }
    }
  }

  // Only alone can a context that knows nothing have news.
  lemma {:induction false} NothingNewForOthers(c: Context, a: Context, ms: seq<Context>)
    requires Leq(c.clock, map[]) && HasOwnNews(c, set d | d in [a] + ms)
    ensures MergeAll(a, ms) == c
  {
    var all := set d | d in [a] + ms;
    var actor :| KnowsMost(c, all, actor);
    forall d | d in [a] + ms ensures d == c {
      assert Get(c.clock, actor) <= Get(map[], actor);
    }
    assert a in [a] + ms;
    assert forall m :: m in ms ==> m in [a] + ms;
    OnlyItself(c, ms);
  }

  lemma {:induction false} OnlyItself(c: Context, ms: seq<Context>)
    requires forall m :: m in ms ==> m == c
    ensures MergeAll(c, ms) == c
    decreases |ms|
  {
    if ms != [] {
      assert ms[0] in ms && forall m :: m in ms[1..] ==> m in ms;
      OnlyItself(c, ms[1..]);
    }
  }

  // Two younger contexts that conflict at a path the oldest lacks.
  lemma {:induction false} OrdersThatDiffer(oldest: Context, p: Path, actor: string)
    returns (a: Context, b: Context, ms: seq<Context>, ns: seq<Context>)
    requires Get(oldest.clock, actor) > 0
    requires !HasPath(oldest.data, p) && !Cut(oldest.data, p)
    ensures SameSurroundings(oldest, a, ms, b, ns)
    ensures Lookup(MergeAll(a, ms).data, p) != Lookup(MergeAll(b, ns).data, p)
  {
    var i := FreshKey(oldest.clock.Keys);
    var j := FreshKey(oldest.clock.Keys + {i});
    a := Context(i, oldest.timestamp + 2, map[i := 1], Nested(p, Bool(true)));
    var c := Context(j, oldest.timestamp + 1, map[j := 1], Nested(p, Bool(false)));
    b, ms, ns := a, [oldest, c], [c, oldest];
    ThreeConcurrent(a, oldest, c, i, actor, j);
    SurroundedByTwo(oldest, a, c, actor);
    NestedHolds(p, Bool(true));
    NestedHolds(p, Bool(false));
    OrderMatters(a, oldest, c, p, Bool(true), Bool(false));
  }

  lemma {:induction false} SurroundedByTwo(oldest: Context, a: Context, c: Context, actor: string)
    requires oldest.timestamp < a.timestamp && oldest.timestamp < c.timestamp
    requires Get(oldest.clock, actor) > 0 && Get(a.clock, actor) == Get(c.clock, actor) == 0
    ensures SameSurroundings(oldest, a, [oldest, c], a, [c, oldest])
  {
    ThreeElements(a, oldest, c);
    ThreeElements(a, c, oldest);
    assert KnowsMost(oldest, {a, oldest, c}, actor);
  }

  lemma ThreeElements(a: Context, b: Context, c: Context)
    ensures (set x | x in [a] + [b, c]) == {a, b, c}
  {
    assert [a] + [b, c] == [a, b, c];
  }

  lemma {:induction false} ThreeConcurrent(a: Context, b: Context, c: Context, i: string, j: string, k: string)
    requires Get(a.clock, i) > 0 && Get(b.clock, i) == Get(c.clock, i) == 0
    requires Get(b.clock, j) > 0 && Get(a.clock, j) == Get(c.clock, j) == 0
    requires Get(c.clock, k) > 0 && Get(a.clock, k) == Get(b.clock, k) == 0
    ensures MutuallyConcurrent(a, b, c)
  {
    AheadOf(a.clock, b.clock, i);
    AheadOf(a.clock, c.clock, i);
    AheadOf(b.clock, a.clock, j);
    AheadOf(b.clock, c.clock, j);
    AheadOf(c.clock, a.clock, k);
    AheadOf(c.clock, b.clock, k);
  }

  // ----- What the oldest has to know

  // All others have another leaf at p.
  predicate Opposed(oldest: Context, all: set<Context>, p: Path) {
    forall c :: c in all && c != oldest ==> Opposes(c, oldest, p)
  }

  predicate Opposes(c: Context, oldest: Context, p: Path) {
    HasPath(c.data, p) && !ObjectAt(c.data, p) && Lookup(c.data, p) != Lookup(oldest.data, p)
  }

  // The value at p is that of the oldest, whoever comes first and in what order the others come.
  ghost predicate Decides(oldest: Context, all: set<Context>, p: Path) {
    forall a, ms :: (set c | c in [a] + ms) == all ==> Lookup(MergeAll(a, ms).data, p) == Lookup(oldest.data, p)
  }

  // Against other leaves the oldest decides a path, in every order, exactly if it knows something that
  // none of the others knows; what the others know of each other does not matter.
  lemma {:induction false} OldestDecidesIff(oldest: Context, all: set<Context>, p: Path)
    requires StrictlyOldest(oldest, all) && Opposed(oldest, all, p)
    requires HasPath(oldest.data, p) && !ObjectAt(oldest.data, p)
    ensures Decides(oldest, all, p) <==> HasOwnNews(oldest, all)
  {
    if HasOwnNews(oldest, all) {
      forall a, ms | (set c | c in [a] + ms) == all
        ensures Lookup(MergeAll(a, ms).data, p) == Lookup(oldest.data, p)
      {
        OldestOfAllWins(a, ms, p, oldest);
      }
    } else {
      var a, ms := OldestLast(oldest, all, p);
      assert (set c | c in [a] + ms) == all;
      assert Lookup(MergeAll(a, ms).data, p) != Lookup(oldest.data, p);
    }
  }

  // The others first: together they know all that the oldest knows, so it comes too late.
  lemma {:induction false} OldestLast(oldest: Context, all: set<Context>, p: Path)
    returns (a: Context, ms: seq<Context>)
    requires oldest in all && Opposed(oldest, all, p) && !HasOwnNews(oldest, all)
    requires HasPath(oldest.data, p) && !ObjectAt(oldest.data, p)
    ensures (set c | c in [a] + ms) == all
    ensures Lookup(MergeAll(a, ms).data, p) != Lookup(oldest.data, p)
  {
    assert !KnowsMost(oldest, all, "");
    a :| a in all && a != oldest;
    var others := Listed(all - {oldest, a});
    ms := others + [oldest];
    var acc := MergeAll(a, others);
    assert Opposes(a, oldest, p) && Leq(a.clock, a.clock);
    OpposedFold(a, {a}, others, all, oldest, p);
    assert {a} + (set c | c in others) == all - {oldest};
    CoveredByOthers(oldest, all, acc);
    MergedByPath(acc, oldest, p);
    MergeAllSnoc(a, others, oldest);
    FirstAndLast(a, others, oldest);
  }

  lemma FirstAndLast(a: Context, others: seq<Context>, c: Context)
    ensures (set d | d in [a] + (others + [c])) == {a} + (set d | d in others) + {c}
  {
  }

  lemma {:induction false} CoveredByOthers(oldest: Context, all: set<Context>, acc: Context)
    requires !HasOwnNews(oldest, all) && forall c :: c in all - {oldest} ==> Leq(c.clock, acc.clock)
    ensures Leq(oldest.clock, acc.clock)
  {
    forall actor ensures Get(oldest.clock, actor) <= Get(acc.clock, actor) {
      assert !KnowsMost(oldest, all, actor);
      var c :| c in all && c != oldest && Get(oldest.clock, actor) <= Get(c.clock, actor);
      assert c in all - {oldest};
    }
  }

  lemma {:induction false} OpposedFold(acc: Context, parts: set<Context>, ms: seq<Context>, all: set<Context>,
                                       oldest: Context, p: Path)
    requires parts <= all - {oldest} && (forall m :: m in ms ==> m in all - {oldest}) && Opposed(oldest, all, p)
    requires Opposes(acc, oldest, p) && forall c :: c in parts ==> Leq(c.clock, acc.clock)
    ensures Opposes(MergeAll(acc, ms), oldest, p)
    ensures forall c :: c in parts + (set m | m in ms) ==> Leq(c.clock, MergeAll(acc, ms).clock)
    decreases |ms|
  {
    if ms != [] {
      var m := ms[0];
      assert m in ms && forall d :: d in ms[1..] ==> d in ms;
      MergedByPath(acc, m, p);
      var next := Merged(acc, m);
      assert Leq(next.clock, next.clock);
      GatherClock(acc, m, next.clock);
      forall c | c in parts + {m} ensures Leq(c.clock, next.clock) {
        if c in parts {
          LeqTransitive(c.clock, acc.clock, next.clock);
        }
      }
      OpposedFold(next, parts + {m}, ms[1..], all, oldest, p);
      HeadAndTail(parts, ms);
    }
  }

  lemma {:induction false} MergeAllSnoc(a: Context, ms: seq<Context>, c: Context)
    ensures MergeAll(a, ms + [c]) == Merged(MergeAll(a, ms), c)
    decreases |ms|
  {
    if ms == [] {
      assert [c][1..] == [] && ms + [c] == [c];
      assert MergeAll(a, [c]) == MergeAll(Merged(a, c), []);
    } else {
      assert (ms + [c])[1..] == ms[1..] + [c];
      MergeAllSnoc(Merged(a, ms[0]), ms[1..], c);
    }
  }

  lemma {:induction false} Listed(s: set<Context>) returns (ms: seq<Context>)
    ensures (set c | c in ms) == s && forall c :: c in ms <==> c in s
    decreases s
  {
    ms := [];
    if s != {} {
      var c :| c in s;
      var rest := Listed(s - {c});
      ms := [c] + rest;
    }
  }

  lemma {:induction false} CutBelowObject(t: Json, p: Path, k: string)
    requires ObjectAt(t, p) && k !in Lookup(t, p).value.fields
    ensures !Cut(t, p + [k]) && !HasPath(t, p + [k])
    decreases |p|
  {
    LookupConcat(t, p, [k]);
    if p == [] {
      assert p + [k] == [k];
    } else {
      assert (p + [k])[1..] == p[1..] + [k];
      CutBelowObject(t.fields[p[0]], p[1..], k);
    }
  }

  // A key that is longer than all of these is none of them.
  lemma {:induction false} FreshKey(keys: set<string>) returns (k: string)
    ensures k !in keys
  {
    var n := LongerThan(keys);
    k := seq(n, _ => 'a');
  }

  lemma {:induction false} LongerThan(keys: set<string>) returns (n: nat)
    ensures forall k :: k in keys ==> |k| < n
    decreases keys
  {
    n := 0;
    if keys != {} {
      var k :| k in keys;
      n := LongerThan(keys - {k});
      if n <= |k| {
        n := |k| + 1;
      }
    }
  }
}
