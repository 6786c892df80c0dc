// Vector clocks: counters per device, compared pointwise with a missing counter read as zero.
module Clocks {
  import opened Wrappers

  type Clock = map<string, nat>

  datatype Ordering = Less | Equal | Greater

  function Get(c: Clock, actor: string): nat {
    if actor in c then c[actor] else 0
  }

  ghost predicate Leq(c: Clock, d: Clock) {
    forall actor :: Get(c, actor) <= Get(d, actor)
  }

  // The pointwise partial order, with None for clocks that are not ordered.
  ghost function Compare(c: Clock, d: Clock): Option<Ordering> {
    if Leq(c, d) then Some(if Leq(d, c) then Equal else Less)
    else if Leq(d, c) then Some(Greater)
    else None
  }

  function Advanced(c: Clock, actor: string): Clock {
    c[actor := Get(c, actor) + 1]
  }

  function Join(c: Clock, d: Clock): Clock {
    map actor | actor in c.Keys + d.Keys ::
      if Get(c, actor) >= Get(d, actor) then Get(c, actor) else Get(d, actor)
  }

  // Equal as clocks, whether or not a zero counter is stored.
  ghost predicate SameClock(c: Clock, d: Clock) {
    Leq(c, d) && Leq(d, c)
  }

  lemma JoinPointwise(c: Clock, d: Clock, actor: string)
    ensures Get(Join(c, d), actor) ==
            if Get(c, actor) >= Get(d, actor) then Get(c, actor) else Get(d, actor)
  {
  }

  // Join is the least upper bound.
  lemma {:induction false} JoinIsLeastUpperBound(c: Clock, d: Clock)
    ensures Leq(c, Join(c, d)) && Leq(d, Join(c, d))
    ensures forall u :: Leq(c, u) && Leq(d, u) ==> Leq(Join(c, d), u)
  {
  }

  lemma {:induction false} JoinSymmetric(c: Clock, d: Clock)
    ensures Join(c, d) == Join(d, c)
  {
  }

  lemma LeqTransitive(c: Clock, d: Clock, e: Clock)
    requires Leq(c, d) && Leq(d, e)
    ensures Leq(c, e)
  {
  }

  function Flip(o: Option<Ordering>): Option<Ordering> {
    match o
    case Some(Less) => Some(Greater)
    case Some(Greater) => Some(Less)
    case _ => o
  }

  // Swapping the operands flips the outcome.
  lemma CompareDual(c: Clock, d: Clock)
    ensures Compare(d, c) == Flip(Compare(c, d))
  {
  }

  // The mutable clock a context owns.
  class VectorClock {
    var counters: Clock

    constructor ()
      ensures counters == map[]
    {
      counters := map[];
    }

    method Increment(actor: string)
      modifies this
      ensures counters == Advanced(old(counters), actor)
    {
      if actor !in counters {
        counters := counters[actor := 0];
      }
      counters := counters[actor := counters[actor] + 1];
    }

    // One pass over the union of the keys, remembering which side was ever ahead.
    method PartialCmp(other: Clock) returns (cmp: Option<Ordering>)
      ensures cmp == Compare(counters, other)
    {
      var selfHasGreater, otherHasGreater := false, false;
      var pending := counters.Keys + other.Keys;
      while pending != {}
        invariant pending <= counters.Keys + other.Keys
        invariant selfHasGreater <==>
          exists a :: a in counters.Keys + other.Keys - pending && Get(counters, a) > Get(other, a)
        invariant otherHasGreater <==>
          exists a :: a in counters.Keys + other.Keys - pending && Get(other, a) > Get(counters, a)
        decreases pending
      {
        var actor :| actor in pending;
        var v1, v2 := Get(counters, actor), Get(other, actor);
        if v1 > v2 {
          selfHasGreater := true;
        } else if v2 > v1 {
          otherHasGreater := true;
        }
        pending := pending - {actor};
      }
      assert selfHasGreater == !Leq(counters, other);
      assert otherHasGreater == !Leq(other, counters);
      if selfHasGreater && otherHasGreater {
        cmp := None;
      } else if selfHasGreater {
        cmp := Some(Greater);
      } else if otherHasGreater {
        cmp := Some(Less);
      } else {
        cmp := Some(Equal);
      }
    }

    // Raises every counter to the other clock's, in whatever order its entries come.
    method Merge(other: Clock)
      modifies this
      ensures counters == Join(old(counters), other)
    {
      var pending := other.Keys;
      while pending != {}
        invariant pending <= other.Keys
        invariant counters.Keys == old(counters).Keys + (other.Keys - pending)
        invariant forall a :: a in counters && a !in pending ==> counters[a] == Join(old(counters), other)[a]
        invariant forall a :: a in counters && a in pending ==> a in old(counters) && counters[a] == old(counters)[a]
        decreases pending
      {
        var actor :| actor in pending;
        if actor !in counters {
          counters := counters[actor := 0];
        }
        if other[actor] > counters[actor] {
          counters := counters[actor := other[actor]];
        }
        pending := pending - {actor};
      }
    }
  }
}
