// deep_merge: the recursive combination of two JSON trees, and its algebra.
module DeepMerges {
  import opened Wrappers
  import opened JsonTrees

  // Keys of both objects survive; where both have a key the values are merged; where one side
  // is not an object, the preferred side is kept whole.
  function DeepMerge(a: Json, b: Json, preferA: bool): Json
    decreases b
  {
    if a.Obj? && b.Obj? then
      Obj(map k | k in a.fields.Keys + b.fields.Keys ::
            if k !in b.fields then a.fields[k]
            else if k !in a.fields then b.fields[k]
            else DeepMerge(a.fields[k], b.fields[k], preferA))
    else if preferA then a
    else b
  }

  // The loop of deep_merge: b's entries are moved into a's object one at a time, in any order.
  method MergeInto(a: Json, b: Json, preferA: bool) returns (merged: Json)
    ensures merged == DeepMerge(a, b, preferA)
    decreases b
  {
    if a.Obj? && b.Obj? {
      ghost var target := DeepMerge(a, b, preferA).fields;
      var fields := a.fields;
      var pending := b.fields.Keys;
      while pending != {}
        invariant pending <= b.fields.Keys
        invariant fields.Keys == a.fields.Keys + (b.fields.Keys - pending)
        invariant forall k :: k in fields && k !in pending ==> fields[k] == target[k]
        invariant forall k :: k in fields && k in pending ==> k in a.fields && fields[k] == a.fields[k]
        decreases pending
      {
        var k :| k in pending;
        if k in fields {
          var child := MergeInto(fields[k], b.fields[k], preferA);
          fields := fields[k := child];
        } else {
          fields := fields[k := b.fields[k]];
        }
        pending := pending - {k};
      }
      assert fields == target;
      merged := Obj(fields);
    } else if !preferA {
      merged := b;
    } else {
      merged := a;
    }
  }

  // ----- Symmetry, idempotence, absorption

  lemma {:induction false} MergeFlip(a: Json, b: Json)
    ensures DeepMerge(a, b, true) == DeepMerge(b, a, false)
    decreases b
  {
    if a.Obj? && b.Obj? {
      forall k | k in a.fields && k in b.fields
        ensures DeepMerge(a.fields[k], b.fields[k], true) == DeepMerge(b.fields[k], a.fields[k], false)
      {
        MergeFlip(a.fields[k], b.fields[k]);
      }
      assert DeepMerge(a, b, true).fields == DeepMerge(b, a, false).fields;
    }
  }

  lemma {:induction false} MergeIdempotent(a: Json, preferA: bool)
    ensures DeepMerge(a, a, preferA) == a
    decreases a
  {
    if a.Obj? {
      forall k | k in a.fields ensures DeepMerge(a.fields[k], a.fields[k], preferA) == a.fields[k] {
        MergeIdempotent(a.fields[k], preferA);
      }
      assert DeepMerge(a, a, preferA).fields == a.fields;
    }
  }

  // a already holds everything b could add when a is preferred.
  predicate Absorbs(a: Json, b: Json)
    decreases b
  {
    a.Obj? && b.Obj? ==>
      forall k | k in b.fields :: k in a.fields && Absorbs(a.fields[k], b.fields[k])
  }

  lemma {:induction false} AbsorbsIffMergeKeeps(a: Json, b: Json)
    ensures Absorbs(a, b) <==> DeepMerge(a, b, true) == a
    decreases b
  {
    if a.Obj? && b.Obj? {
      var m := DeepMerge(a, b, true);
      forall k | k in a.fields && k in b.fields
        ensures Absorbs(a.fields[k], b.fields[k]) <==> m.fields[k] == a.fields[k]
      {
        AbsorbsIffMergeKeeps(a.fields[k], b.fields[k]);
      }
      if Absorbs(a, b) {
        assert m.fields == a.fields;
      }
      if m == a {
        forall k | k in b.fields ensures k in a.fields && Absorbs(a.fields[k], b.fields[k]) {
          assert k in m.fields;
        }
      }
    }
  }

  // b has nothing that a lacks: its keys are in a at every shared object, with the same leaves.
  predicate Contains(a: Json, b: Json)
    decreases b
  {
    if a.Obj? && b.Obj? then
      forall k | k in b.fields :: k in a.fields && Contains(a.fields[k], b.fields[k])
    else
      a == b
  }

  lemma {:induction false} ContainsIffPatchKeeps(a: Json, b: Json)
    ensures Contains(a, b) <==> DeepMerge(a, b, false) == a
    decreases b
  {
    if a.Obj? && b.Obj? {
      var m := DeepMerge(a, b, false);
      forall k | k in a.fields && k in b.fields
        ensures Contains(a.fields[k], b.fields[k]) <==> m.fields[k] == a.fields[k]
      {
        ContainsIffPatchKeeps(a.fields[k], b.fields[k]);
      }
      if Contains(a, b) {
        assert m.fields == a.fields;
      }
      if m == a {
        forall k | k in b.fields ensures k in a.fields && Contains(a.fields[k], b.fields[k]) {
          assert k in m.fields;
        }
      }
    }
  }

  lemma {:induction false} MergeAbsorbsOperands(a: Json, b: Json, preferA: bool)
    ensures Absorbs(DeepMerge(a, b, preferA), a)
    ensures Absorbs(DeepMerge(a, b, preferA), b)
    decreases b
  {
    if a.Obj? && b.Obj? {
      var m := DeepMerge(a, b, preferA);
      forall k | k in a.fields ensures k in m.fields && Absorbs(m.fields[k], a.fields[k]) {
        if k in b.fields {
          MergeAbsorbsOperands(a.fields[k], b.fields[k], preferA);
        } else {
          AbsorbsItself(a.fields[k]);
        }
      }
      forall k | k in b.fields ensures k in m.fields && Absorbs(m.fields[k], b.fields[k]) {
        if k in a.fields {
          MergeAbsorbsOperands(a.fields[k], b.fields[k], preferA);
        } else {
          AbsorbsItself(b.fields[k]);
        }
      }
    } else {
      AbsorbsItself(if preferA then a else b);
    }
  }

  lemma {:induction false} AbsorbsItself(a: Json)
    ensures Absorbs(a, a)
  {
    MergeIdempotent(a, true);
    AbsorbsIffMergeKeeps(a, a);
  }

  // Merging either operand in again, as the less preferred side, changes nothing.
  lemma {:induction false} MergeAgainKeeps(a: Json, b: Json, preferA: bool)
    ensures DeepMerge(DeepMerge(a, b, preferA), a, true) == DeepMerge(a, b, preferA)
    ensures DeepMerge(DeepMerge(a, b, preferA), b, true) == DeepMerge(a, b, preferA)
  {
    var m := DeepMerge(a, b, preferA);
    MergeAbsorbsOperands(a, b, preferA);
    AbsorbsIffMergeKeeps(m, a);
    AbsorbsIffMergeKeeps(m, b);
  }

  // Re-applying a patch changes nothing.
  lemma {:induction false} PatchAgainKeeps(a: Json, patch: Json)
    ensures DeepMerge(DeepMerge(a, patch, false), patch, false) == DeepMerge(a, patch, false)
    decreases patch
  {
    var m := DeepMerge(a, patch, false);
    if a.Obj? && patch.Obj? {
      forall k | k in patch.fields ensures DeepMerge(m.fields[k], patch.fields[k], false) == m.fields[k] {
        if k in a.fields {
          PatchAgainKeeps(a.fields[k], patch.fields[k]);
        } else {
          MergeIdempotent(patch.fields[k], false);
        }
      }
      assert DeepMerge(m, patch, false).fields == m.fields;
    } else {
      MergeIdempotent(patch, false);
    }
  }

  // ----- The merge path by path

  // What the merged tree holds at p, from what the operands hold at p. Where only the less
  // preferred side has p, it survives unless the preferred side has a non-object above p.
  function MergedLookup(a: Json, b: Json, p: Path): Option<Json> {
    match (Lookup(a, p), Lookup(b, p))
    case (Some(x), Some(y)) => Some(DeepMerge(x, y, true))
    case (Some(x), None) => Some(x)
    case (None, Some(y)) => if Cut(a, p) then None else Some(y)
    case (None, None) => None
  }

  lemma {:induction false} MergeByPath(a: Json, b: Json, p: Path)
    ensures Lookup(DeepMerge(a, b, true), p) == MergedLookup(a, b, p)
    decreases p
  {
    if p != [] && a.Obj? && b.Obj? && p[0] in a.fields && p[0] in b.fields {
      MergeByPath(a.fields[p[0]], b.fields[p[0]], p[1..]);
    }
  }

  lemma {:induction false} PatchByPath(a: Json, b: Json, p: Path)
    ensures Lookup(DeepMerge(a, b, false), p) ==
            match (Lookup(b, p), Lookup(a, p))
            case (Some(y), Some(x)) => Some(DeepMerge(x, y, false))
            case (Some(y), None) => Some(y)
            case (None, Some(x)) => if Cut(b, p) then None else Some(x)
            case (None, None) => None
  {
    MergeFlip(b, a);
    MergeByPath(b, a, p);
    if HasPath(a, p) && HasPath(b, p) {
      MergeFlip(Lookup(b, p).value, Lookup(a, p).value);
    }
  }

  // A non-object in a merged tree was at the same path in one of the operands.
  lemma {:induction false} MergeInventsNoLeaf(a: Json, b: Json, preferA: bool, p: Path, x: Json)
    requires LeafAt(DeepMerge(a, b, preferA), p, x)
    ensures LeafAt(a, p, x) || LeafAt(b, p, x)
  {
    MergeByPath(a, b, p);
    PatchByPath(a, b, p);
  }

  // ----- Associativity

  ghost predicate Associates(a: Json, b: Json, c: Json) {
    DeepMerge(DeepMerge(a, b, true), c, true) == DeepMerge(a, DeepMerge(b, c, true), true)
  }

  // The outer operands are objects at p, the middle one is not, and c still has news for a there.
  ghost predicate Obstructs(a: Json, b: Json, c: Json, p: Path) {
    && ObjectAt(a, p) && HasPath(b, p) && !ObjectAt(b, p) && ObjectAt(c, p)
    && !Absorbs(Lookup(a, p).value, Lookup(c, p).value)
  }

  lemma {:induction false} MergeAssociativeIff(a: Json, b: Json, c: Json)
    ensures Associates(a, b, c) <==> !exists p :: Obstructs(a, b, c, p)
    decreases c
  {
    if a.Obj? && b.Obj? && c.Obj? {
      AssociatesByKey(a, b, c);
      forall k | k in a.fields && k in b.fields && k in c.fields
        ensures Associates(a.fields[k], b.fields[k], c.fields[k]) <==>
                !exists p :: Obstructs(a.fields[k], b.fields[k], c.fields[k], p)
      {
        MergeAssociativeIff(a.fields[k], b.fields[k], c.fields[k]);
      }
      ObstructionsByKey(a, b, c);
    } else {
      AbsorbsIffMergeKeeps(a, c);
      if p :| Obstructs(a, b, c, p) {
        assert p == [];
      }
      if a.Obj? && !b.Obj? && c.Obj? && !Absorbs(a, c) {
        assert Obstructs(a, b, c, []);
      }
    }
  }

  lemma {:induction false} AssociatesByKey(a: Json, b: Json, c: Json)
    requires a.Obj? && b.Obj? && c.Obj?
    ensures Associates(a, b, c) <==>
            forall k :: k in a.fields && k in b.fields && k in c.fields ==>
              Associates(a.fields[k], b.fields[k], c.fields[k])
  {
    var left := DeepMerge(DeepMerge(a, b, true), c, true).fields;
    var right := DeepMerge(a, DeepMerge(b, c, true), true).fields;
    assert left.Keys == right.Keys;
    if forall k :: k in a.fields && k in b.fields && k in c.fields ==>
         Associates(a.fields[k], b.fields[k], c.fields[k]) {
      forall k | k in left ensures left[k] == right[k] {
        if k in a.fields && k in b.fields && k in c.fields {
          assert Associates(a.fields[k], b.fields[k], c.fields[k]);
        }
      }
      assert left == right;
    }
    if left == right {
      forall k | k in a.fields && k in b.fields && k in c.fields
        ensures Associates(a.fields[k], b.fields[k], c.fields[k])
      {
        assert left[k] == right[k];
      }
    }
  }

  lemma {:induction false} ObstructionsByKey(a: Json, b: Json, c: Json)
    requires a.Obj? && b.Obj? && c.Obj?
    ensures (exists p :: Obstructs(a, b, c, p)) <==>
            exists k, q :: k in a.fields && k in b.fields && k in c.fields &&
              Obstructs(a.fields[k], b.fields[k], c.fields[k], q)
  {
    if p :| Obstructs(a, b, c, p) {
      assert p != [];
      assert Obstructs(a.fields[p[0]], b.fields[p[0]], c.fields[p[0]], p[1..]);
    }
    if k, q :| k in a.fields && k in b.fields && k in c.fields &&
               Obstructs(a.fields[k], b.fields[k], c.fields[k], q) {
      LookupStep(a, k, q);
      LookupStep(b, k, q);
      LookupStep(c, k, q);
      assert Obstructs(a, b, c, [k] + q);
    }
  }

  // ----- Trees that do not conflict

  // At every path the two share, they are both objects or they are equal.
  predicate Compatible(a: Json, b: Json)
    decreases b
  {
    if a.Obj? && b.Obj? then
      forall k | k in b.fields && k in a.fields :: Compatible(a.fields[k], b.fields[k])
    else
      a == b
  }

  // Preferring opposite sides gives the same tree exactly when there is no conflict.
  lemma {:induction false} CompatibleIffMergesAgree(a: Json, b: Json)
    ensures Compatible(a, b) <==> DeepMerge(a, b, true) == DeepMerge(b, a, true)
    decreases b
  {
    if a.Obj? && b.Obj? {
      var m, n := DeepMerge(a, b, true).fields, DeepMerge(b, a, true).fields;
      forall k | k in a.fields && k in b.fields
        ensures Compatible(a.fields[k], b.fields[k]) <==> m[k] == n[k]
      {
        CompatibleIffMergesAgree(a.fields[k], b.fields[k]);
      }
      if Compatible(a, b) {
        assert m == n;
      }
      if m == n {
        forall k | k in b.fields && k in a.fields ensures Compatible(a.fields[k], b.fields[k]) {
          assert m[k] == n[k];
        }
      }
    }
  }

  lemma {:induction false} CompatiblePreferenceIrrelevant(a: Json, b: Json, preferA: bool)
    requires Compatible(a, b)
    ensures DeepMerge(a, b, preferA) == DeepMerge(a, b, true)
  {
    CompatibleIffMergesAgree(a, b);
    MergeFlip(b, a);
  }

  // A merge of two trees that do not conflict with c does not conflict with c either.
  lemma {:induction false} CompatibleWithMerge(a: Json, b: Json, c: Json)
    requires Compatible(a, c) && Compatible(b, c)
    ensures Compatible(DeepMerge(a, b, true), c)
    decreases c
  {
    if a.Obj? && b.Obj? && c.Obj? {
      var m := DeepMerge(a, b, true);
      forall k | k in c.fields && k in m.fields ensures Compatible(m.fields[k], c.fields[k]) {
        if k in a.fields && k in b.fields {
          CompatibleWithMerge(a.fields[k], b.fields[k], c.fields[k]);
        }
      }
    }
  }

  lemma {:induction false} CompatibleAt(a: Json, b: Json, p: Path)
    requires Compatible(a, b) && HasPath(a, p) && HasPath(b, p)
    ensures Compatible(Lookup(a, p).value, Lookup(b, p).value)
    decreases p
  {
    if p != [] && a.Obj? && b.Obj? {
      CompatibleAt(a.fields[p[0]], b.fields[p[0]], p[1..]);
    }
  }

  lemma {:induction false} CompatibleIsNotCut(a: Json, b: Json, p: Path)
    requires Compatible(a, b) && HasPath(b, p)
    ensures !Cut(a, p)
    decreases p
  {
    if a.Obj? && b.Obj? {
      if p != [] && p[0] in a.fields {
        CompatibleIsNotCut(a.fields[p[0]], b.fields[p[0]], p[1..]);
      }
    }
  }

  // Merging trees that do not conflict is the union of their contents.
  lemma {:induction false} CompatibleMergeIsUnion(a: Json, b: Json, p: Path)
    requires Compatible(a, b)
    ensures ObjectAt(DeepMerge(a, b, true), p) <==> ObjectAt(a, p) || ObjectAt(b, p)
    ensures forall x :: LeafAt(DeepMerge(a, b, true), p, x) <==> LeafAt(a, p, x) || LeafAt(b, p, x)
  {
    MergeByPath(a, b, p);
    if HasPath(a, p) && HasPath(b, p) {
      CompatibleAt(a, b, p);
    } else if HasPath(b, p) {
      CompatibleIsNotCut(a, b, p);
    }
  }
}
