// What the dotted-path operations guarantee about each other.
module PathLaws {
  import opened Wrappers
  import opened JsonTrees
  import opened DeepMerges
  import opened Paths

  predicate Incomparable(p: Path, q: Path) {
    !(p <= q) && !(q <= p)
  }

  // ----- Failure, exactly

  lemma {:induction false} SetKeysFailsIff(t: Json, keys: Path, v: Json)
    requires keys != []
    ensures SetKeys(t, keys, v).Err? <==> Cut(t, keys)
    decreases |keys|
  {
    if t.Obj? && |keys| > 1 {
      SetKeysFailsIff(ChildOrNew(t, keys[0]), keys[1..], v);
    }
  }

  // A write fails exactly when the root is an object and some proper non-empty prefix of the
  // path holds a non-object. (The write method proves that a failure leaves the tree as it was.)
  lemma {:induction false} SetFailsIff(t: Json, path: string, v: Json)
    ensures SetAt(t, path, v).Err? <==>
            && path != ""
            && t.Obj?
            && exists n :: 0 < n < |Split(path)| && HasPath(t, Split(path)[..n]) && !ObjectAt(t, Split(path)[..n])
  {
    var keys := Split(path);
    SetKeysFailsIff(Rooted(t), keys, v);
    CutIffNonObjectPrefix(t, keys);
    if t.Obj? && Cut(t, keys) {
      var n :| 0 <= n < |keys| && HasPath(t, keys[..n]) && !Lookup(t, keys[..n]).value.Obj?;
      assert n != 0;
      assert !ObjectAt(t, keys[..n]);
    }
  }

  // A delete fails exactly when the parent of the last key is not an object in the tree.
  lemma {:induction false} DeleteKeysFailsIff(t: Json, keys: Path)
    requires keys != []
    ensures DeleteKeys(t, keys).Err? <==> !ObjectAt(t, keys[..|keys| - 1])
    decreases |keys|
  {
    if |keys| > 1 {
      var child := keys[1..];
      assert keys[..|keys| - 1] == [keys[0]] + child[..|child| - 1];
      LookupStep(t, keys[0], child[..|child| - 1]);
      if t.Obj? && keys[0] in t.fields {
        DeleteKeysFailsIff(t.fields[keys[0]], child);
      }
    }
  }

  // A failing read names the first key that is not there: all before it are.
  lemma {:induction false} ReadFailsAt(t: Json, keys: Path) returns (n: nat)
    requires !HasPath(t, keys)
    ensures n < |keys| && HasPath(t, keys[..n]) && !HasPath(t, keys[..n + 1])
    ensures GetKeys(t, keys) == Err(KeyNotFound(keys[n]))
    decreases |keys|
  {
    n := 0;
    if t.Obj? && keys[0] in t.fields {
      var m := ReadFailsAt(t.fields[keys[0]], keys[1..]);
      n := m + 1;
      PrefixBelow(t, keys, m);
      PrefixBelow(t, keys, n);
    }
  }

  lemma {:induction false} PrefixBelow(t: Json, keys: Path, n: nat)
    requires n < |keys| && t.Obj? && keys[0] in t.fields
    ensures Lookup(t, keys[..n + 1]) == Lookup(t.fields[keys[0]], keys[1..][..n])
  {
    assert keys[..n + 1] == [keys[0]] + keys[1..][..n];
    LookupStep(t, keys[0], keys[1..][..n]);
  }

  // A failing write meets a non-object, and names the key it was to go on with, or no key if that was
  // the last one.
  lemma {:induction false} WriteFailsAt(t: Json, keys: Path, v: Json) returns (n: nat)
    requires Cut(t, keys)
    ensures n < |keys| && HasPath(t, keys[..n]) && !ObjectAt(t, keys[..n])
    ensures SetKeys(t, keys, v) == Err(if n == |keys| - 1 then ParentNotObject else FailedToNavigate(keys[n]))
    decreases |keys|
  {
    n := 0;
    if t.Obj? {
      var m := WriteFailsAt(t.fields[keys[0]], keys[1..], v);
      n := m + 1;
      PrefixBelow(t, keys, m);
    }
  }

  // A failing delete finds a parent that is no object, or names the first key before the last that is
  // not there.
  lemma {:induction false} DeleteFailsAt(t: Json, keys: Path) returns (n: nat)
    requires keys != [] && !ObjectAt(t, keys[..|keys| - 1])
    ensures if HasPath(t, keys[..|keys| - 1]) then
              DeleteKeys(t, keys) == Err(ParentNotObject)
            else
              && n < |keys| - 1 && HasPath(t, keys[..n]) && !HasPath(t, keys[..n + 1])
              && DeleteKeys(t, keys) == Err(FailedToNavigate(keys[n]))
    decreases |keys|
  {
    n := 0;
    if |keys| > 1 {
      var child := keys[1..];
      if t.Obj? && keys[0] in t.fields {
        PrefixBelow(t, keys, |child| - 1);
        var m := DeleteFailsAt(t.fields[keys[0]], child);
        n := m + 1;
        if m < |child| {
          PrefixBelow(t, keys, m);
          PrefixBelow(t, keys, n);
        }
      } else {
        assert keys[..|keys| - 1][0] == keys[0];
      }
    }
  }

  // ----- What a successful write leaves at every path

  lemma {:induction false} LookupAfterSet(t: Json, keys: Path, v: Json, p: Path)
    requires keys != [] && SetKeys(t, keys, v).Ok?
    ensures var r := SetKeys(t, keys, v).value;
      && (keys <= p ==> Lookup(r, p) == Lookup(v, p[|keys|..]))
      && (p < keys ==> ObjectAt(r, p))
      && (Incomparable(p, keys) ==> Lookup(r, p) == Lookup(t, p))
    decreases |keys|
  {
    if |keys| > 1 && p != [] && p[0] == keys[0] {
      LookupAfterSet(ChildOrNew(t, keys[0]), keys[1..], v, p[1..]);
      assert p == [p[0]] + p[1..] && keys == [keys[0]] + keys[1..];
    }
  }

  // Reading back gives the value; every path that is not on the way keeps what it held.
  lemma {:induction false} SetThenGet(t: Json, path: string, v: Json, other: string)
    requires SetAt(t, path, v).Ok?
    ensures GetAt(SetAt(t, path, v).value, path) == Ok(v)
    ensures path != "" && other != "" && Incomparable(Split(path), Split(other)) ==>
            Lookup(SetAt(t, path, v).value, Split(other)) == Lookup(t, Split(other))
  {
    if path != "" {
      var r := SetAt(t, path, v).value;
      LookupAfterSet(Rooted(t), Split(path), v, Split(path));
      LookupAfterSet(Rooted(t), Split(path), v, Split(other));
      GetKeysIsLookup(r, Split(path));
    }
  }

  lemma {:induction false} LookupAfterDelete(t: Json, keys: Path, p: Path)
    requires keys != [] && DeleteKeys(t, keys).Ok?
    ensures var r := DeleteKeys(t, keys).value;
      && (keys <= p ==> Lookup(r, p) == None)
      && (p < keys ==> ObjectAt(r, p))
      && (Incomparable(p, keys) ==> Lookup(r, p) == Lookup(t, p))
    decreases |keys|
  {
    if |keys| > 1 && p != [] && p[0] == keys[0] {
      LookupAfterDelete(t.fields[keys[0]], keys[1..], p[1..]);
      assert p == [p[0]] + p[1..] && keys == [keys[0]] + keys[1..];
    }
  }

  // After a successful delete of a path other than the root the path is gone, and nothing else is. The
  // root can always be deleted; what is left is an object with nothing below it.
  lemma {:induction false} DeleteThenGet(t: Json, path: string, other: string)
    requires DeleteAt(t, path).Ok?
    ensures path != "" ==> GetAt(DeleteAt(t, path).value, path).Err?
    ensures path != "" && other != "" && Incomparable(Split(path), Split(other)) ==>
            Lookup(DeleteAt(t, path).value, Split(other)) == Lookup(t, Split(other))
  {
    if path != "" {
      LookupAfterDelete(t, Split(path), Split(path));
      LookupAfterDelete(t, Split(path), Split(other));
      GetKeysIsLookup(DeleteAt(t, path).value, Split(path));
    }
  }

  lemma {:induction false} DeleteRoot(t: Json, p: Path)
    ensures DeleteAt(t, "").Ok?
    ensures ObjectAt(DeleteAt(t, "").value, [])
    ensures p != [] ==> !HasPath(DeleteAt(t, "").value, p)
  {
  }

  // ----- Laws between operations

  function SetTwice(t: Json, p: Path, v: Json, q: Path, w: Json): Option<Json>
    requires p != [] && q != []
  {
    match SetKeys(t, p, v)
    case Err(_) => None
    case Ok(x) =>
      match SetKeys(x, q, w)
      case Err(_) => None
      case Ok(y) => Some(y)
  }

  // Writes at paths of which neither is a prefix of the other commute, and fail together.
  lemma {:induction false} SetsCommute(t: Json, p: Path, v: Json, q: Path, w: Json)
    requires Incomparable(p, q)
    ensures SetTwice(t, p, v, q, w) == SetTwice(t, q, w, p, v)
    decreases |p|
  {
    if t.Obj? {
      var k, l := p[0], q[0];
      if k == l {
        assert p == [k] + p[1..] && q == [k] + q[1..];
        var child := ChildOrNew(t, k);
        SetsCommute(child, p[1..], v, q[1..], w);
        SetTwiceBelow(t, k, p, v, q, w);
        SetTwiceBelow(t, k, q, w, p, v);
      } else {
        SetTwiceApart(t, p, v, q, w);
        SetTwiceApart(t, q, w, p, v);
        var x, y := StoredUnder(t, p, v), StoredUnder(t, q, w);
        if x.Ok? && y.Ok? {
          assert t.fields[k := x.value][l := y.value] == t.fields[l := y.value][k := x.value];
        }
      }
    }
  }

  // The value that a write along p stores under p's first key.
  function StoredUnder(t: Json, p: Path, v: Json): Result<Json, PathError>
    requires t.Obj? && p != []
  {
    if |p| == 1 then Ok(v) else SetKeys(ChildOrNew(t, p[0]), p[1..], v)
  }

  lemma {:induction false} SetTwiceApart(t: Json, p: Path, v: Json, q: Path, w: Json)
    requires t.Obj? && p != [] && q != [] && p[0] != q[0]
    ensures SetTwice(t, p, v, q, w) ==
            match (StoredUnder(t, p, v), StoredUnder(t, q, w))
            case (Ok(x), Ok(y)) => Some(Obj(t.fields[p[0] := x][q[0] := y]))
            case _ => None
  {
  }

  lemma {:induction false} SetTwiceBelow(t: Json, k: string, p: Path, v: Json, q: Path, w: Json)
    requires t.Obj? && |p| > 1 && |q| > 1 && p[0] == q[0] == k
    ensures SetTwice(t, p, v, q, w) ==
            match SetTwice(ChildOrNew(t, k), p[1..], v, q[1..], w)
            case Some(x) => Some(Obj(t.fields[k := x]))
            case None => None
  {
    var child := ChildOrNew(t, k);
    if SetKeys(child, p[1..], v).Ok? {
      var x := SetKeys(child, p[1..], v).value;
      assert ChildOrNew(Obj(t.fields[k := x]), k) == x;
      if SetKeys(x, q[1..], w).Ok? {
        var y := SetKeys(x, q[1..], w).value;
        assert t.fields[k := x][k := y] == t.fields[k := y];
      }
    }
  }

  // The same for whole paths, where a root that is not an object is replaced.
  function SetBoth(t: Json, first: string, v: Json, second: string, w: Json): Option<Json> {
    match SetAt(t, first, v)
    case Err(_) => None
    case Ok(x) =>
      match SetAt(x, second, w)
      case Err(_) => None
      case Ok(y) => Some(y)
  }

  lemma {:induction false} WritesCommute(t: Json, first: string, v: Json, second: string, w: Json)
    requires first != "" && second != "" && Incomparable(Split(first), Split(second))
    ensures SetBoth(t, first, v, second, w) == SetBoth(t, second, w, first, v)
  {
    SetsCommute(Rooted(t), Split(first), v, Split(second), w);
  }

  // Writing a key that was absent from an existing object and deleting it restores the tree.
  lemma {:induction false} SetThenDeleteRestores(t: Json, keys: Path, v: Json)
    requires keys != [] && ObjectAt(t, keys[..|keys| - 1]) && !HasPath(t, keys)
    ensures SetKeys(t, keys, v).Ok?
    ensures DeleteKeys(SetKeys(t, keys, v).value, keys) == Ok(t)
    decreases |keys|
  {
    if |keys| == 1 {
      LookupStep(t, keys[0], []);
      assert keys == [keys[0]] + [];
      assert t.fields[keys[0] := v] - {keys[0]} == t.fields;
    } else {
      var rest := keys[1..];
      assert keys[..|keys| - 1] == [keys[0]] + rest[..|rest| - 1];
      LookupStep(t, keys[0], rest[..|rest| - 1]);
      SetThenDeleteRestores(t.fields[keys[0]], rest, v);
      var x := SetKeys(t.fields[keys[0]], rest, v).value;
      assert t.fields[keys[0] := x][keys[0] := t.fields[keys[0]]] == t.fields;
    }
  }

  // Deleting a key and writing its old value back restores the tree.
  lemma {:induction false} DeleteThenSetRestores(t: Json, keys: Path)
    requires keys != [] && HasPath(t, keys)
    ensures DeleteKeys(t, keys).Ok?
    ensures SetKeys(DeleteKeys(t, keys).value, keys, Lookup(t, keys).value) == Ok(t)
    decreases |keys|
  {
    if |keys| == 1 {
      var x := t.fields[keys[0]];
      assert Lookup(t, keys) == Some(x);
      assert (t.fields - {keys[0]})[keys[0] := x] == t.fields;
    } else {
      DeleteThenSetRestores(t.fields[keys[0]], keys[1..]);
      var x := DeleteKeys(t.fields[keys[0]], keys[1..]).value;
      assert t.fields[keys[0] := x][keys[0] := t.fields[keys[0]]] == t.fields;
    }
  }

  // ----- Read, write into the copy, merge the copy back

  // What the merge leaves at the path of the write.
  function MergedValue(t: Json, keys: Path, v: Json): Json {
    if HasPath(t, keys) then DeepMerge(Lookup(t, keys).value, v, false) else v
  }

  // Merging a tree with its own edited copy edits only that path, and merges there.
  lemma {:induction false} MergingAnEditIsLocal(t: Json, keys: Path, v: Json)
    requires keys != [] && SetKeys(Rooted(t), keys, v).Ok?
    ensures SetKeys(Rooted(t), keys, MergedValue(t, keys, v)) ==
            Ok(DeepMerge(t, SetKeys(Rooted(t), keys, v).value, false))
    decreases |keys|
  {
    if t.Obj? {
      var k := keys[0];
      var edited := SetKeys(t, keys, v).value;
      assert edited == Obj(t.fields[k := edited.fields[k]]);
      MergingOneField(t, k, edited.fields[k]);
      if |keys| == 1 {
        LookupStep(t, k, []);
        assert keys == [k] + [];
      } else {
        MergingAnEditIsLocal(ChildOrNew(t, k), keys[1..], v);
      }
    }
  }

  // A copy with one field changed merges in at that field only.
  lemma {:induction false} MergingOneField(t: Json, k: string, x: Json)
    requires t.Obj?
    ensures DeepMerge(t, Obj(t.fields[k := x]), false) ==
            Obj(t.fields[k := if k in t.fields then DeepMerge(t.fields[k], x, false) else x])
    ensures x == DeepMerge(EMPTY_OBJECT, x, false)
  {
    var merged := DeepMerge(t, Obj(t.fields[k := x]), false);
    forall other | other in t.fields && other != k ensures merged.fields[other] == t.fields[other] {
      MergeIdempotent(t.fields[other], false);
    }
    assert merged.fields == t.fields[k := if k in t.fields then DeepMerge(t.fields[k], x, false) else x];
    MergingIntoNew(x);
  }

  lemma MergingIntoNew(t: Json)
    ensures DeepMerge(EMPTY_OBJECT, t, false) == t
  {
  }

  // ----- The tree moves on between the read and the merge

  lemma {:induction false} CutAfterSet(t: Json, keys: Path, v: Json, p: Path)
    requires keys != [] && SetKeys(t, keys, v).Ok? && Incomparable(p, keys)
    ensures Cut(SetKeys(t, keys, v).value, p) == Cut(t, p)
    decreases |keys|
  {
    if |keys| > 1 && p != [] && p[0] == keys[0] {
      assert p == [p[0]] + p[1..] && keys == [keys[0]] + keys[1..];
      CutAfterSet(ChildOrNew(t, keys[0]), keys[1..], v, p[1..]);
    }
  }

  // What a merge of the copy leaves at a path that the write did not concern: the copy's value merged
  // over the current one; or the current one alone, unless a non-object of the copy stands above it.
  function StaleOutcome(read: Json, now: Json, p: Path): Option<Json> {
    match (Lookup(read, p), Lookup(now, p))
    case (Some(x), Some(y)) => Some(DeepMerge(y, x, false))
    case (Some(x), None) => Some(x)
    case (None, Some(y)) => if Cut(Rooted(read), p) then None else Some(y)
    case (None, None) => None
  }

  lemma {:induction false} StaleCopyOutcome(read: Json, now: Json, keys: Path, v: Json, p: Path)
    requires keys != [] && SetKeys(Rooted(read), keys, v).Ok? && Incomparable(p, keys)
    ensures Lookup(DeepMerge(now, SetKeys(Rooted(read), keys, v).value, false), p) == StaleOutcome(read, now, p)
  {
    var edited := SetKeys(Rooted(read), keys, v).value;
    LookupAfterSet(Rooted(read), keys, v, p);
    CutAfterSet(Rooted(read), keys, v, p);
    PatchByPath(now, edited, p);
  }

  // If the tree has moved on since the copy was read, a path that the write does not concern keeps
  // its current value exactly if neither tree has it, or only the current tree has it and nothing in
  // the copy stands above it, or both have it and the current value contains all of the copy's, with
  // the same leaves.
  lemma {:induction false} StaleCopyKeepsIff(read: Json, now: Json, keys: Path, v: Json, p: Path)
    requires keys != [] && SetKeys(Rooted(read), keys, v).Ok? && Incomparable(p, keys)
    ensures Lookup(DeepMerge(now, SetKeys(Rooted(read), keys, v).value, false), p) == Lookup(now, p) <==>
            || (!HasPath(read, p) && !HasPath(now, p))
            || (!HasPath(read, p) && HasPath(now, p) && !Cut(Rooted(read), p))
            || (HasPath(read, p) && HasPath(now, p) && Contains(Lookup(now, p).value, Lookup(read, p).value))
  {
    StaleCopyOutcome(read, now, keys, v, p);
    if HasPath(read, p) && HasPath(now, p) {
      ContainsIffPatchKeeps(Lookup(now, p).value, Lookup(read, p).value);
    }
  }

  // Patching the old value back over a patch keeps the patch exactly if the two do not conflict.
  lemma {:induction false} PatchedBackKeepsIff(a: Json, b: Json)
    ensures DeepMerge(DeepMerge(a, b, false), a, false) == DeepMerge(a, b, false) <==> Compatible(a, b)
    decreases b
  {
    if a.Obj? && b.Obj? {
      var m := DeepMerge(a, b, false).fields;
      var r := DeepMerge(Obj(m), a, false).fields;
      forall k | k in a.fields
        ensures r[k] == m[k] <==> (k in b.fields ==> Compatible(a.fields[k], b.fields[k]))
      {
        if k in b.fields {
          PatchedBackKeepsIff(a.fields[k], b.fields[k]);
        } else {
          MergeIdempotent(a.fields[k], false);
        }
      }
      assert r.Keys == m.Keys;
      if Compatible(a, b) {
        assert r == m;
      }
      if r == m {
        forall k | k in b.fields && k in a.fields ensures Compatible(a.fields[k], b.fields[k]) {
          assert r[k] == m[k];
        }
      }
    }
  }
}
