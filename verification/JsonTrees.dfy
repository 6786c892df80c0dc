// The JSON values carried by a context, seen the way the context engine sees them:
// an object is a map from keys to values, and everything else is one indivisible value.
module JsonTrees {
  import opened Wrappers

  datatype Json =
    | Null
    | Bool(truth: bool)
    | Number(literal: string)
    | Text(chars: string)
    | Array(items: seq<Json>)
    | Obj(fields: map<string, Json>)

  type Path = seq<string>

  const EMPTY_OBJECT := Obj(map[])

  // The value that a walk along the keys of p reaches. Only objects have keys.
  function Lookup(t: Json, p: Path): Option<Json> {
    if p == [] then Some(t)
    else if t.Obj? && p[0] in t.fields then Lookup(t.fields[p[0]], p[1..])
    else None
  }

  predicate HasPath(t: Json, p: Path) {
    Lookup(t, p).Some?
  }

  // The walk along p meets a non-object before its end.
  predicate Cut(t: Json, p: Path) {
    p != [] && (t.Obj? ==> p[0] in t.fields && Cut(t.fields[p[0]], p[1..]))
  }

  // A non-object is found at p.
  predicate LeafAt(t: Json, p: Path, x: Json) {
    Lookup(t, p) == Some(x) && !x.Obj?
  }

  predicate ObjectAt(t: Json, p: Path) {
    HasPath(t, p) && Lookup(t, p).value.Obj?
  }

  lemma {:induction false} LookupStep(t: Json, k: string, p: Path)
    ensures Lookup(t, [k] + p) == if t.Obj? && k in t.fields then Lookup(t.fields[k], p) else None
    ensures Cut(t, [k] + p) == (t.Obj? ==> k in t.fields && Cut(t.fields[k], p))
  {
  }

  // Walking p and then q is walking p + q.
  lemma {:induction false} LookupConcat(t: Json, p: Path, q: Path)
    ensures Lookup(t, p + q) == if HasPath(t, p) then Lookup(Lookup(t, p).value, q) else None
  {
    if p == [] {
      assert p + q == q;
    } else if t.Obj? && p[0] in t.fields {
      assert (p + q)[1..] == p[1..] + q;
      LookupConcat(t.fields[p[0]], p[1..], q);
    }
  }

  // Cut says exactly that some proper prefix of the path resolves to a non-object.
  lemma {:induction false} CutIffNonObjectPrefix(t: Json, p: Path)
    ensures Cut(t, p) <==> exists n :: 0 <= n < |p| && HasPath(t, p[..n]) && !Lookup(t, p[..n]).value.Obj?
  {
    if p == [] {
    } else if !t.Obj? {
      assert p[..0] == [] && HasPath(t, p[..0]);
    } else if p[0] in t.fields {
      var child, rest := t.fields[p[0]], p[1..];
      CutIffNonObjectPrefix(child, rest);
      forall n | 0 < n < |p|
        ensures Lookup(t, p[..n]) == Lookup(child, rest[..n - 1])
      {
        assert p[..n] == [p[0]] + rest[..n - 1];
        LookupStep(t, p[0], rest[..n - 1]);
      }
      if n :| 0 <= n < |rest| && HasPath(child, rest[..n]) && !Lookup(child, rest[..n]).value.Obj? {
        assert Lookup(t, p[..n + 1]) == Lookup(child, rest[..n + 1 - 1]);
      }
      if n :| 0 <= n < |p| && HasPath(t, p[..n]) && !Lookup(t, p[..n]).value.Obj? {
        assert n != 0;
        assert !Lookup(child, rest[..n - 1]).value.Obj?;
      }
    } else {
      forall n | 0 < n < |p| ensures !HasPath(t, p[..n]) {
        assert p[..n][0] == p[0];
      }
      assert p[..0] == [];
    }
  }

  // The smallest tree that holds x at p.
  function Nested(p: Path, x: Json): Json {
    if p == [] then x else Obj(map[p[0] := Nested(p[1..], x)])
  }

  lemma {:induction false} NestedHolds(p: Path, x: Json)
    ensures Lookup(Nested(p, x), p) == Some(x) && !Cut(Nested(p, x), p)
    decreases |p|
  {
    if p != [] {
      NestedHolds(p[1..], x);
    }
  }

  // The two trees hold objects at the same paths, and the same leaves at the same paths.
  ghost predicate SameContent(s: Json, t: Json) {
    && (forall p :: ObjectAt(s, p) <==> ObjectAt(t, p))
    && (forall p, x :: LeafAt(s, p, x) <==> LeafAt(t, p, x))
  }

  // A tree is determined by its objects and leaves.
  lemma {:induction false} SameContentSameTree(s: Json, t: Json)
    requires SameContent(s, t)
    ensures s == t
    decreases s
  {
    assert ObjectAt(s, []) <==> ObjectAt(t, []);
    if !s.Obj? {
      assert LeafAt(s, [], s);
      assert LeafAt(t, [], s);
    } else {
      forall k ensures k in s.fields <==> k in t.fields {
        LookupStep(s, k, []);
        LookupStep(t, k, []);
        if k in s.fields {
          var x := s.fields[k];
          assert ObjectAt(s, [k] + []) || LeafAt(s, [k] + [], x);
        }
        if k in t.fields {
          var x := t.fields[k];
          assert ObjectAt(t, [k] + []) || LeafAt(t, [k] + [], x);
        }
      }
      forall k | k in s.fields ensures s.fields[k] == t.fields[k] {
        SameContentBelow(s, t, k);
        SameContentSameTree(s.fields[k], t.fields[k]);
      }
      assert s.fields == t.fields;
    }
  }

  lemma {:induction false} SameContentBelow(s: Json, t: Json, k: string)
    requires s.Obj? && t.Obj? && k in s.fields && k in t.fields
    requires SameContent(s, t)
    ensures SameContent(s.fields[k], t.fields[k])
  {
    forall p
      ensures Lookup(s, [k] + p) == Lookup(s.fields[k], p) && Lookup(t, [k] + p) == Lookup(t.fields[k], p)
    {
      LookupStep(s, k, p);
      LookupStep(t, k, p);
    }
    forall p ensures ObjectAt(s.fields[k], p) <==> ObjectAt(t.fields[k], p) {
      assert ObjectAt(s, [k] + p) <==> ObjectAt(t, [k] + p);
    }
    forall p, x ensures LeafAt(s.fields[k], p, x) <==> LeafAt(t.fields[k], p, x) {
      assert LeafAt(s, [k] + p, x) <==> LeafAt(t, [k] + p, x);
    }
  }
}
