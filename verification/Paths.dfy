// Dotted-path reads and writes on a JSON tree.
module Paths {
  import opened Wrappers
  import opened JsonTrees

  datatype PathError =
    | FailedToNavigate(key: string)
    | ParentNotObject
    | KeyNotFound(key: string)

  // The result of a write that, like the program's, has no value of its own.
  type Outcome = Result<(), PathError>

  // ----- Dotted paths

  // path.split('.'): always at least one key, possibly empty ones.
  function Split(path: string): (keys: Path)
    ensures keys != []
  {
    SplitFrom(path, [])
  }

  function SplitFrom(path: string, key: string): (keys: Path)
    ensures keys != []
    decreases |path|
  {
    if path == [] then [key]
    else if path[0] == '.' then [key] + SplitFrom(path[1..], [])
    else SplitFrom(path[1..], key + [path[0]])
  }

  function Dotted(keys: Path): string
    requires keys != []
  {
    if |keys| == 1 then keys[0] else keys[0] + "." + Dotted(keys[1..])
  }

  lemma {:induction false} SplitFromDotted(path: string, key: string)
    requires '.' !in key
    ensures Dotted(SplitFrom(path, key)) == key + path
    ensures forall k :: k in SplitFrom(path, key) ==> '.' !in k
    decreases |path|
  {
    if path == [] {
      assert key + path == key;
    } else if path[0] == '.' {
      SplitFromDotted(path[1..], []);
      assert key + "." + ([] + path[1..]) == key + path;
      assert SplitFrom(path, key)[1..] == SplitFrom(path[1..], []);
    } else {
      SplitFromDotted(path[1..], key + [path[0]]);
      assert key + [path[0]] + path[1..] == key + path;
    }
  }

  // Splitting loses nothing, and only the empty path splits into the lone empty key.
  lemma {:induction false} SplitRoundTrip(path: string)
    ensures Dotted(Split(path)) == path
    ensures forall k :: k in Split(path) ==> '.' !in k
    ensures Split(path) == [""] <==> path == ""
  {
    SplitFromDotted(path, []);
  }

  // ----- Reading

  // Every key on the way must be a key of an object.
  function GetAt(t: Json, path: string): Result<Json, PathError> {
    if path == "" then Ok(t) else GetKeys(t, Split(path))
  }

  function GetKeys(t: Json, keys: Path): Result<Json, PathError>
    decreases |keys|
  {
    if keys == [] then Ok(t)
    else if t.Obj? && keys[0] in t.fields then GetKeys(t.fields[keys[0]], keys[1..])
    else Err(KeyNotFound(keys[0]))
  }

  lemma {:induction false} GetKeysIsLookup(t: Json, keys: Path)
    ensures GetKeys(t, keys).Ok? <==> HasPath(t, keys)
    ensures HasPath(t, keys) ==> GetKeys(t, keys).value == Lookup(t, keys).value
    decreases |keys|
  {
    if keys != [] && t.Obj? && keys[0] in t.fields {
      GetKeysIsLookup(t.fields[keys[0]], keys[1..]);
    }
  }

  // The loop of get_ctx: a reference steps from object to object.
  method GetCtx(data: Json, path: string) returns (r: Result<Json, PathError>)
    ensures r == GetAt(data, path)
  {
    if path == "" {
      return Ok(data);
    }
    var keys := Split(path);
    var current := data;
    var i := 0;
    while i < |keys|
      invariant 0 <= i <= |keys|
      invariant GetKeys(data, keys) == GetKeys(current, keys[i..])
    {
      if !current.Obj? || keys[i] !in current.fields {
        return Err(KeyNotFound(keys[i]));
      }
      assert keys[i..][1..] == keys[i + 1..];
      current := current.fields[keys[i]];
      i := i + 1;
    }
    r := Ok(current);
  }

  // ----- Writing

  // What lies at the key, or the object that the walk creates there.
  function ChildOrNew(t: Json, key: string): Json
    requires t.Obj?
  {
    if key in t.fields then t.fields[key] else EMPTY_OBJECT
  }

  // The tree with v stored at keys. Missing objects are created; a non-object on the way fails.
  function SetKeys(t: Json, keys: Path, v: Json): Result<Json, PathError>
    requires keys != []
    decreases |keys|
  {
    if !t.Obj? then Err(if |keys| == 1 then ParentNotObject else FailedToNavigate(keys[0]))
    else if |keys| == 1 then Ok(Obj(t.fields[keys[0] := v]))
    else
      match SetKeys(ChildOrNew(t, keys[0]), keys[1..], v)
      case Ok(child) => Ok(Obj(t.fields[keys[0] := child]))
      case Err(e) => Err(e)
  }

  // set_nested_value: the empty path replaces everything, and a non-object root is replaced first.
  function SetAt(t: Json, path: string, v: Json): Result<Json, PathError> {
    if path == "" then Ok(v) else SetKeys(Rooted(t), Split(path), v)
  }

  function Rooted(t: Json): Json {
    if t.Obj? then t else EMPTY_OBJECT
  }

  function DeleteKeys(t: Json, keys: Path): Result<Json, PathError>
    requires keys != []
    decreases |keys|
  {
    if |keys| == 1 then
      if t.Obj? then Ok(Obj(t.fields - {keys[0]})) else Err(ParentNotObject)
    else if !t.Obj? || keys[0] !in t.fields then Err(FailedToNavigate(keys[0]))
    else
      match DeleteKeys(t.fields[keys[0]], keys[1..])
      case Ok(child) => Ok(Obj(t.fields[keys[0] := child]))
      case Err(e) => Err(e)
  }

  // delete_nested_value: the empty path leaves an empty object.
  function DeleteAt(t: Json, path: string): Result<Json, PathError> {
    if path == "" then Ok(EMPTY_OBJECT) else DeleteKeys(t, Split(path))
  }

  // ----- Walking down with a mutable cursor

  // t with the subtree at p replaced.
  function Graft(t: Json, p: Path, x: Json): (r: Json)
    requires HasPath(t, p)
    decreases |p|
  {
    if p == [] then x else Obj(t.fields[p[0] := Graft(t.fields[p[0]], p[1..], x)])
  }

  lemma {:induction false} GraftLookup(t: Json, p: Path, x: Json)
    requires HasPath(t, p)
    ensures Lookup(Graft(t, p, x), p) == Some(x)
    ensures Graft(t, p, Lookup(t, p).value) == t
    decreases |p|
  {
    if p != [] {
      GraftLookup(t.fields[p[0]], p[1..], x);
    }
  }

  lemma {:induction false} GraftTwice(t: Json, p: Path, x: Json, y: Json)
    requires HasPath(t, p)
    ensures HasPath(Graft(t, p, x), p) && Graft(Graft(t, p, x), p, y) == Graft(t, p, y)
    decreases |p|
  {
    if p != [] {
      GraftTwice(t.fields[p[0]], p[1..], x, y);
      assert Graft(Graft(t, p, x), p, y).fields == Graft(t, p, y).fields;
    }
  }

  // Writing below p is writing into the subtree at p and grafting it back.
  lemma {:induction false} SetKeysBelow(t: Json, p: Path, q: Path, v: Json)
    requires HasPath(t, p) && q != []
    ensures SetKeys(t, p + q, v) ==
            match SetKeys(Lookup(t, p).value, q, v)
            case Ok(x) => Ok(Graft(t, p, x))
            case Err(e) => Err(e)
    decreases |p|
  {
    if p == [] {
      assert p + q == q;
    } else {
      assert (p + q)[1..] == p[1..] + q;
      SetKeysBelow(t.fields[p[0]], p[1..], q, v);
    }
  }

  lemma {:induction false} DeleteKeysBelow(t: Json, p: Path, q: Path)
    requires HasPath(t, p) && q != []
    ensures DeleteKeys(t, p + q) ==
            match DeleteKeys(Lookup(t, p).value, q)
            case Ok(x) => Ok(Graft(t, p, x))
            case Err(e) => Err(e)
    decreases |p|
  {
    if p == [] {
      assert p + q == q;
    } else {
      assert (p + q)[1..] == p[1..] + q;
      DeleteKeysBelow(t.fields[p[0]], p[1..], q);
    }
  }

  // A place that holds a JSON value and is written through a mutable reference. The cursor of a
  // walk is the path of the node it stands on.
  class Place {
    var value: Json

    constructor (value: Json)
      ensures this.value == value
    {
      this.value := value;
    }
  }

  method SetNestedValue(place: Place, path: string, newValue: Json) returns (r: Outcome)
    modifies place
    ensures r.Ok? <==> SetAt(old(place.value), path, newValue).Ok?
    ensures r.Ok? ==> place.value == SetAt(old(place.value), path, newValue).value
    ensures r.Err? ==> place.value == old(place.value) && r.error == SetAt(old(place.value), path, newValue).error
  {
    if path == "" {
      place.value := newValue;
      return Ok(());
    }
    if !place.value.Obj? {
      place.value := EMPTY_OBJECT;
    }
    var keys := Split(path);
    var current := place.value;
    var i := 0;
    while true
      invariant 0 <= i < |keys|
      invariant HasPath(place.value, keys[..i]) && Lookup(place.value, keys[..i]).value == current
      invariant SetKeys(place.value, keys, newValue) == SetKeys(Rooted(old(place.value)), keys, newValue)
      // Once an object has been created the walk stays inside fresh objects and cannot fail.
      invariant place.value == old(place.value) || current == EMPTY_OBJECT
      decreases |keys| - i
    {
      var key := keys[i];
      assert keys == keys[..i] + keys[i..];
      SetKeysBelow(place.value, keys[..i], keys[i..], newValue);
      if i == |keys| - 1 {
        if current.Obj? {
          place.value := Graft(place.value, keys[..i], Obj(current.fields[key := newValue]));
          return Ok(());
        }
        return Err(ParentNotObject);
      }
      if current.Obj? && key !in current.fields {
        ghost var before := place.value;
        var extended := Obj(current.fields[key := EMPTY_OBJECT]);
        GraftLookup(before, keys[..i], extended);
        place.value := Graft(place.value, keys[..i], extended);
        current := extended;
        SetKeysBelow(place.value, keys[..i], keys[i..], newValue);
        OpeningIsInvisible(before, keys[..i], keys[i..], newValue);
      }
      if !current.Obj? {
        return Err(FailedToNavigate(key));
      }
      LookupConcat(place.value, keys[..i], [key]);
      LookupStep(current, key, []);
      assert [key] + [] == [key];
      assert keys[..i + 1] == keys[..i] + [key];
      current := current.fields[key];
      i := i + 1;
    }
  }

  // Creating the missing object at the cursor does not change what the whole write computes.
  lemma {:induction false} OpeningIsInvisible(t: Json, p: Path, q: Path, v: Json)
    requires ObjectAt(t, p) && |q| >= 2 && q[0] !in Lookup(t, p).value.fields
    ensures var extended := Obj(Lookup(t, p).value.fields[q[0] := EMPTY_OBJECT]);
      HasPath(Graft(t, p, extended), p) &&
      SetKeys(Graft(t, p, extended), p + q, v) == SetKeys(t, p + q, v)
  {
    var c := Lookup(t, p).value;
    var extended := Obj(c.fields[q[0] := EMPTY_OBJECT]);
    GraftLookup(t, p, extended);
    SetKeysBelow(t, p, q, v);
    SetKeysBelow(Graft(t, p, extended), p, q, v);
    var below := SetKeys(EMPTY_OBJECT, q[1..], v);
    if below.Ok? {
      assert extended.fields[q[0] := below.value] == c.fields[q[0] := below.value];
      GraftTwice(t, p, extended, Obj(c.fields[q[0] := below.value]));
    }
  }

  method DeleteNestedValue(place: Place, path: string) returns (r: Outcome)
    modifies place
    ensures r.Ok? <==> DeleteAt(old(place.value), path).Ok?
    ensures r.Ok? ==> place.value == DeleteAt(old(place.value), path).value
    ensures r.Err? ==> place.value == old(place.value) && r.error == DeleteAt(old(place.value), path).error
  {
    if path == "" {
      place.value := EMPTY_OBJECT;
      return Ok(());
    }
    var keys := Split(path);
    var current := place.value;
    var i := 0;
    while true
      invariant 0 <= i < |keys|
      invariant place.value == old(place.value)
      invariant HasPath(place.value, keys[..i]) && Lookup(place.value, keys[..i]).value == current
      decreases |keys| - i
    {
      var key := keys[i];
      assert keys == keys[..i] + keys[i..];
      DeleteKeysBelow(place.value, keys[..i], keys[i..]);
      if i == |keys| - 1 {
        if current.Obj? {
          place.value := Graft(place.value, keys[..i], Obj(current.fields - {key}));
          return Ok(());
        }
        return Err(ParentNotObject);
      }
      if !current.Obj? || key !in current.fields {
        return Err(FailedToNavigate(key));
      }
      LookupConcat(place.value, keys[..i], [key]);
      LookupStep(current, key, []);
      assert [key] + [] == [key];
      assert keys[..i + 1] == keys[..i] + [key];
      current := current.fields[key];
      i := i + 1;
    }
  }
}
