// The device's view of its context: reads and writes by dotted path on top of the runtime.
module Devices {
  import opened Wrappers
  import opened JsonTrees
  import opened DeepMerges
  import opened Paths
  import opened PathLaws
  import opened Runtimes

  datatype DeviceError = BadPath(error: PathError) | Network

  type Answer = Result<(), DeviceError>

  class Device {
    const runtime: Runtime

    constructor (runtime: Runtime)
      ensures this.runtime == runtime
    {
      this.runtime := runtime;
    }

    ghost function Data(): Json
      reads runtime, runtime.localContext, runtime.localContext.vectorClock
    {
      runtime.View().context.data
    }

    method Get(path: string) returns (r: Result<Json, PathError>)
      ensures r == GetAt(Data(), path)
    {
      var data := runtime.GetPeerContext(None);
      r := GetCtx(data, path);
    }

    method Has(path: string) returns (found: bool)
      ensures found <==> path == "" || HasPath(Data(), Split(path))
    {
      var r := Get(path);
      found := r.Ok?;
      GetKeysIsLookup(Data(), Split(path));
    }

    // Reads the tree, writes into the copy, and sends the copy as a patch. With nothing in between,
    // that merges the value at the path and touches nothing else.
    method Update(path: string, value: Json, now: nat, outcome: PublishOutcome) returns (r: Answer)
      modifies runtime, runtime.localContext, runtime.localContext.vectorClock
      ensures SetAt(old(Data()), path, value).Err? ==>
                r == Err(BadPath(SetAt(old(Data()), path, value).error)) && runtime.View() == old(runtime.View())
      ensures SetAt(old(Data()), path, value).Ok? ==>
                && runtime.View() == AfterContextCommand(old(runtime.View()),
                     UpdateSelfContext(SetAt(old(Data()), path, value).value), now, outcome)
                && r == (if outcome == Failed then Err(Network) else Ok(()))
                && Ok(Data()) == SetAt(old(Data()), path, UpdatedValue(old(Data()), path, value))
    {
      var current := Get("");
      var place := new Place(current.value);
      var written := SetNestedValue(place, path, value);
      if written.Err? {
        return Err(BadPath(written.error));
      }
      UpdateIsLocal(current.value, path, value);
      var sent := runtime.HandleContextCommand(UpdateSelfContext(place.value), now, outcome);
      r := if sent == NetworkError then Err(Network) else Ok(());
    }

    // As Update, but the copy replaces the tree, so the path ends with exactly the value.
    method Replace(path: string, value: Json, now: nat, outcome: PublishOutcome) returns (r: Answer)
      modifies runtime, runtime.localContext, runtime.localContext.vectorClock
      ensures SetAt(old(Data()), path, value).Err? ==>
                r == Err(BadPath(SetAt(old(Data()), path, value).error)) && runtime.View() == old(runtime.View())
      ensures SetAt(old(Data()), path, value).Ok? ==>
                && runtime.View() == AfterContextCommand(old(runtime.View()),
                     ReplaceSelfContext(SetAt(old(Data()), path, value).value), now, outcome)
                && r == (if outcome == Failed then Err(Network) else Ok(()))
                && Ok(Data()) == SetAt(old(Data()), path, value)
    {
      var current := Get("");
      var place := new Place(current.value);
      var written := SetNestedValue(place, path, value);
      if written.Err? {
        return Err(BadPath(written.error));
      }
      var sent := runtime.HandleContextCommand(ReplaceSelfContext(place.value), now, outcome);
      r := if sent == NetworkError then Err(Network) else Ok(());
    }

    method Delete(path: string, now: nat, outcome: PublishOutcome) returns (r: Answer)
      modifies runtime, runtime.localContext, runtime.localContext.vectorClock
      ensures DeleteAt(old(Data()), path).Err? ==>
                r == Err(BadPath(DeleteAt(old(Data()), path).error)) && runtime.View() == old(runtime.View())
      ensures DeleteAt(old(Data()), path).Ok? ==>
                && runtime.View() == AfterContextCommand(old(runtime.View()),
                     ReplaceSelfContext(DeleteAt(old(Data()), path).value), now, outcome)
                && r == (if outcome == Failed then Err(Network) else Ok(()))
                && Ok(Data()) == DeleteAt(old(Data()), path)
                && (path != "" ==> !HasPath(Data(), Split(path)))
                && (path == "" ==> Data() == EMPTY_OBJECT)
    {
      var current := Get("");
      var place := new Place(current.value);
      var deleted := DeleteNestedValue(place, path);
      if deleted.Err? {
        return Err(BadPath(deleted.error));
      }
      if path != "" {
        LookupAfterDelete(current.value, Split(path), Split(path));
      }
      var sent := runtime.HandleContextCommand(ReplaceSelfContext(place.value), now, outcome);
      r := if sent == NetworkError then Err(Network) else Ok(());
    }

    method Clear(now: nat, outcome: PublishOutcome) returns (r: Answer)
      modifies runtime, runtime.localContext, runtime.localContext.vectorClock
      ensures Data() == EMPTY_OBJECT
      ensures runtime.View() == AfterContextCommand(old(runtime.View()), ReplaceSelfContext(EMPTY_OBJECT), now, outcome)
      ensures r == (if outcome == Failed then Err(Network) else Ok(()))
    {
      var sent := runtime.HandleContextCommand(ReplaceSelfContext(EMPTY_OBJECT), now, outcome);
      r := if sent == NetworkError then Err(Network) else Ok(());
    }
  }

  // What an update leaves at its path: the old value with the new one merged over it.
  function UpdatedValue(data: Json, path: string, value: Json): Json {
    if path == "" then DeepMerge(data, value, false) else MergedValue(data, Split(path), value)
  }

  lemma {:induction false} UpdateIsLocal(data: Json, path: string, value: Json)
    requires SetAt(data, path, value).Ok?
    ensures SetAt(data, path, UpdatedValue(data, path, value)) ==
            Ok(DeepMerge(data, SetAt(data, path, value).value, false))
  {
    if path != "" {
      MergingAnEditIsLocal(data, Split(path), value);
    }
  }

  // Every path that neither leads to nor starts with the updated one keeps its value, and the
  // updated path reads back as the merged value.
  lemma {:induction false} UpdateFrame(data: Json, path: string, value: Json, other: string)
    requires SetAt(data, path, value).Ok?
    ensures var t := DeepMerge(data, SetAt(data, path, value).value, false);
      && GetAt(t, path) == Ok(UpdatedValue(data, path, value))
      && (path != "" && other != "" && Incomparable(Split(path), Split(other)) ==>
            Lookup(t, Split(other)) == Lookup(data, Split(other)))
  {
    UpdateIsLocal(data, path, value);
    SetThenGet(data, path, UpdatedValue(data, path, value), other);
  }

  // Of two updates at unrelated paths that both read before either wrote, the second undoes the first
  // unless that one created its path or conflicts with nothing it found there.
  lemma {:induction false} InterleavedUpdatesKeepFirstIff(data: Json, first: string, v: Json, second: string, w: Json)
    requires first != "" && second != "" && Incomparable(Split(first), Split(second))
    requires SetAt(data, first, v).Ok? && SetAt(data, second, w).Ok?
    ensures var afterFirst := DeepMerge(data, SetAt(data, first, v).value, false);
      var afterBoth := DeepMerge(afterFirst, SetAt(data, second, w).value, false);
      && GetAt(afterFirst, first) == Ok(MergedValue(data, Split(first), v))
      && (GetAt(afterBoth, first) == GetAt(afterFirst, first) <==>
            (HasPath(data, Split(first)) ==> Compatible(Lookup(data, Split(first)).value, v)))
  {
    var p := Split(first);
    var afterFirst := DeepMerge(data, SetAt(data, first, v).value, false);
    var afterBoth := DeepMerge(afterFirst, SetAt(data, second, w).value, false);
    UpdateFrame(data, first, v, second);
    SetKeysFailsIff(Rooted(data), p, v);
    StaleCopyOutcome(data, afterFirst, Split(second), w, p);
    GetKeysIsLookup(afterFirst, p);
    GetKeysIsLookup(afterBoth, p);
    if HasPath(data, p) {
      PatchedBackKeepsIff(Lookup(data, p).value, v);
    }
  }
}
