// The stream dispatcher of a device: which handler instance serves which stream, what each instance
// is told, and what the runtime is asked to do.
module Dispatcher {
  import opened Wrappers

  // A handler instance, by the number of its creation.
  datatype Entry = Entry(reason: string, peer: string, handler: nat)

  datatype Callback =
    | OnAccepted(handler: nat, id: nat, peer: string)
    | OnRejected(handler: nat, id: nat, peer: string, reason: string)
    | OnData(handler: nat, id: nat, peer: string, data: Bytes)
    | OnClosed(handler: nat, id: nat, peer: string)
  {
    predicate Terminal() {
      OnRejected? || OnClosed?
    }
  }

  // What the dispatcher asks of the runtime.
  datatype Call =
    | AcceptStream(id: nat)
    | RefuseStream(id: nat, reason: string)
    | RequestStream(peer: string, reason: string)
    | CloseStream(id: nat)

  const NOT_HANDLED := "not_handled"

  // What reaches the dispatcher; the answers of the runtime to the dispatcher's own calls come along.
  datatype Incoming =
    | Register(reason: string)
    | Requested(from: string, id: nat, reason: string, acceptSucceeds: bool)
    | Accepted(peer: string, id: nat)
    | Rejected(peer: string, id: nat, reason: string)
    | Data(from: string, id: nat, data: Bytes)
    | Closed(peer: string, id: nat)
    | OpenStream(peer: string, reason: string, granted: Option<nat>)
    | Hangup(id: nat, closeSucceeds: bool)

  datatype State = State(factories: set<string>, active: map<nat, Entry>, created: nat,
                         callbacks: seq<Callback>, calls: seq<Call>)

  const EMPTY := State({}, map[], 0, [], [])

  function Asked(s: State, c: Call): State {
    s.(calls := s.calls + [c])
  }

  function Told(s: State, c: Callback): State {
    s.(callbacks := s.callbacks + [c])
  }

  function Installed(s: State, id: nat, reason: string, peer: string): State {
    s.(active := s.active[id := Entry(reason, peer, s.created)], created := s.created + 1)
  }

  function After(s: State, e: Incoming): State {
    match e
    case Register(reason) => s.(factories := s.factories + {reason})
    case Requested(from, id, reason, acceptSucceeds) =>
      if reason !in s.factories then Asked(s, RefuseStream(id, NOT_HANDLED))
      else if !acceptSucceeds then Asked(s, AcceptStream(id))
      else Told(Installed(Asked(s, AcceptStream(id)), id, reason, from), OnAccepted(s.created, id, from))
    case Accepted(peer, id) =>
      if id in s.active then
        Told(s.(active := s.active[id := s.active[id].(peer := peer)]), OnAccepted(s.active[id].handler, id, peer))
      else s
    case Rejected(peer, id, reason) =>
      if id in s.active then
        Told(s.(active := s.active - {id}), OnRejected(s.active[id].handler, id, peer, reason))
      else s
    case Data(_, id, data) =>
      if id in s.active then Told(s, OnData(s.active[id].handler, id, s.active[id].peer, data)) else s
    case Closed(_, id) =>
      if id in s.active then
        Told(s.(active := s.active - {id}), OnClosed(s.active[id].handler, id, s.active[id].peer))
      else s
    case OpenStream(peer, reason, granted) =>
      if reason !in s.factories then s
      else if granted.None? then Asked(s, RequestStream(peer, reason))
      else Installed(Asked(s, RequestStream(peer, reason)), granted.value, reason, peer)
    case Hangup(id, _) => Asked(s, CloseStream(id))
  }

  // Whether the call reports success to its caller.
  function Succeeds(s: State, e: Incoming): bool {
    match e
    case Register(_) => true
    case Requested(_, _, reason, acceptSucceeds) => reason in s.factories && acceptSucceeds
    case OpenStream(_, reason, granted) => reason in s.factories && granted.Some?
    case Hangup(_, closeSucceeds) => closeSucceeds
    case _ => e.id in s.active
  }

  class StreamDispatcher {
    var factories: set<string>
    var activeHandlers: map<nat, Entry>
    var created: nat
    var callbacks: seq<Callback>
    var calls: seq<Call>

    ghost function View(): State
      reads this
    {
      State(factories, activeHandlers, created, callbacks, calls)
    }

    constructor ()
      ensures View() == EMPTY
    {
      factories, activeHandlers, created, callbacks, calls := {}, map[], 0, [], [];
    }

    method RegisterHandler(reason: string)
      modifies this
      ensures View() == After(old(View()), Register(reason))
    {
      factories := factories + {reason};
    }

    method HandleStreamRequested(from: string, id: nat, reason: string, acceptSucceeds: bool) returns (ok: bool)
      modifies this
      ensures View() == After(old(View()), Requested(from, id, reason, acceptSucceeds))
      ensures ok == Succeeds(old(View()), Requested(from, id, reason, acceptSucceeds))
    {
      if reason !in factories {
        calls := calls + [RefuseStream(id, NOT_HANDLED)];
        return false;
      }
      calls := calls + [AcceptStream(id)];
      if !acceptSucceeds {
        return false;
      }
      var handler := created;
      created := created + 1;
      callbacks := callbacks + [OnAccepted(handler, id, from)];
      activeHandlers := activeHandlers[id := Entry(reason, from, handler)];
      ok := true;
    }

    method HandleStreamAccepted(peer: string, id: nat) returns (ok: bool)
      modifies this
      ensures View() == After(old(View()), Accepted(peer, id))
      ensures ok == Succeeds(old(View()), Accepted(peer, id))
    {
      if id !in activeHandlers {
        return false;
      }
      activeHandlers := activeHandlers[id := activeHandlers[id].(peer := peer)];
      callbacks := callbacks + [OnAccepted(activeHandlers[id].handler, id, peer)];
      ok := true;
    }

    method HandleStreamRejected(peer: string, id: nat, reason: string) returns (ok: bool)
      modifies this
      ensures View() == After(old(View()), Rejected(peer, id, reason))
      ensures ok == Succeeds(old(View()), Rejected(peer, id, reason))
    {
      if id !in activeHandlers {
        return false;
      }
      var entry := activeHandlers[id];
      activeHandlers := activeHandlers - {id};
      callbacks := callbacks + [OnRejected(entry.handler, id, peer, reason)];
      ok := true;
    }

    method HandleStreamData(from: string, id: nat, data: Bytes) returns (ok: bool)
      modifies this
      ensures View() == After(old(View()), Data(from, id, data))
      ensures ok == Succeeds(old(View()), Data(from, id, data))
    {
      if id !in activeHandlers {
        return false;
      }
      var entry := activeHandlers[id];
      callbacks := callbacks + [OnData(entry.handler, id, entry.peer, data)];
      ok := true;
    }

    method HandleStreamClosed(peer: string, id: nat) returns (ok: bool)
      modifies this
      ensures View() == After(old(View()), Closed(peer, id))
      ensures ok == Succeeds(old(View()), Closed(peer, id))
    {
      if id !in activeHandlers {
        return false;
      }
      var entry := activeHandlers[id];
      activeHandlers := activeHandlers - {id};
      callbacks := callbacks + [OnClosed(entry.handler, id, entry.peer)];
      ok := true;
    }

    method RequestStream(peer: string, reason: string, granted: Option<nat>) returns (id: Option<nat>)
      modifies this
      ensures View() == After(old(View()), OpenStream(peer, reason, granted))
      ensures id == if Succeeds(old(View()), OpenStream(peer, reason, granted)) then granted else None
    {
      if reason !in factories {
        return None;
      }
      calls := calls + [Call.RequestStream(peer, reason)];
      match granted {
        case None => return None;
        case Some(streamId) =>
          var handler := created;
          created := created + 1;
          activeHandlers := activeHandlers[streamId := Entry(reason, peer, handler)];
          return granted;
      }
    }

    // The handler of the stream stays in service.
    method CloseLocally(id: nat, closeSucceeds: bool) returns (ok: bool)
      modifies this
      ensures View() == After(old(View()), Hangup(id, closeSucceeds))
      ensures ok == Succeeds(old(View()), Hangup(id, closeSucceeds))
    {
      calls := calls + [CloseStream(id)];
      ok := closeSucceeds;
    }
  }

  // ----- Whole logs

  function AfterAll(log: seq<Incoming>): State {
    if log == [] then EMPTY else After(AfterAll(log[..|log| - 1]), log[|log| - 1])
  }

  // Instances in service are distinct, were created, and have not been told of an end; every callback
  // went to a created instance, and none came after an end.
  ghost predicate Orderly(s: State) {
    && (forall id :: id in s.active ==> s.active[id].handler < s.created)
    && (forall i, j :: i in s.active && j in s.active && i != j ==> s.active[i].handler != s.active[j].handler)
    && (forall c :: c in s.callbacks ==> c.handler < s.created)
    && (forall c, id :: c in s.callbacks && c.Terminal() && id in s.active ==> s.active[id].handler != c.handler)
    && EndsAreFinal(s.callbacks)
  }

  ghost predicate EndsAreFinal(callbacks: seq<Callback>) {
    forall i, j :: 0 <= i < j < |callbacks| && callbacks[i].Terminal() ==> callbacks[j].handler != callbacks[i].handler
  }

  // Nobody may be told anything after an end, and nobody in service may be told of one.
  lemma {:induction false} ToldOrderly(s: State, c: Callback)
    requires Orderly(s) && c.handler < s.created
    requires forall b :: b in s.callbacks && b.Terminal() ==> b.handler != c.handler
    requires c.Terminal() ==> forall id :: id in s.active ==> s.active[id].handler != c.handler
    ensures Orderly(Told(s, c))
  {
  }

  lemma {:induction false} InstalledOrderly(s: State, id: nat, reason: string, peer: string)
    requires Orderly(s)
    ensures Orderly(Installed(s, id, reason, peer))
  {
  }

  lemma {:induction false} RemovedOrderly(s: State, id: nat)
    requires Orderly(s) && id in s.active
    ensures var t := s.(active := s.active - {id});
      Orderly(t) && forall j :: j in t.active ==> t.active[j].handler != s.active[id].handler
  {
  }

  lemma {:induction false} StepOrderly(s: State, e: Incoming)
    requires Orderly(s)
    ensures Orderly(After(s, e))
  {
    match e
    case Register(_) =>
    case Requested(from, id, reason, acceptSucceeds) =>
      if reason in s.factories && acceptSucceeds {
        var asked := Asked(s, AcceptStream(id));
        InstalledOrderly(asked, id, reason, from);
        ToldOrderly(Installed(asked, id, reason, from), OnAccepted(s.created, id, from));
      }
    case OpenStream(peer, reason, granted) =>
      if granted.Some? {
        InstalledOrderly(Asked(s, RequestStream(peer, reason)), granted.value, reason, peer);
      }
    case Hangup(_, _) =>
    case _ =>
      if e.id in s.active {
        ServiceOrderly(s, e);
      }
  }

  lemma {:induction false} ServiceOrderly(s: State, e: Incoming)
    requires Orderly(s)
    requires e.Accepted? || e.Rejected? || e.Data? || e.Closed?
    requires e.id in s.active
    ensures Orderly(After(s, e))
  {
    var entry := s.active[e.id];
    var without := s.(active := s.active - {e.id});
    RemovedOrderly(s, e.id);
    match e
    case Accepted(peer, id) =>
      ToldOrderly(s.(active := s.active[id := entry.(peer := peer)]), OnAccepted(entry.handler, id, peer));
    case Rejected(peer, id, reason) =>
      ToldOrderly(without, OnRejected(entry.handler, id, peer, reason));
    case Data(_, id, data) =>
      ToldOrderly(s, OnData(entry.handler, id, entry.peer, data));
    case Closed(_, id) =>
      ToldOrderly(without, OnClosed(entry.handler, id, entry.peer));
  }

  lemma {:induction false} RunOrderly(log: seq<Incoming>)
    ensures Orderly(AfterAll(log))
    decreases |log|
  {
    if log != [] {
      RunOrderly(log[..|log| - 1]);
      StepOrderly(AfterAll(log[..|log| - 1]), log[|log| - 1]);
    }
  }

  // Over every run, a handler instance is told of at most one end, and of nothing after it.
  lemma {:induction false} AtMostOneEnd(log: seq<Incoming>, i: nat, j: nat)
    requires i < j < |AfterAll(log).callbacks|
    requires AfterAll(log).callbacks[i].handler == AfterAll(log).callbacks[j].handler
    ensures !AfterAll(log).callbacks[i].Terminal()
  {
    RunOrderly(log);
  }

  lemma {:induction false} CallbacksGrow(log: seq<Incoming>, more: seq<Incoming>)
    ensures AfterAll(log).callbacks <= AfterAll(log + more).callbacks
    decreases |more|
  {
    if more == [] {
      assert log + more == log;
    } else {
      var n := |more| - 1;
      CallbacksGrow(log, more[..n]);
      assert (log + more)[..|log + more| - 1] == log + more[..n];
    }
  }

  // The instance made for an incoming request hears of the acceptance before anything else, however
  // the run goes on.
  lemma {:induction false} InboundHearsAcceptedFirst(log: seq<Incoming>, e: Incoming, more: seq<Incoming>)
    requires e.Requested? && Succeeds(AfterAll(log), e)
    ensures var s, all := AfterAll(log), AfterAll(log + [e] + more).callbacks;
      && |s.callbacks| < |all|
      && all[|s.callbacks|] == OnAccepted(s.created, e.id, e.from)
      && (forall k :: 0 <= k < |s.callbacks| ==> all[k].handler != s.created)
      && AfterAll(log + [e]).active[e.id] == Entry(e.reason, e.from, s.created)
  {
    RunOrderly(log);
    assert (log + [e])[..|log|] == log;
    CallbacksGrow(log + [e], more);
    CallbacksGrow(log, [e]);
    var s, all := AfterAll(log), AfterAll(log + [e] + more).callbacks;
    forall k | 0 <= k < |s.callbacks| ensures all[k].handler != s.created {
      assert all[k] == s.callbacks[k] && s.callbacks[k] in s.callbacks;
    }
  }

  // ----- Who gets the data

  predicate Registered(log: seq<Incoming>, reason: string) {
    exists i :: 0 <= i < |log| && log[i] == Register(reason)
  }

  // Event i created a handler instance: its reason was registered and the runtime agreed.
  predicate Creates(log: seq<Incoming>, i: nat)
    requires i < |log|
  {
    match log[i]
    case Requested(_, _, reason, acceptSucceeds) => acceptSucceeds && Registered(log[..i], reason)
    case OpenStream(_, reason, granted) => granted.Some? && Registered(log[..i], reason)
    case _ => false
  }

  function CreatedIn(log: seq<Incoming>): nat {
    if log == [] then 0
    else CreatedIn(log[..|log| - 1]) + if Creates(log, |log| - 1) then 1 else 0
  }

  predicate Installs(log: seq<Incoming>, i: nat, id: nat)
    requires i < |log|
  {
    && Creates(log, i)
    && (log[i].Requested? ==> log[i].id == id)
    && (log[i].OpenStream? ==> log[i].granted == Some(id))
  }

  // Event i installed an instance for the stream; none was installed and no end came since.
  ghost predicate InServiceSince(log: seq<Incoming>, i: nat, id: nat) {
    && i < |log| && Installs(log, i, id)
    && forall j :: i < j < |log| ==>
         && !Installs(log, j, id)
         && (log[j].Rejected? || log[j].Closed? ==> log[j].id != id)
  }

  lemma {:induction false} FactoriesFollowLog(log: seq<Incoming>, reason: string)
    ensures reason in AfterAll(log).factories <==> Registered(log, reason)
    decreases |log|
  {
    if log != [] {
      var n := |log| - 1;
      FactoriesFollowLog(log[..n], reason);
      if i :| 0 <= i < |log| && log[i] == Register(reason) {
        if i < n {
          assert log[..n][i] == Register(reason);
        }
      }
      if i :| 0 <= i < n && log[..n][i] == Register(reason) {
        assert log[i] == Register(reason);
      }
    }
  }

  lemma {:induction false} SuccessFollowsLog(log: seq<Incoming>, i: nat)
    requires i < |log| && (log[i].Requested? || log[i].OpenStream?)
    ensures Succeeds(AfterAll(log[..i]), log[i]) <==> Creates(log, i)
  {
    FactoriesFollowLog(log[..i], log[i].reason);
  }

  lemma {:induction false} CreationsFollowLog(log: seq<Incoming>)
    ensures AfterAll(log).created == CreatedIn(log)
    decreases |log|
  {
    if log != [] {
      var n := |log| - 1;
      CreationsFollowLog(log[..n]);
      if log[n].Requested? || log[n].OpenStream? {
        SuccessFollowsLog(log, n);
      }
    }
  }

  lemma {:induction false} InServicePrefix(log: seq<Incoming>, i: nat, id: nat)
    requires log != [] && i < |log| - 1
    ensures InServiceSince(log, i, id) <==>
            && InServiceSince(log[..|log| - 1], i, id)
            && !Installs(log, |log| - 1, id)
            && (var last := log[|log| - 1]; last.Rejected? || last.Closed? ==> last.id != id)
  {
    var n := |log| - 1;
    forall j: nat | j < n ensures Installs(log[..n], j, id) == Installs(log, j, id) && log[..n][j] == log[j] {
      assert log[..n][..j] == log[..j];
    }
  }

  // The peer on record: that of the last acceptance since event i, or else that of event i itself.
  function PeerSince(log: seq<Incoming>, i: nat, id: nat): string
    requires i < |log| && Installs(log, i, id)
    decreases |log|
  {
    var n := |log| - 1;
    if i == n then (if log[i].Requested? then log[i].from else log[i].peer)
    else if log[n].Accepted? && log[n].id == id then log[n].peer
    else
      assert log[..n][..i] == log[..i];
      PeerSince(log[..n], i, id)
  }

  // The entry that event i accounts for.
  ghost predicate Accounts(log: seq<Incoming>, i: nat, id: nat, entry: Entry) {
    && InServiceSince(log, i, id)
    && entry == Entry(log[i].reason, PeerSince(log, i, id), CreatedIn(log[..i]))
  }

  // The handler in service for a stream is the one created by the last event that installed one, with
  // that event's reason and the peer of the last acceptance.
  lemma {:induction false} HandlersFollowLog(log: seq<Incoming>, id: nat)
    ensures id in AfterAll(log).active <==> exists i: nat :: InServiceSince(log, i, id)
    ensures id in AfterAll(log).active ==> exists i: nat :: Accounts(log, i, id, AfterAll(log).active[id])
    decreases |log|
  {
    if log != [] {
      var n := |log| - 1;
      var before, t := AfterAll(log[..n]), AfterAll(log);
      HandlersFollowLog(log[..n], id);
      CreationsFollowLog(log[..n]);
      if log[n].Requested? || log[n].OpenStream? {
        SuccessFollowsLog(log, n);
      }
      if Installs(log, n, id) {
        assert Accounts(log, n, id, t.active[id]);
      } else if id in t.active {
        var i: nat :| Accounts(log[..n], i, id, before.active[id]);
        assert log[..n][..i] == log[..i];
        InServicePrefix(log, i, id);
        assert Accounts(log, i, id, t.active[id]);
      } else if i: nat :| InServiceSince(log, i, id) {
        InServicePrefix(log, i, id);
        assert false;
      }
    }
  }

  // The call that event i makes: a request is accepted if its reason was registered, else refused.
  function CallAt(log: seq<Incoming>, i: nat): Option<Call>
    requires i < |log|
  {
    match log[i]
    case Requested(_, id, reason, _) =>
      Some(if Registered(log[..i], reason) then AcceptStream(id) else RefuseStream(id, NOT_HANDLED))
    case OpenStream(peer, reason, _) => if Registered(log[..i], reason) then Some(RequestStream(peer, reason)) else None
    case Hangup(id, _) => Some(CloseStream(id))
    case _ => None
  }

  function CallsIn(log: seq<Incoming>): seq<Call> {
    if log == [] then []
    else CallsIn(log[..|log| - 1]) + match CallAt(log, |log| - 1) case Some(c) => [c] case None => []
  }

  // The runtime is asked exactly for what the log says, in its order: one answer to every request,
  // and no other call than those of the user.
  lemma {:induction false} CallsFollowLog(log: seq<Incoming>)
    ensures AfterAll(log).calls == CallsIn(log)
    decreases |log|
  {
    if log != [] {
      var n := |log| - 1;
      CallsFollowLog(log[..n]);
      if log[n].Requested? || log[n].OpenStream? {
        FactoriesFollowLog(log[..n], log[n].reason);
      }
    }
  }

  // What the instance in service, installed by event i, is to be told of an event: acceptance and
  // rejection under the peer that the event names, data and closing under the peer on record.
  function Due(log: seq<Incoming>, i: nat, e: Incoming): Callback
    requires e.Accepted? || e.Rejected? || e.Data? || e.Closed?
    requires i < |log| && Installs(log, i, e.id)
  {
    var handler := CreatedIn(log[..i]);
    match e
    case Accepted(peer, id) => OnAccepted(handler, id, peer)
    case Rejected(peer, id, reason) => OnRejected(handler, id, peer, reason)
    case Data(_, id, data) => OnData(handler, id, PeerSince(log, i, id), data)
    case Closed(_, id) => OnClosed(handler, id, PeerSince(log, i, id))
  }

  // An event of a stream is told, once, to the instance most recently installed for it, which stays
  // in service unless it was the end; if no instance is in service nothing happens.
  lemma {:induction false} EventsGoToLatestHandler(log: seq<Incoming>, e: Incoming)
    requires e.Accepted? || e.Rejected? || e.Data? || e.Closed?
    ensures var s, t := AfterAll(log), After(AfterAll(log), e);
      if exists i: nat :: InServiceSince(log, i, e.id) then
        && (exists i: nat :: InServiceSince(log, i, e.id) && t.callbacks == s.callbacks + [Due(log, i, e)])
        && (e.id in t.active <==> e.Accepted? || e.Data?)
        && t.active - {e.id} == s.active - {e.id}
      else t == s
  {
    HandlersFollowLog(log, e.id);
    var s, t := AfterAll(log), After(AfterAll(log), e);
    if e.id in s.active {
      var i: nat :| Accounts(log, i, e.id, s.active[e.id]);
      assert t.callbacks == s.callbacks + [Due(log, i, e)];
      assert t.active - {e.id} == s.active - {e.id};
    }
  }

  lemma {:induction false} OneInService(log: seq<Incoming>, i: nat, k: nat, id: nat)
    requires InServiceSince(log, i, id) && InServiceSince(log, k, id)
    ensures i == k
  {
  }

  predicate AboutStream(e: Incoming) {
    e.Accepted? || e.Rejected? || e.Data? || e.Closed?
  }

  // The callback that event i makes: the acceptance of a request that creates an instance, what an
  // instance in service is due of an event of its stream, and nothing else.
  ghost function CallbackAt(log: seq<Incoming>, i: nat): seq<Callback>
    requires i < |log|
  {
    var e := log[i];
    if e.Requested? && Creates(log, i) then [OnAccepted(CreatedIn(log[..i]), e.id, e.from)]
    else if AboutStream(e) then
      if k: nat :| InServiceSince(log[..i], k, e.id) then [Due(log[..i], k, e)] else []
    else []
  }

  ghost function CallbacksIn(log: seq<Incoming>): seq<Callback> {
    if log == [] then [] else CallbacksIn(log[..|log| - 1]) + CallbackAt(log, |log| - 1)
  }

  // The handlers are told exactly what the log says, in its order.
  lemma {:induction false} CallbacksFollowLog(log: seq<Incoming>)
    ensures AfterAll(log).callbacks == CallbacksIn(log)
    decreases |log|
  {
    if log != [] {
      var n := |log| - 1;
      var earlier, e := log[..n], log[n];
      CallbacksFollowLog(earlier);
      if AboutStream(e) {
        EventsGoToLatestHandler(earlier, e);
        forall k: nat, m: nat | InServiceSince(earlier, k, e.id) && InServiceSince(earlier, m, e.id) ensures k == m {
          OneInService(earlier, k, m, e.id);
        }
      } else if e.Requested? {
        SuccessFollowsLog(log, n);
        CreationsFollowLog(earlier);
      }
    }
  }

  // Whether a call reports success: an event of a stream if an instance is in service, a request or an
  // open if the reason was registered and the runtime agreed, a close if the runtime did.
  lemma {:induction false} AnswersFollowLog(log: seq<Incoming>, e: Incoming)
    ensures AboutStream(e) ==> (Succeeds(AfterAll(log), e) <==> exists i: nat :: InServiceSince(log, i, e.id))
    ensures e.Requested? ==> (Succeeds(AfterAll(log), e) <==> Registered(log, e.reason) && e.acceptSucceeds)
    ensures e.OpenStream? ==> (Succeeds(AfterAll(log), e) <==> Registered(log, e.reason) && e.granted.Some?)
    ensures e.Hangup? ==> (Succeeds(AfterAll(log), e) <==> e.closeSucceeds)
    ensures e.Register? ==> Succeeds(AfterAll(log), e)
  {
    if AboutStream(e) {
      HandlersFollowLog(log, e.id);
    }
    if e.Requested? || e.OpenStream? {
      FactoriesFollowLog(log, e.reason);
    }
  }

  predicate Concerns(e: Incoming, id: nat) {
    AboutStream(e) && e.id == id
  }

  // A handler instance that serves at most this stream, and has been told nothing yet.
  ghost predicate Silent(s: State, handler: nat, id: nat) {
    && handler < s.created
    && (forall c :: c in s.callbacks ==> c.handler != handler)
    && forall i :: i in s.active && s.active[i].handler == handler ==> i == id
  }

  lemma {:induction false} SilentStep(s: State, e: Incoming, handler: nat, id: nat)
    requires Silent(s, handler, id) && !Concerns(e, id)
    ensures Silent(After(s, e), handler, id)
  {
  }

  // The instance that an own request makes is told nothing until an event of its stream comes, however
  // long that takes.
  lemma {:induction false} OutboundHearsItsStreamFirst(log: seq<Incoming>, e: Incoming, more: seq<Incoming>)
    requires e.OpenStream? && Succeeds(AfterAll(log), e)
    requires forall m :: m in more ==> !Concerns(m, e.granted.value)
    ensures Silent(AfterAll(log + [e] + more), AfterAll(log).created, e.granted.value)
    decreases |more|
  {
    var h := AfterAll(log).created;
    if more == [] {
      RunOrderly(log);
      assert log + [e] + more == log + [e];
      assert (log + [e])[..|log|] == log;
    } else {
      var n := |more| - 1;
      assert more[n] in more;
      assert (log + [e] + more)[..|log + [e] + more| - 1] == log + [e] + more[..n];
      OutboundHearsItsStreamFirst(log, e, more[..n]);
      SilentStep(AfterAll(log + [e] + more[..n]), more[n], h, e.granted.value);
    }
  }
}
