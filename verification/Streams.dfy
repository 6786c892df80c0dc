// The logical streams of one node: the table of open streams, and what each input does to it.
module Streams {
  import opened Wrappers
  import opened Contexts

  datatype StreamStatus = Requested | Accepted | Active

  datatype StreamDirection = Inbound | Outbound

  datatype StreamState = StreamState(peer: string, reason: string, status: StreamStatus, direction: StreamDirection)

  datatype StreamMessage =
    | RequestStream(id: nat, reason: string)
    | AcceptStream(id: nat)
    | RejectStream(id: nat, reason: string)
    | StreamData(id: nat, data: Bytes)
    | CloseStream(id: nat)
    | SyncContext(context: Context)

  // Whether the peer id of an Open is well formed is for the network library to say.
  datatype StreamCommand =
    | Open(peer: string, wellFormed: bool, reason: string)
    | Accept(id: nat)
    | Reject(id: nat, reason: string)
    | Send(id: nat, data: Bytes)
    | Close(id: nat)

  datatype Reply = Opened(id: nat) | Done | PeerNotFound(peer: string) | StreamNotFound(id: nat)

  datatype StreamEvent =
    | StreamRequested(from: string, id: nat, reason: string)
    | StreamAccepted(peer: string, id: nat)
    | StreamRejected(peer: string, id: nat, reason: string)
    | DataArrived(peer: string, id: nat, data: Bytes)
    | StreamClosed(peer: string, id: nat)

  datatype Packet = Packet(to: string, message: StreamMessage)

  // Ids of opened streams come from a counter that starts at 1.
  datatype Table = Table(streams: map<nat, StreamState>, nextId: nat)

  const EMPTY_TABLE := Table(map[], 1)

  // ----- Commands of the local user

  function AfterCommand(t: Table, c: StreamCommand): Table {
    match c
    case Open(peer, wellFormed, reason) =>
      if wellFormed then
        Table(t.streams[t.nextId := StreamState(peer, reason, Requested, Outbound)], t.nextId + 1)
      else t
    case Accept(id) =>
      if id in t.streams then t.(streams := t.streams[id := t.streams[id].(status := Accepted)]) else t
    case Reject(id, _) => t.(streams := t.streams - {id})
    case Send(_, _) => t
    case Close(id) => t.(streams := t.streams - {id})
  }

  function CommandReply(t: Table, c: StreamCommand): Reply {
    match c
    case Open(peer, wellFormed, _) => if wellFormed then Opened(t.nextId) else PeerNotFound(peer)
    case _ => if c.id in t.streams then Done else StreamNotFound(c.id)
  }

  // At most one message goes out, always to the peer on record for the id.
  function CommandPackets(t: Table, c: StreamCommand): seq<Packet> {
    match c
    case Open(peer, wellFormed, reason) =>
      if wellFormed then [Packet(peer, RequestStream(t.nextId, reason))] else []
    case _ =>
      if c.id !in t.streams then [] else
      [Packet(t.streams[c.id].peer,
              match c
              case Accept(id) => AcceptStream(id)
              case Reject(id, reason) => RejectStream(id, reason)
              case Send(id, data) => StreamData(id, data)
              case Close(id) => CloseStream(id))]
  }

  // ----- Messages of a remote peer. The sender is never compared with the peer on record.

  function AfterMessage(t: Table, from: string, m: StreamMessage): Table {
    match m
    case RequestStream(id, reason) => t.(streams := t.streams[id := StreamState(from, reason, Requested, Inbound)])
    case AcceptStream(id) =>
      if id in t.streams then t.(streams := t.streams[id := t.streams[id].(status := Active)]) else t
    case RejectStream(id, _) => t.(streams := t.streams - {id})
    case StreamData(_, _) => t
    case CloseStream(id) => t.(streams := t.streams - {id})
    case SyncContext(_) => t
  }

  function MessageEvents(t: Table, from: string, m: StreamMessage): seq<StreamEvent> {
    match m
    case RequestStream(id, reason) => [StreamRequested(from, id, reason)]
    case AcceptStream(id) => if id in t.streams then [StreamAccepted(from, id)] else []
    case RejectStream(id, reason) => if id in t.streams then [StreamRejected(from, id, reason)] else []
    case StreamData(id, data) => if id in t.streams then [DataArrived(from, id, data)] else []
    case CloseStream(id) => [StreamClosed(from, id)]
    case SyncContext(_) => []
  }

  // ----- The last connection to a peer is gone

  function StreamsOf(t: Table, peer: string): set<nat> {
    set id | id in t.streams && t.streams[id].peer == peer
  }

  function AfterDisconnect(t: Table, peer: string): Table {
    t.(streams := t.streams - StreamsOf(t, peer))
  }

  // ----- Whole logs of inputs

  datatype Input =
    | FromUser(command: StreamCommand)
    | FromPeer(peer: string, message: StreamMessage)
    | ConnectionClosed(peer: string, remaining: nat)

  function After(t: Table, input: Input): Table {
    match input
    case FromUser(c) => AfterCommand(t, c)
    case FromPeer(peer, m) => AfterMessage(t, peer, m)
    case ConnectionClosed(peer, remaining) => if remaining == 0 then AfterDisconnect(t, peer) else t
  }

  function AfterAll(log: seq<Input>): Table {
    if log == [] then EMPTY_TABLE else After(AfterAll(log[..|log| - 1]), log[|log| - 1])
  }

  predicate IsOpen(input: Input) {
    input.FromUser? && input.command.Open? && input.command.wellFormed
  }

  function OpensIn(log: seq<Input>): nat {
    if log == [] then 0 else OpensIn(log[..|log| - 1]) + if IsOpen(log[|log| - 1]) then 1 else 0
  }

  // The stream that the i-th input opens under this id: the n-th well-formed Open opens id n, and a
  // peer's request opens whatever id it names.
  function OpenedBy(log: seq<Input>, i: nat, id: nat): Option<StreamState>
    requires i < |log|
  {
    match log[i]
    case FromUser(Open(peer, true, reason)) =>
      if id == OpensIn(log[..i]) + 1 then Some(StreamState(peer, reason, Requested, Outbound)) else None
    case FromPeer(peer, RequestStream(named, reason)) =>
      if named == id then Some(StreamState(peer, reason, Requested, Inbound)) else None
    case _ => None
  }

  // Local close or reject, remote close or reject by anybody, or the final disconnect of its peer.
  predicate EndedBy(input: Input, id: nat, peer: string) {
    match input
    case FromUser(Reject(named, _)) => named == id
    case FromUser(Close(named)) => named == id
    case FromPeer(_, RejectStream(named, _)) => named == id
    case FromPeer(_, CloseStream(named)) => named == id
    case ConnectionClosed(gone, remaining) => remaining == 0 && gone == peer
    case _ => false
  }

  // The status that the input, if it concerns the stream, gives it.
  function Signal(input: Input, id: nat): Option<StreamStatus> {
    match input
    case FromUser(Accept(named)) => if named == id then Some(Accepted) else None
    case FromPeer(_, AcceptStream(named)) => if named == id then Some(Active) else None
    case _ => None
  }

  // Opened by input i, and neither opened anew nor ended since.
  ghost predicate OpenSince(log: seq<Input>, i: nat, id: nat) {
    && i < |log|
    && OpenedBy(log, i, id).Some?
    && forall j :: i < j < |log| ==>
         OpenedBy(log, j, id).None? && !EndedBy(log[j], id, OpenedBy(log, i, id).value.peer)
  }

  // The status is that of the last signal since input i, if any.
  ghost predicate LastSignal(log: seq<Input>, i: nat, id: nat, status: StreamStatus)
    requires i < |log|
  {
    || (status == Requested && forall j :: i < j < |log| ==> Signal(log[j], id) == None)
    || exists j :: i < j < |log| && Signal(log[j], id) == Some(status) &&
         forall k :: j < k < |log| ==> Signal(log[k], id) == None
  }

  ghost predicate Explains(log: seq<Input>, i: nat, id: nat, state: StreamState) {
    && OpenSince(log, i, id)
    && state.(status := Requested) == OpenedBy(log, i, id).value
    && LastSignal(log, i, id, state.status)
  }

  lemma {:induction false} CounterFollowsLog(log: seq<Input>)
    ensures AfterAll(log).nextId == OpensIn(log) + 1
    decreases |log|
  {
    if log != [] {
      CounterFollowsLog(log[..|log| - 1]);
    }
  }

  lemma {:induction false} OpensMonotone(log: seq<Input>, i: nat, j: nat)
    requires i <= j <= |log|
    ensures OpensIn(log[..i]) <= OpensIn(log[..j])
    decreases j
  {
    if i < j {
      OpensMonotone(log, i, j - 1);
      assert log[..j][..j - 1] == log[..j - 1];
    }
  }

  // No two opens of one node ever get the same id.
  lemma {:induction false} OpenedIdsAreFresh(log: seq<Input>, i: nat, j: nat)
    requires i < j < |log| && IsOpen(log[i]) && IsOpen(log[j])
    ensures CommandReply(AfterAll(log[..i]), log[i].command) != CommandReply(AfterAll(log[..j]), log[j].command)
  {
    CounterFollowsLog(log[..i]);
    CounterFollowsLog(log[..j]);
    OpensMonotone(log, i + 1, j);
    assert log[..i + 1][..i] == log[..i];
  }

  // An id is opened from this side at most once.
  lemma {:induction false} OpenedOnceOutbound(log: seq<Input>, i: nat, j: nat, id: nat)
    requires i < j < |log| && OpenedBy(log, i, id).Some? && OpenedBy(log, i, id).value.direction == Outbound
    ensures OpenedBy(log, j, id).Some? ==> OpenedBy(log, j, id).value.direction == Inbound
  {
    OpensMonotone(log, i + 1, j);
    assert log[..i + 1][..i] == log[..i];
  }

  lemma {:induction false} OpenedByPrefix(log: seq<Input>, n: nat, i: nat, id: nat)
    requires i < n <= |log|
    ensures OpenedBy(log[..n], i, id) == OpenedBy(log, i, id)
  {
    assert log[..n][..i] == log[..i];
  }

  // What the last input does to what the log says about a stream.
  lemma {:induction false} ExplainsStep(log: seq<Input>, i: nat, id: nat, state: StreamState)
    requires log != [] && Explains(log[..|log| - 1], i, id, state)
    requires OpenedBy(log, |log| - 1, id).None? && !EndedBy(log[|log| - 1], id, state.peer)
    ensures var signal := Signal(log[|log| - 1], id);
      Explains(log, i, id, if signal.Some? then state.(status := signal.value) else state)
  {
    var n := |log| - 1;
    forall j: nat | j < n ensures OpenedBy(log[..n], j, id) == OpenedBy(log, j, id) && log[..n][j] == log[j] {
      OpenedByPrefix(log, n, j, id);
    }
    assert OpenSince(log, i, id);
    var signal := Signal(log[n], id);
    if signal.Some? {
      assert LastSignal(log, i, id, signal.value);
    } else if state.status == Requested && forall j :: i < j < n ==> Signal(log[..n][j], id) == None {
      assert forall j :: i < j < |log| ==> Signal(log[j], id) == None by {
        forall j | i < j < n ensures Signal(log[j], id) == None {
          assert Signal(log[..n][j], id) == None;
        }
      }
    } else {
      var j :| i < j < n && Signal(log[..n][j], id) == Some(state.status) &&
        forall k :: j < k < n ==> Signal(log[..n][k], id) == None;
      forall k | j < k < |log| ensures Signal(log[k], id) == None {
        if k < n {
          assert Signal(log[..n][k], id) == None;
        }
      }
      assert Signal(log[j], id) == Some(state.status);
    }
  }

  lemma {:induction false} OpenSinceBefore(log: seq<Input>, i: nat, id: nat)
    requires log != [] && OpenSince(log, i, id) && i < |log| - 1
    ensures OpenSince(log[..|log| - 1], i, id)
  {
    var n := |log| - 1;
    forall j: nat | j < n ensures OpenedBy(log[..n], j, id) == OpenedBy(log, j, id) && log[..n][j] == log[j] {
      OpenedByPrefix(log, n, j, id);
    }
  }

  // After any log the table holds exactly the streams that were opened and not ended since, each with
  // the peer, reason and direction of its opening and the status of its last signal.
  lemma {:induction false} TableEqualsLog(log: seq<Input>, id: nat)
    ensures id in AfterAll(log).streams <==> exists i: nat :: OpenSince(log, i, id)
    ensures id in AfterAll(log).streams ==>
            exists i: nat :: Explains(log, i, id, AfterAll(log).streams[id])
    decreases |log|
  {
    if log != [] {
      var n := |log| - 1;
      var before, t, input := AfterAll(log[..n]), AfterAll(log), log[n];
      TableEqualsLog(log[..n], id);
      CounterFollowsLog(log[..n]);
      if OpenedBy(log, n, id).Some? {
        assert Explains(log, n, id, t.streams[id]);
      } else if id in before.streams {
        var i: nat :| Explains(log[..n], i, id, before.streams[id]);
        if id in t.streams {
          assert !EndedBy(input, id, before.streams[id].peer);
          ExplainsStep(log, i, id, before.streams[id]);
          assert Explains(log, i, id, t.streams[id]);
        } else {
          assert EndedBy(input, id, before.streams[id].peer);
          if k: nat :| OpenSince(log, k, id) {
            assert k != n;
            OpenSinceBefore(log, k, id);
            OpenSinceUnique(log[..n], i, k, id);
            OpenedByPrefix(log, n, i, id);
            assert false;
          }
        }
      } else {
        assert id !in t.streams;
        if k: nat :| OpenSince(log, k, id) {
          OpenSinceBefore(log, k, id);
          assert false;
        }
      }
    }
  }

  lemma OpenSinceUnique(log: seq<Input>, i: nat, k: nat, id: nat)
    requires OpenSince(log, i, id) && OpenSince(log, k, id)
    ensures i == k
  {
  }

  // Data, acceptance and rejection are announced only for streams that are open at that moment.
  lemma {:induction false} AnnouncedOnlyWhileOpen(log: seq<Input>, from: string, m: StreamMessage, e: StreamEvent)
    requires e in MessageEvents(AfterAll(log), from, m)
    requires e.DataArrived? || e.StreamAccepted? || e.StreamRejected?
    ensures e.peer == from && exists i: nat :: OpenSince(log, i, e.id)
  {
    TableEqualsLog(log, e.id);
  }

  // A command on a stream that is not open, as the log tells, is refused and does nothing; on an open
  // one it is carried out.
  lemma {:induction false} UnknownStreamIsRefused(log: seq<Input>, c: StreamCommand)
    requires !c.Open?
    ensures CommandReply(AfterAll(log), c) ==
            if exists i: nat :: OpenSince(log, i, c.id) then Done else StreamNotFound(c.id)
    ensures (!exists i: nat :: OpenSince(log, i, c.id)) ==>
              AfterCommand(AfterAll(log), c) == AfterAll(log) && CommandPackets(AfterAll(log), c) == []
  {
    TableEqualsLog(log, c.id);
    var t := AfterAll(log);
    if c.id !in t.streams {
      assert t.streams - {c.id} == t.streams;
    }
  }

  // ----- What is sent, announced and answered, as the log tells

  // An open is answered with the next id and asks the peer for a stream under that id; one to a
  // malformed peer id is refused.
  lemma {:induction false} OpenIsAnswered(log: seq<Input>, c: StreamCommand)
    requires c.Open?
    ensures var n := OpensIn(log + [FromUser(c)]);
      if c.wellFormed then
        && n == OpensIn(log) + 1
        && CommandReply(AfterAll(log), c) == Opened(n)
        && CommandPackets(AfterAll(log), c) == [Packet(c.peer, RequestStream(n, c.reason))]
        && OpenSince(log + [FromUser(c)], |log|, n)
        && OpenedBy(log + [FromUser(c)], |log|, n) == Some(StreamState(c.peer, c.reason, Requested, Outbound))
      else
        && n == OpensIn(log)
        && CommandReply(AfterAll(log), c) == PeerNotFound(c.peer)
        && CommandPackets(AfterAll(log), c) == []
  {
    CounterFollowsLog(log);
    assert (log + [FromUser(c)])[..|log|] == log;
  }

  // On an open stream each command sends one message of its own kind to the peer of its opening.
  lemma {:induction false} CommandIsSent(log: seq<Input>, i: nat, c: StreamCommand)
    requires !c.Open? && OpenSince(log, i, c.id)
    ensures var peer := OpenedBy(log, i, c.id).value.peer;
      && (c.Accept? ==> CommandPackets(AfterAll(log), c) == [Packet(peer, AcceptStream(c.id))])
      && (c.Reject? ==> CommandPackets(AfterAll(log), c) == [Packet(peer, RejectStream(c.id, c.reason))])
      && (c.Send? ==> CommandPackets(AfterAll(log), c) == [Packet(peer, StreamData(c.id, c.data))])
      && (c.Close? ==> CommandPackets(AfterAll(log), c) == [Packet(peer, CloseStream(c.id))])
  {
    TableEqualsLog(log, c.id);
    var k: nat :| Explains(log, k, c.id, AfterAll(log).streams[c.id]);
    OpenSinceUnique(log, i, k, c.id);
  }

  // A message is announced as what it is, under its sender: a request or closing always, acceptance,
  // rejection and data exactly if the log has the stream open.
  lemma {:induction false} MessageIsAnnounced(log: seq<Input>, from: string, m: StreamMessage)
    ensures var events := MessageEvents(AfterAll(log), from, m);
      && (m.RequestStream? ==> events == [StreamRequested(from, m.id, m.reason)])
      && (m.CloseStream? ==> events == [StreamClosed(from, m.id)])
      && (m.SyncContext? ==> events == [])
      && (m.AcceptStream? || m.RejectStream? || m.StreamData? ==>
            if exists i: nat :: OpenSince(log, i, m.id) then
              && (m.AcceptStream? ==> events == [StreamAccepted(from, m.id)])
              && (m.RejectStream? ==> events == [StreamRejected(from, m.id, m.reason)])
              && (m.StreamData? ==> events == [DataArrived(from, m.id, m.data)])
            else events == [])
  {
    if !m.SyncContext? {
      TableEqualsLog(log, m.id);
    }
  }
}
