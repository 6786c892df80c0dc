// The bridge on its mesh node: what the ids that the node hands out make of the bridge's slots.
module Gateway {
  import opened Wrappers
  import opened Bridge
  import Streams

  // The packets the bridge handled, with the node's answers, and all stream inputs of the node: those
  // the bridge gave it, those of its other users, and those of its peers.
  datatype State = State(records: seq<Record>, inputs: seq<Streams.Input>)

  const EMPTY := State([], [])

  // A packet of a device, or an input of the node that does not come from the bridge.
  datatype Turn =
    | Device(addr: string, msg: Uplink, agreed: bool, wellFormed: bool, fits: bool)
    | Node(input: Streams.Input)

  // The command that a call of the bridge gives the node's stream table.
  function CallInputs(calls: seq<MeshCall>, wellFormed: bool): seq<Streams.Input> {
    if calls == [] then []
    else
      (match calls[0]
       case MeshRequest(peer, reason) => [Streams.FromUser(Streams.Open(peer, wellFormed, reason))]
       case MeshSend(id, data) => [Streams.FromUser(Streams.Send(id, data))]
       case MeshClose(id) => [Streams.FromUser(Streams.Close(id))]
       case _ => [])
      + CallInputs(calls[1..], wellFormed)
  }

  // The id that the node's table grants, if the packet asks it for a stream.
  function GrantedStream(s: State, msg: Uplink, wellFormed: bool): Option<nat> {
    if !msg.StreamStart? then None
    else
      match Streams.CommandReply(Streams.AfterAll(s.inputs), Streams.Open(msg.target, wellFormed, msg.reason))
      case Opened(id) => Some(id)
      case _ => None
  }

  function AfterTurn(s: State, turn: Turn): State {
    match turn
    case Node(input) => s.(inputs := s.inputs + [input])
    case Device(addr, msg, agreed, wellFormed, fits) =>
      State(s.records + [Record(addr, msg, Answer(agreed, GrantedStream(s, msg, wellFormed), fits))],
            s.inputs + CallInputs(UplinkCalls(SessionsAfter(s.records), addr, msg), wellFormed))
  }

  function AfterTurns(s: State, turns: seq<Turn>): State
    decreases |turns|
  {
    if turns == [] then s else AfterTurns(AfterTurn(s, turns[0]), turns[1..])
  }

  // Every granted id was given out by the counter, and to one packet only.
  ghost predicate Counted(s: State) {
    && FreshIds(s.records)
    && forall i: nat, a, l, id: nat :: Granted(s.records, i, a, l, id) ==> id <= Streams.OpensIn(s.inputs)
  }

  lemma {:induction false} GrantedPrefix(log: seq<Record>, r: Record, i: nat, a: string, l: LocalId, id: nat)
    requires i < |log|
    ensures Granted(log + [r], i, a, l, id) == Granted(log, i, a, l, id)
  {
    assert (log + [r])[..i] == log[..i];
  }

  lemma {:induction false} OpensAfter(inputs: seq<Streams.Input>, input: Streams.Input)
    ensures Streams.OpensIn(inputs + [input]) == Streams.OpensIn(inputs) + if Streams.IsOpen(input) then 1 else 0
  {
    assert (inputs + [input])[..|inputs|] == inputs;
  }

  // What a packet that is granted a stream gives the node is the open that the counter answers.
  lemma {:induction false} GrantCounts(s: State, addr: string, msg: Uplink, agreed: bool, wellFormed: bool, fits: bool,
                                       l: LocalId, id: nat)
    requires Granted(AfterTurn(s, Device(addr, msg, agreed, wellFormed, fits)).records, |s.records|, addr, l, id)
    ensures id == Streams.OpensIn(s.inputs) + 1
    ensures Streams.OpensIn(AfterTurn(s, Device(addr, msg, agreed, wellFormed, fits)).inputs) == id
  {
    var t := AfterTurn(s, Device(addr, msg, agreed, wellFormed, fits));
    assert t.records[..|s.records|] == s.records;
    SessionIffGreeted(s.records, addr);
    Streams.CounterFollowsLog(s.inputs);
    var open := Streams.FromUser(Streams.Open(msg.target, wellFormed, msg.reason));
    var calls := UplinkCalls(SessionsAfter(s.records), addr, msg);
    assert calls == [MeshRequest(msg.target, msg.reason)];
    assert CallInputs(calls[1..], wellFormed) == [];
    assert CallInputs(calls, wellFormed) == [open];
    OpensAfter(s.inputs, open);
  }

  lemma {:induction false} CallsNeverUncount(s: State, turn: Turn)
    ensures Streams.OpensIn(s.inputs) <= Streams.OpensIn(AfterTurn(s, turn).inputs)
  {
    var t := AfterTurn(s, turn);
    assert t.inputs[..|s.inputs|] == s.inputs;
    assert t.inputs[..|t.inputs|] == t.inputs;
    Streams.OpensMonotone(t.inputs, |s.inputs|, |t.inputs|);
  }

  lemma {:induction false} TurnCounted(s: State, turn: Turn)
    requires Counted(s)
    ensures Counted(AfterTurn(s, turn))
  {
    var t, n := AfterTurn(s, turn), |s.records|;
    CallsNeverUncount(s, turn);
    if turn.Device? {
      forall i: nat, a, l, id: nat | Granted(t.records, i, a, l, id)
        ensures if i < n then Granted(s.records, i, a, l, id)
                else i == n && id == Streams.OpensIn(s.inputs) + 1 == Streams.OpensIn(t.inputs)
      {
        if i < n {
          GrantedPrefix(s.records, t.records[n], i, a, l, id);
        } else {
          GrantCounts(s, turn.addr, turn.msg, turn.agreed, turn.wellFormed, turn.fits, l, id);
        }
      }
    }
  }

  lemma {:induction false} RunCounted(s: State, turns: seq<Turn>)
    requires Counted(s)
    ensures Counted(AfterTurns(s, turns))
    decreases |turns|
  {
    if turns != [] {
      TurnCounted(s, turns[0]);
      RunCounted(AfterTurn(s, turns[0]), turns[1..]);
    }
  }

  // In every run of the bridge on its node, whatever else uses the node, a mesh stream is in at most
  // one slot of one session.
  lemma {:induction false} SlotsAreIsolated(turns: seq<Turn>, a: string, l: LocalId, b: string, m: LocalId, id: nat)
    requires var s := SessionsAfter(AfterTurns(EMPTY, turns).records);
      SlotHolds(s, a, l, id) && SlotHolds(s, b, m, id)
    ensures a == b && l == m
  {
    RunCounted(EMPTY, turns);
    IsolatedWhenFresh(AfterTurns(EMPTY, turns).records, a, l, b, m, id);
  }

  // In every such run a stream that the bridge was granted ends up held by no device and never closed
  // exactly if the first packet that cleared its slot was a greeting or a restart of its number.
  lemma {:induction false} ForgottenIff(turns: seq<Turn>, i: nat, addr: string, local: LocalId, id: nat)
    requires Granted(AfterTurns(EMPTY, turns).records, i, addr, local, id)
    ensures var log := AfterTurns(EMPTY, turns).records;
      Forgotten(log, id) <==>
        exists j: nat :: FirstClear(log, i, j, addr, local) && (log[j].msg.Hello? || log[j].msg.StreamStart?)
  {
    RunCounted(EMPTY, turns);
    ForgottenWhenFreshIff(AfterTurns(EMPTY, turns).records, i, addr, local, id);
  }

  // ----- What a slot is connected to

  // Every stream granted to a device was opened by the node to the peer, and for the reason, that the
  // device named.
  ghost predicate Backed(s: State) {
    forall i: nat, a, l, id: nat :: Granted(s.records, i, a, l, id) ==> OpenedFor(s, i, id)
  }

  ghost predicate OpenedFor(s: State, i: nat, id: nat)
    requires i < |s.records| && s.records[i].msg.StreamStart?
  {
    exists k: nat :: k < |s.inputs| && OpenedAs(s, i, id, k)
  }

  ghost predicate OpenedAs(s: State, i: nat, id: nat, k: nat)
    requires i < |s.records| && s.records[i].msg.StreamStart? && k < |s.inputs|
  {
    Streams.OpenedBy(s.inputs, k, id) ==
      Some(Streams.StreamState(s.records[i].msg.target, s.records[i].msg.reason, Streams.Requested, Streams.Outbound))
  }

  lemma {:induction false} GrantIsBacked(s: State, turn: Turn, a: string, l: LocalId, id: nat)
    requires turn.Device? && Granted(AfterTurn(s, turn).records, |s.records|, a, l, id)
    ensures OpenedFor(AfterTurn(s, turn), |s.records|, id)
  {
    var t := AfterTurn(s, turn);
    GrantCounts(s, turn.addr, turn.msg, turn.agreed, turn.wellFormed, turn.fits, l, id);
    assert t.records[..|s.records|] == s.records;
    SessionIffGreeted(s.records, turn.addr);
    var calls := UplinkCalls(SessionsAfter(s.records), turn.addr, turn.msg);
    var open := Streams.FromUser(Streams.Open(turn.msg.target, turn.wellFormed, turn.msg.reason));
    assert calls == [MeshRequest(turn.msg.target, turn.msg.reason)] && calls[1..] == [];
    assert CallInputs(calls, turn.wellFormed) == [open] + CallInputs(calls[1..], turn.wellFormed) == [open];
    assert t.inputs[..|s.inputs|] == s.inputs && t.inputs[|s.inputs|] == open;
    assert OpenedAs(t, |s.records|, id, |s.inputs|);
  }

  lemma {:induction false} TurnBacked(s: State, turn: Turn)
    requires Backed(s)
    ensures Backed(AfterTurn(s, turn))
  {
    var t, n := AfterTurn(s, turn), |s.records|;
    forall i: nat, a, l, id: nat | Granted(t.records, i, a, l, id) ensures OpenedFor(t, i, id) {
      if i < n {
        if turn.Device? {
          GrantedPrefix(s.records, t.records[n], i, a, l, id);
        }
        assert OpenedFor(s, i, id);
        var k: nat :| k < |s.inputs| && OpenedAs(s, i, id, k);
        assert t.inputs[..|s.inputs|] == s.inputs;
        Streams.OpenedByPrefix(t.inputs, |s.inputs|, k, id);
        assert OpenedAs(t, i, id, k);
      } else {
        GrantIsBacked(s, turn, a, l, id);
      }
    }
  }

  lemma {:induction false} RunBacked(s: State, turns: seq<Turn>)
    requires Backed(s)
    ensures Backed(AfterTurns(s, turns))
    decreases |turns|
  {
    if turns != [] {
      TurnBacked(s, turns[0]);
      RunBacked(AfterTurn(s, turns[0]), turns[1..]);
    }
  }

  // The stream in a slot is the one that the node opened, and not one that a peer opened under its id.
  ghost predicate Connected(s: State, i: nat, addr: string, local: LocalId, id: nat, k: nat) {
    && HeldSince(s.records, i, addr, local, id)
    && Streams.OpenSince(s.inputs, k, id)
    && Streams.OpenedBy(s.inputs, k, id).value.direction == Streams.Outbound
  }

  lemma {:induction false} ConnectedToTarget(s: State, i: nat, addr: string, local: LocalId, id: nat, k: nat)
    requires Backed(s) && Connected(s, i, addr, local, id, k)
    ensures Streams.OpenedBy(s.inputs, k, id).value.peer == s.records[i].msg.target
    ensures SlotHolds(SessionsAfter(s.records), addr, local, id)
  {
    SlotsFollowLog(s.records, addr, local, id);
    assert OpenedFor(s, i, id);
    var m: nat :| m < |s.inputs| && OpenedAs(s, i, id, m);
    if m < k {
      Streams.OpenedOnceOutbound(s.inputs, m, k, id);
    }
    assert m == k;
  }

  lemma OneCall(call: MeshCall, command: Streams.StreamCommand, wellFormed: bool)
    requires || (call.MeshSend? && command == Streams.Send(call.id, call.data))
             || (call.MeshClose? && command == Streams.Close(call.id))
    ensures CallInputs([call], wellFormed) == [Streams.FromUser(command)]
  {
    assert [call][1..] == [];
    assert CallInputs([call][1..], wellFormed) == [];
  }

  // In every run, what a device sends on a slot makes its node send that, and nothing else, to the peer
  // that the device named when it started the slot.
  lemma {:induction false} DataGoesToTarget(turns: seq<Turn>, i: nat, local: LocalId, id: nat, k: nat, turn: Turn)
    requires turn.Device? && turn.msg.StreamPacket? && turn.msg.local == local
    requires Connected(AfterTurns(EMPTY, turns), i, turn.addr, local, id, k)
    ensures var s := AfterTurns(EMPTY, turns);
      var send := Streams.Send(id, turn.msg.data);
      && AfterTurn(s, turn).inputs == s.inputs + [Streams.FromUser(send)]
      && Streams.CommandPackets(Streams.AfterAll(s.inputs), send) ==
           [Streams.Packet(s.records[i].msg.target, Streams.StreamData(id, turn.msg.data))]
  {
    var s := AfterTurns(EMPTY, turns);
    RunBacked(EMPTY, turns);
    ConnectedToTarget(s, i, turn.addr, local, id, k);
    Streams.CommandIsSent(s.inputs, k, Streams.Send(id, turn.msg.data));
    OneCall(MeshSend(id, turn.msg.data), Streams.Send(id, turn.msg.data), turn.wellFormed);
  }

  // Stopping the slot closes that stream at the node, and the peer is sent the closing.
  lemma {:induction false} StopClosesAtTarget(turns: seq<Turn>, i: nat, local: LocalId, id: nat, k: nat, turn: Turn)
    requires turn.Device? && turn.msg.StreamStop? && turn.msg.local == local
    requires Connected(AfterTurns(EMPTY, turns), i, turn.addr, local, id, k)
    ensures var s := AfterTurns(EMPTY, turns);
      var close := Streams.Close(id);
      && AfterTurn(s, turn).inputs == s.inputs + [Streams.FromUser(close)]
      && Streams.CommandPackets(Streams.AfterAll(s.inputs), close) ==
           [Streams.Packet(s.records[i].msg.target, Streams.CloseStream(id))]
      && id !in Streams.AfterAll(AfterTurn(s, turn).inputs).streams
      && !SlotHolds(SessionsAfter(AfterTurn(s, turn).records), turn.addr, local, id)
  {
    var s := AfterTurns(EMPTY, turns);
    RunBacked(EMPTY, turns);
    ConnectedToTarget(s, i, turn.addr, local, id, k);
    Streams.CommandIsSent(s.inputs, k, Streams.Close(id));
    OneCall(MeshClose(id), Streams.Close(id), turn.wellFormed);
    var t := AfterTurn(s, turn);
    assert t.inputs[..|s.inputs|] == s.inputs && t.records[..|s.records|] == s.records;
  }
}
