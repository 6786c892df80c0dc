// The UDP bridge: one session per device address, with its topics and its numbered streams.
module Bridge {
  import opened Wrappers

  type LocalId = i: int | 0 <= i < 256

  datatype Session = Session(deviceId: nat, activeStreams: map<LocalId, nat>, subscriptions: set<string>)

  type Sessions = map<string, Session>

  datatype Uplink =
    | Hello(deviceId: nat)
    | Subscribe(topic: string)
    | Unsubscribe(topic: string)
    | Publish(topic: string, data: Bytes)
    | StreamStart(local: LocalId, target: string, reason: string)
    | StreamPacket(local: LocalId, data: Bytes)
    | StreamStop(local: LocalId)

  datatype Downlink =
    | Welcome
    | SubscribeAck(topic: string)
    | UnsubscribeAck(topic: string)
    | Message(topic: string, data: Bytes)

  // What the mesh node is asked to do.
  datatype MeshCall =
    | MeshSubscribe(topic: string)
    | MeshUnsubscribe(topic: string)
    | MeshPublish(topic: string, data: Bytes)
    | MeshRequest(peer: string, reason: string)
    | MeshSend(id: nat, data: Bytes)
    | MeshClose(id: nat)

  // What it answers: whether it carried out a subscription or unsubscription, which id a new stream
  // got, and whether the acknowledgement fits its buffer.
  datatype Answer = Answer(agreed: bool, stream: Option<nat>, fits: bool)

  datatype Datagram = Datagram(to: string, message: Downlink)

  // ----- One packet of a device

  function AfterUplink(s: Sessions, addr: string, msg: Uplink, answer: Answer): Sessions {
    if msg.Hello? then s[addr := Session(msg.deviceId, map[], {})]
    else if addr !in s then s
    else
      var session := s[addr];
      match msg
      case Subscribe(topic) =>
        if answer.agreed then s[addr := session.(subscriptions := session.subscriptions + {topic})] else s
      case Unsubscribe(topic) => s[addr := session.(subscriptions := session.subscriptions - {topic})]
      case StreamStart(local, target, _) =>
        if target != "" && answer.stream.Some?
        then s[addr := session.(activeStreams := session.activeStreams[local := answer.stream.value])]
        else s
      case StreamStop(local) => s[addr := session.(activeStreams := session.activeStreams - {local})]
      case _ => s
  }

  function UplinkCalls(s: Sessions, addr: string, msg: Uplink): seq<MeshCall> {
    if addr !in s then [] else
    match msg
    case Hello(_) => []
    case Subscribe(topic) => [MeshSubscribe(topic)]
    case Unsubscribe(topic) => [MeshUnsubscribe(topic)]
    case Publish(topic, data) => [MeshPublish(topic, data)]
    case StreamStart(_, target, reason) => if target == "" then [] else [MeshRequest(target, reason)]
    case StreamPacket(local, data) =>
      if local in s[addr].activeStreams then [MeshSend(s[addr].activeStreams[local], data)] else []
    case StreamStop(local) =>
      if local in s[addr].activeStreams then [MeshClose(s[addr].activeStreams[local])] else []
  }

  function UplinkReplies(s: Sessions, addr: string, msg: Uplink, answer: Answer): seq<Datagram> {
    match msg
    case Hello(_) => [Datagram(addr, Welcome)]
    case Subscribe(topic) =>
      if addr in s && answer.agreed && answer.fits then [Datagram(addr, SubscribeAck(topic))] else []
    case Unsubscribe(topic) => if addr in s && answer.fits then [Datagram(addr, UnsubscribeAck(topic))] else []
    case _ => []
  }

  function Subscribers(s: Sessions, topic: string): set<string> {
    set addr | addr in s && topic in s[addr].subscriptions
  }

  ghost predicate Enumerates(order: seq<string>, s: set<string>) {
    && (forall a :: a in order <==> a in s)
    && (forall i, j :: 0 <= i < j < |order| ==> order[i] != order[j])
  }

  function Messages(order: seq<string>, topic: string, data: Bytes): seq<Datagram> {
    seq(|order|, i requires 0 <= i < |order| => Datagram(order[i], Message(topic, data)))
  }

  class EmbeddedBridge {
    var sessions: Sessions
    var calls: seq<MeshCall>
    var sent: seq<Datagram>

    constructor ()
      ensures sessions == map[] && calls == [] && sent == []
    {
      sessions, calls, sent := map[], [], [];
    }

    method HandleUplinkPacket(msg: Uplink, addr: string, answer: Answer)
      modifies this
      ensures sessions == AfterUplink(old(sessions), addr, msg, answer)
      ensures calls == old(calls) + UplinkCalls(old(sessions), addr, msg)
      ensures sent == old(sent) + UplinkReplies(old(sessions), addr, msg, answer)
    {
      match msg {
        case Hello(deviceId) =>
          sessions := sessions[addr := Session(deviceId, map[], {})];
          sent := sent + [Datagram(addr, Welcome)];
          assert UplinkCalls(old(sessions), addr, msg) == [];
        case Subscribe(topic) =>
          if addr in sessions {
            calls := calls + [MeshSubscribe(topic)];
            if answer.agreed {
              var session := sessions[addr];
              sessions := sessions[addr := session.(subscriptions := session.subscriptions + {topic})];
              if answer.fits {
                sent := sent + [Datagram(addr, SubscribeAck(topic))];
              }
            }
          }
        case Unsubscribe(topic) =>
          if addr in sessions {
            var session := sessions[addr];
            sessions := sessions[addr := session.(subscriptions := session.subscriptions - {topic})];
            calls := calls + [MeshUnsubscribe(topic)];
            if answer.fits {
              sent := sent + [Datagram(addr, UnsubscribeAck(topic))];
            }
          }
        case Publish(topic, data) =>
          if addr in sessions {
            calls := calls + [MeshPublish(topic, data)];
          }
        case StreamStart(local, target, reason) =>
          if addr in sessions {
            if target == "" {
              return;
            }
            calls := calls + [MeshRequest(target, reason)];
            match answer.stream {
              case Some(id) =>
                var session := sessions[addr];
                sessions := sessions[addr := session.(activeStreams := session.activeStreams[local := id])];
              case None =>
            }
          }
        case StreamPacket(local, data) =>
          if addr in sessions && local in sessions[addr].activeStreams {
            calls := calls + [MeshSend(sessions[addr].activeStreams[local], data)];
          }
        case StreamStop(local) =>
          if addr in sessions {
            var session := sessions[addr];
            if local in session.activeStreams {
              sessions := sessions[addr := session.(activeStreams := session.activeStreams - {local})];
              calls := calls + [MeshClose(session.activeStreams[local])];
            } else {
              assert session.activeStreams - {local} == session.activeStreams;
              assert sessions[addr := session] == sessions;
            }
          }
      }
    }

    // A mesh message goes once to every session that holds its topic, in some order.
    method HandleDownlinkEvent(topic: string, data: Bytes, fits: bool) returns (ghost order: seq<string>)
      modifies this`sent
      ensures Enumerates(order, Subscribers(sessions, topic))
      ensures sent == old(sent) + if fits then Messages(order, topic, data) else []
      ensures |sent| == |old(sent)| + if fits then |order| else 0
      ensures forall k :: |old(sent)| <= k < |sent| ==>
                sent[k].to == order[k - |old(sent)|] && sent[k].message == Message(topic, data)
    {
      var pending := sessions.Keys;
      order := [];
      while pending != {}
        invariant pending <= sessions.Keys
        invariant Enumerates(order, Subscribers(sessions, topic) - pending)
        invariant sent == old(sent) + if fits then Messages(order, topic, data) else []
        decreases pending
      {
        var addr :| addr in pending;
        if topic in sessions[addr].subscriptions {
          if fits {
            sent := sent + [Datagram(addr, Message(topic, data))];
          }
          assert Messages(order + [addr], topic, data) ==
                 Messages(order, topic, data) + [Datagram(addr, Message(topic, data))];
          order := order + [addr];
        }
        pending := pending - {addr};
      }
      assert Subscribers(sessions, topic) - pending == Subscribers(sessions, topic);
    }
  }

  // ----- Logs of packets

  datatype Record = Record(addr: string, msg: Uplink, answer: Answer)

  function SessionsAfter(log: seq<Record>): Sessions {
    if log == [] then map[]
    else
      var last := log[|log| - 1];
      AfterUplink(SessionsAfter(log[..|log| - 1]), last.addr, last.msg, last.answer)
  }

  predicate Greeted(log: seq<Record>, addr: string) {
    exists i :: 0 <= i < |log| && log[i].addr == addr && log[i].msg.Hello?
  }

  // Datagram i made the mesh open stream id for the device at addr, under its number local.
  predicate Granted(log: seq<Record>, i: nat, addr: string, local: LocalId, id: nat) {
    && i < |log| && log[i].addr == addr
    && log[i].msg.StreamStart? && log[i].msg.local == local && log[i].msg.target != ""
    && log[i].answer.stream == Some(id)
    && Greeted(log[..i], addr)
  }

  // Datagram j empties or refills the slot.
  predicate Clears(log: seq<Record>, j: nat, addr: string, local: LocalId)
    requires j < |log|
  {
    log[j].addr == addr &&
    match log[j].msg
    case Hello(_) => true
    case StreamStop(l) => l == local
    case StreamStart(l, target, _) =>
      l == local && target != "" && log[j].answer.stream.Some? && Greeted(log[..j], addr)
    case _ => false
  }

  ghost predicate HeldSince(log: seq<Record>, i: nat, addr: string, local: LocalId, id: nat) {
    Granted(log, i, addr, local, id) && forall j :: i < j < |log| ==> !Clears(log, j, addr, local)
  }

  predicate SlotHolds(s: Sessions, addr: string, local: LocalId, id: nat) {
    addr in s && local in s[addr].activeStreams && s[addr].activeStreams[local] == id
  }

  lemma {:induction false} SessionIffGreeted(log: seq<Record>, addr: string)
    ensures addr in SessionsAfter(log) <==> Greeted(log, addr)
    decreases |log|
  {
    if log != [] {
      var n := |log| - 1;
      SessionIffGreeted(log[..n], addr);
      if i :| 0 <= i < |log| && log[i].addr == addr && log[i].msg.Hello? {
        if i < n {
          assert log[..n][i].addr == addr && log[..n][i].msg.Hello?;
        }
      }
      if i :| 0 <= i < n && log[..n][i].addr == addr && log[..n][i].msg.Hello? {
        assert log[i].addr == addr && log[i].msg.Hello?;
      }
    }
  }

  lemma {:induction false} HeldSincePrefix(log: seq<Record>, i: nat, addr: string, local: LocalId, id: nat)
    requires log != [] && i < |log| - 1
    ensures HeldSince(log, i, addr, local, id) <==>
            HeldSince(log[..|log| - 1], i, addr, local, id) && !Clears(log, |log| - 1, addr, local)
  {
    var n := |log| - 1;
    forall j: nat | j < n
      ensures Clears(log[..n], j, addr, local) == Clears(log, j, addr, local)
      ensures Granted(log[..n], j, addr, local, id) == Granted(log, j, addr, local, id)
    {
      assert log[..n][..j] == log[..j];
    }
  }

  // A slot holds a mesh stream exactly when its device was granted that stream under that number and
  // has not greeted, stopped or restarted the number since.
  lemma {:induction false} SlotsFollowLog(log: seq<Record>, addr: string, local: LocalId, id: nat)
    ensures SlotHolds(SessionsAfter(log), addr, local, id) <==> exists i: nat :: HeldSince(log, i, addr, local, id)
    decreases |log|
  {
    if log != [] {
      var n := |log| - 1;
      SlotsFollowLog(log[..n], addr, local, id);
      SessionIffGreeted(log[..n], addr);
      if SlotHolds(SessionsAfter(log), addr, local, id) {
        if Granted(log, n, addr, local, id) {
          assert HeldSince(log, n, addr, local, id);
        } else {
          assert SlotHolds(SessionsAfter(log[..n]), addr, local, id);
          var i: nat :| HeldSince(log[..n], i, addr, local, id);
          HeldSincePrefix(log, i, addr, local, id);
        }
      }
      if i: nat :| HeldSince(log, i, addr, local, id) {
        if i < n {
          HeldSincePrefix(log, i, addr, local, id);
          assert !Clears(log, n, addr, local);
        }
      }
    }
  }

  // The mesh never gives the same id to two streams.
  ghost predicate FreshIds(log: seq<Record>) {
    forall i, j, a, b, l, m, id :: Granted(log, i, a, l, id) && Granted(log, j, b, m, id) ==> i == j
  }

  // With fresh ids a mesh stream is in at most one slot of one session.
  lemma {:induction false} IsolatedWhenFresh(log: seq<Record>, a: string, l: LocalId, b: string, m: LocalId, id: nat)
    requires FreshIds(log)
    requires SlotHolds(SessionsAfter(log), a, l, id) && SlotHolds(SessionsAfter(log), b, m, id)
    ensures a == b && l == m
  {
    SlotsFollowLog(log, a, l, id);
    SlotsFollowLog(log, b, m, id);
    var i: nat :| HeldSince(log, i, a, l, id);
    var j: nat :| HeldSince(log, j, b, m, id);
    assert i == j;
  }

  // Data and stops reach only a stream that the same device was granted under the same number.
  lemma {:induction false} CallsStayInTheirSlot(log: seq<Record>, addr: string, msg: Uplink, call: MeshCall)
    requires call in UplinkCalls(SessionsAfter(log), addr, msg)
    requires call.MeshSend? || call.MeshClose?
    ensures msg.StreamPacket? || msg.StreamStop?
    ensures exists i: nat :: HeldSince(log, i, addr, msg.local, call.id)
  {
    SlotsFollowLog(log, addr, msg.local, call.id);
  }

  // ----- Every call and every reply of a run

  // What the bridge has asked of the mesh node, with the answers to subscriptions.
  datatype Asked = Asked(call: MeshCall, agreed: bool)

  function Answered(calls: seq<MeshCall>, agreed: bool): seq<Asked> {
    seq(|calls|, k requires 0 <= k < |calls| => Asked(calls[k], agreed))
  }

  function AskedIn(log: seq<Record>): seq<Asked> {
    if log == [] then []
    else
      var n := |log| - 1;
      var calls := UplinkCalls(SessionsAfter(log[..n]), log[n].addr, log[n].msg);
      AskedIn(log[..n]) + Answered(calls, log[n].answer.agreed)
  }

  function RepliesIn(log: seq<Record>): seq<Datagram> {
    if log == [] then []
    else
      var n := |log| - 1;
      RepliesIn(log[..n]) + UplinkReplies(SessionsAfter(log[..n]), log[n].addr, log[n].msg, log[n].answer)
  }

  // What packet i of the log has to be passed on as. A device that never greeted is not listened to.
  ghost function CallDue(log: seq<Record>, i: nat): seq<MeshCall>
    requires i < |log|
  {
    var earlier, addr := log[..i], log[i].addr;
    if !Greeted(earlier, addr) then []
    else
      match log[i].msg
      case Hello(_) => []
      case Subscribe(topic) => [MeshSubscribe(topic)]
      case Unsubscribe(topic) => [MeshUnsubscribe(topic)]
      case Publish(topic, data) => [MeshPublish(topic, data)]
      case StreamStart(_, target, reason) => if target == "" then [] else [MeshRequest(target, reason)]
      case StreamPacket(local, data) =>
        if k: nat, id: nat :| HeldSince(earlier, k, addr, local, id) then [MeshSend(id, data)] else []
      case StreamStop(local) =>
        if k: nat, id: nat :| HeldSince(earlier, k, addr, local, id) then [MeshClose(id)] else []
  }

  ghost function CallsDue(log: seq<Record>): seq<Asked> {
    if log == [] then []
    else
      var n := |log| - 1;
      CallsDue(log[..n]) + Answered(CallDue(log, n), log[n].answer.agreed)
  }

  lemma {:induction false} CallIsDue(log: seq<Record>, i: nat)
    requires i < |log|
    ensures UplinkCalls(SessionsAfter(log[..i]), log[i].addr, log[i].msg) == CallDue(log, i)
  {
    var earlier, addr, msg := log[..i], log[i].addr, log[i].msg;
    SessionIffGreeted(earlier, addr);
    if msg.StreamPacket? || msg.StreamStop? {
      var s := SessionsAfter(earlier);
      forall k: nat, id: nat | HeldSince(earlier, k, addr, msg.local, id) ensures SlotHolds(s, addr, msg.local, id) {
        SlotsFollowLog(earlier, addr, msg.local, id);
      }
      if addr in s && msg.local in s[addr].activeStreams {
        SlotsFollowLog(earlier, addr, msg.local, s[addr].activeStreams[msg.local]);
      }
    }
  }

  // The mesh node is asked exactly for what the packets say, in their order.
  lemma {:induction false} CallsFollowLog(log: seq<Record>)
    ensures AskedIn(log) == CallsDue(log)
    decreases |log|
  {
    if log != [] {
      CallsFollowLog(log[..|log| - 1]);
      CallIsDue(log, |log| - 1);
    }
  }

  // A greeting is welcomed; a subscription of a device that greeted is acknowledged if the mesh node
  // agreed to it, an unsubscription in any case; and both only if the answer fits.
  function ReplyDue(log: seq<Record>, i: nat): seq<Datagram>
    requires i < |log|
  {
    var listened := Greeted(log[..i], log[i].addr) && log[i].answer.fits;
    match log[i].msg
    case Hello(_) => [Datagram(log[i].addr, Welcome)]
    case Subscribe(topic) =>
      if listened && log[i].answer.agreed then [Datagram(log[i].addr, SubscribeAck(topic))] else []
    case Unsubscribe(topic) => if listened then [Datagram(log[i].addr, UnsubscribeAck(topic))] else []
    case _ => []
  }

  function RepliesDue(log: seq<Record>): seq<Datagram> {
    if log == [] then [] else RepliesDue(log[..|log| - 1]) + ReplyDue(log, |log| - 1)
  }

  lemma {:induction false} RepliesFollowLog(log: seq<Record>)
    ensures RepliesIn(log) == RepliesDue(log)
    decreases |log|
  {
    if log != [] {
      RepliesFollowLog(log[..|log| - 1]);
      SessionIffGreeted(log[..|log| - 1], log[|log| - 1].addr);
    }
  }

  // The session of an address is that of the device that greeted from it last.
  lemma {:induction false} SessionIsOfLastGreeting(log: seq<Record>, addr: string)
    requires addr in SessionsAfter(log)
    ensures exists i :: 0 <= i < |log| && log[i].addr == addr &&
              log[i].msg == Hello(SessionsAfter(log)[addr].deviceId) &&
              forall j :: i < j < |log| && log[j].addr == addr ==> !log[j].msg.Hello?
    decreases |log|
  {
    var n := |log| - 1;
    if log[n].addr == addr && log[n].msg.Hello? {
      assert log[n].msg == Hello(SessionsAfter(log)[addr].deviceId);
    } else {
      SessionIsOfLastGreeting(log[..n], addr);
      var i :| 0 <= i < n && log[..n][i].addr == addr &&
               log[..n][i].msg == Hello(SessionsAfter(log[..n])[addr].deviceId) &&
               forall j :: i < j < n && log[..n][j].addr == addr ==> !log[..n][j].msg.Hello?;
      assert forall j :: i < j < n ==> log[..n][j] == log[j];
      assert log[i].addr == addr && log[i].msg == Hello(SessionsAfter(log)[addr].deviceId);
    }
  }

  // ----- Streams that are let go of

  // A packet makes the bridge drop a stream without asking the mesh to close it exactly if it comes
  // from the stream's device and is a greeting, or starts the same number again with another stream.
  lemma {:induction false} DroppedSilentlyIff(s: Sessions, from: string, msg: Uplink, answer: Answer,
                                              addr: string, local: LocalId, id: nat)
    requires SlotHolds(s, addr, local, id)
    ensures !SlotHolds(AfterUplink(s, from, msg, answer), addr, local, id) &&
            MeshClose(id) !in UplinkCalls(s, from, msg) <==>
              && from == addr
              && (|| msg.Hello?
                  || (msg.StreamStart? && msg.local == local && msg.target != "" &&
                      answer.stream.Some? && answer.stream.value != id))
  {
    if msg.StreamStop? && from == addr && msg.local == local {
      assert UplinkCalls(s, from, msg)[0] == MeshClose(id);
    }
  }

  // Packet j is the first to clear the slot after packet i.
  ghost predicate FirstClear(log: seq<Record>, i: nat, j: nat, addr: string, local: LocalId) {
    && i < j < |log| && Clears(log, j, addr, local)
    && forall k :: i < k < j ==> !Clears(log, k, addr, local)
  }

  // At packet j the mesh was asked to close the stream.
  ghost predicate ClosedAt(log: seq<Record>, j: nat, id: nat) {
    j < |log| && MeshClose(id) in UplinkCalls(SessionsAfter(log[..j]), log[j].addr, log[j].msg)
  }

  // The bridge has no way left to reach the stream, and never asked the mesh to close it.
  ghost predicate Forgotten(log: seq<Record>, id: nat) {
    && (forall a, l :: !SlotHolds(SessionsAfter(log), a, l, id))
    && (forall j: nat :: !ClosedAt(log, j, id))
  }

  lemma {:induction false} SomeFirstClear(log: seq<Record>, i: nat, k: nat, addr: string, local: LocalId)
    returns (j: nat)
    requires i < k < |log| && Clears(log, k, addr, local)
    ensures j <= k && FirstClear(log, i, j, addr, local)
    decreases k
  {
    if m :| i < m < k && Clears(log, m, addr, local) {
      j := SomeFirstClear(log, i, m, addr, local);
    } else {
      j := k;
    }
  }

  // Before its first clear the granted slot holds the stream.
  lemma {:induction false} HeldUntil(log: seq<Record>, i: nat, j: nat, addr: string, local: LocalId, id: nat)
    requires Granted(log, i, addr, local, id) && i < j <= |log|
    requires forall k :: i < k < j ==> !Clears(log, k, addr, local)
    ensures SlotHolds(SessionsAfter(log[..j]), addr, local, id)
  {
    assert log[..j][..i] == log[..i];
    forall k: nat | k < j ensures Clears(log[..j], k, addr, local) == Clears(log, k, addr, local) {
      assert log[..j][..k] == log[..k];
    }
    assert HeldSince(log[..j], i, addr, local, id);
    SlotsFollowLog(log[..j], addr, local, id);
  }

  // With fresh ids the mesh is asked to close a stream only by a stop that is the first clear of the
  // slot it was granted to.
  lemma {:induction false} ClosedByFirstClear(log: seq<Record>, i: nat, addr: string, local: LocalId, id: nat, k: nat)
    requires FreshIds(log) && Granted(log, i, addr, local, id) && ClosedAt(log, k, id)
    ensures FirstClear(log, i, k, addr, local) && log[k].msg.StreamStop?
  {
    var a, msg := log[k].addr, log[k].msg;
    assert msg.StreamStop?;
    SlotsFollowLog(log[..k], a, msg.local, id);
    var m: nat :| HeldSince(log[..k], m, a, msg.local, id);
    assert log[..k][..m] == log[..m];
    assert Granted(log, m, a, msg.local, id);
    assert m == i;
    forall j | i < j < k ensures !Clears(log, j, addr, local) {
      assert log[..k][..j] == log[..j];
      assert !Clears(log[..k], j, addr, local);
    }
  }

  // With fresh ids a granted stream ends up forgotten exactly if the first packet that cleared its
  // slot was not a stop: it was a greeting, or it started the number again.
  lemma {:induction false} ForgottenWhenFreshIff(log: seq<Record>, i: nat, addr: string, local: LocalId, id: nat)
    requires FreshIds(log) && Granted(log, i, addr, local, id)
    ensures Forgotten(log, id) <==> exists j: nat :: FirstClear(log, i, j, addr, local) && !log[j].msg.StreamStop?
  {
    if Forgotten(log, id) {
      assert !SlotHolds(SessionsAfter(log), addr, local, id);
      SlotsFollowLog(log, addr, local, id);
      assert !HeldSince(log, i, addr, local, id);
      var k :| i < k < |log| && Clears(log, k, addr, local);
      var j := SomeFirstClear(log, i, k, addr, local);
      if log[j].msg.StreamStop? {
        HeldUntil(log, i, j, addr, local, id);
        assert UplinkCalls(SessionsAfter(log[..j]), addr, log[j].msg)[0] == MeshClose(id);
        assert ClosedAt(log, j, id);
      }
    }
    if j: nat :| FirstClear(log, i, j, addr, local) && !log[j].msg.StreamStop? {
      forall a, l ensures !SlotHolds(SessionsAfter(log), a, l, id) {
        SlotsFollowLog(log, a, l, id);
        if k: nat :| HeldSince(log, k, a, l, id) {
          assert false;
        }
      }
      forall k: nat ensures !ClosedAt(log, k, id) {
        if ClosedAt(log, k, id) {
          ClosedByFirstClear(log, i, addr, local, id, k);
          assert false;
        }
      }
    }
  }

  // ----- Subscriptions

  // Datagram i subscribed the device, and it has neither greeted nor unsubscribed since.
  ghost predicate SubscribedSince(log: seq<Record>, i: nat, addr: string, topic: string) {
    && i < |log| && log[i].addr == addr && log[i].msg == Subscribe(topic) && log[i].answer.agreed
    && Greeted(log[..i], addr)
    && forall j :: i < j < |log| && log[j].addr == addr ==> !log[j].msg.Hello? && log[j].msg != Unsubscribe(topic)
  }

  lemma {:induction false} SubscribedSincePrefix(log: seq<Record>, i: nat, addr: string, topic: string)
    requires log != [] && i < |log| - 1
    ensures SubscribedSince(log, i, addr, topic) <==>
            SubscribedSince(log[..|log| - 1], i, addr, topic) &&
            (var last := log[|log| - 1];
             last.addr == addr ==> !last.msg.Hello? && last.msg != Unsubscribe(topic))
  {
    var n := |log| - 1;
    assert log[..n][..i] == log[..i];
    forall j: nat | j < n ensures log[..n][j] == log[j] {
    }
  }

  // A device holds a topic exactly when its packets since its last greeting say so; these are the
  // devices a mesh message of that topic is sent to.
  lemma {:induction false} SubscriptionsFollowLog(log: seq<Record>, addr: string, topic: string)
    ensures addr in Subscribers(SessionsAfter(log), topic) <==> exists i: nat :: SubscribedSince(log, i, addr, topic)
    decreases |log|
  {
    if log != [] {
      var n := |log| - 1;
      var before, last := SessionsAfter(log[..n]), log[n];
      SubscriptionsFollowLog(log[..n], addr, topic);
      SessionIffGreeted(log[..n], addr);
      if addr in Subscribers(SessionsAfter(log), topic) {
        if addr in Subscribers(before, topic) {
          var i: nat :| SubscribedSince(log[..n], i, addr, topic);
          SubscribedSincePrefix(log, i, addr, topic);
          assert SubscribedSince(log, i, addr, topic);
        } else {
          assert SubscribedSince(log, n, addr, topic);
        }
      }
      if i: nat :| SubscribedSince(log, i, addr, topic) {
        if i < n {
          SubscribedSincePrefix(log, i, addr, topic);
        }
      }
    }
  }

  // ----- The topics the mesh node holds for the bridge

  // Packet j made the mesh node subscribe, or unsubscribe.
  predicate Joins(log: seq<Record>, j: nat, topic: string) {
    j < |log| && log[j].msg == Subscribe(topic) && log[j].answer.agreed && Greeted(log[..j], log[j].addr)
  }

  predicate Leaves(log: seq<Record>, j: nat, topic: string) {
    j < |log| && log[j].msg == Unsubscribe(topic) && log[j].answer.agreed && Greeted(log[..j], log[j].addr)
  }

  // The mesh node keeps one set of topics for all devices: those it was asked for and agreed to, but
  // for those it was asked to leave and agreed to.
  function NodeTopics(asked: seq<Asked>): set<string> {
    if asked == [] then {}
    else
      var before, last := NodeTopics(asked[..|asked| - 1]), asked[|asked| - 1];
      if !last.agreed then before
      else
        match last.call
        case MeshSubscribe(topic) => before + {topic}
        case MeshUnsubscribe(topic) => before - {topic}
        case _ => before
  }

  function MeshTopics(log: seq<Record>): set<string> {
    NodeTopics(AskedIn(log))
  }

  ghost predicate JoinedSince(log: seq<Record>, k: nat, topic: string) {
    Joins(log, k, topic) && forall j :: k < j < |log| ==> !Leaves(log, j, topic)
  }

  ghost predicate LeftSince(log: seq<Record>, k: nat, topic: string) {
    Leaves(log, k, topic) && forall j :: k < j < |log| ==> !Joins(log, j, topic)
  }

  lemma {:induction false} TopicEventsPrefix(log: seq<Record>, topic: string)
    requires log != []
    ensures forall j: nat :: j < |log| - 1 ==>
      Joins(log[..|log| - 1], j, topic) == Joins(log, j, topic) &&
      Leaves(log[..|log| - 1], j, topic) == Leaves(log, j, topic)
  {
    var n := |log| - 1;
    forall j: nat | j < n
      ensures Joins(log[..n], j, topic) == Joins(log, j, topic) && Leaves(log[..n], j, topic) == Leaves(log, j, topic)
    {
      assert log[..n][..j] == log[..j];
    }
  }

  // A packet that neither joins nor leaves changes neither fact.
  lemma {:induction false} TopicUndisturbed(log: seq<Record>, topic: string, k: nat)
    requires log != [] && !Joins(log, |log| - 1, topic) && !Leaves(log, |log| - 1, topic)
    ensures JoinedSince(log, k, topic) <==> JoinedSince(log[..|log| - 1], k, topic)
    ensures LeftSince(log, k, topic) <==> LeftSince(log[..|log| - 1], k, topic)
  {
    var n := |log| - 1;
    TopicEventsPrefix(log, topic);
    assert forall j: nat :: j < n ==> Joins(log[..n], j, topic) == Joins(log, j, topic);
    assert forall j: nat :: j < n ==> Leaves(log[..n], j, topic) == Leaves(log, j, topic);
  }

  lemma {:induction false} MeshTopicsStep(log: seq<Record>, topic: string)
    requires log != []
    ensures topic in MeshTopics(log) <==>
            Joins(log, |log| - 1, topic) || (topic in MeshTopics(log[..|log| - 1]) && !Leaves(log, |log| - 1, topic))
  {
    var n := |log| - 1;
    CallIsDue(log, n);
    var before, calls := AskedIn(log[..n]), CallDue(log, n);
    if calls == [] {
      assert AskedIn(log) == before;
    } else {
      assert AskedIn(log) == before + [Asked(calls[0], log[n].answer.agreed)];
      assert AskedIn(log)[..|before|] == before;
    }
  }

  // The node holds a topic exactly if the last packet that made it join or leave made it join.
  lemma {:induction false} MeshTopicsFollowLog(log: seq<Record>, topic: string)
    ensures topic in MeshTopics(log) <==> exists k: nat :: JoinedSince(log, k, topic)
    ensures topic !in MeshTopics(log) && (exists k: nat :: Joins(log, k, topic)) ==>
              exists k: nat :: LeftSince(log, k, topic)
    decreases |log|
  {
    if log != [] {
      var n := |log| - 1;
      MeshTopicsFollowLog(log[..n], topic);
      MeshTopicsStep(log, topic);
      if Joins(log, n, topic) {
        assert JoinedSince(log, n, topic);
      } else if Leaves(log, n, topic) {
        assert LeftSince(log, n, topic);
      } else {
        forall k: nat
          ensures JoinedSince(log, k, topic) <==> JoinedSince(log[..n], k, topic)
          ensures LeftSince(log, k, topic) <==> LeftSince(log[..n], k, topic)
        {
          TopicUndisturbed(log, topic, k);
        }
        TopicEventsPrefix(log, topic);
        if k: nat :| Joins(log, k, topic) {
          assert Joins(log[..n], k, topic);
        }
      }
    }
  }

  // A topic that some device holds is not held by the mesh node exactly if a device, and then always
  // another one, made the node leave it after the last packet that made the node join it.
  lemma {:induction false} HeldTopicUnbackedIff(log: seq<Record>, addr: string, topic: string)
    requires addr in Subscribers(SessionsAfter(log), topic)
    ensures topic !in MeshTopics(log) <==> exists k: nat :: LeftSince(log, k, topic)
    ensures forall k: nat :: LeftSince(log, k, topic) ==> log[k].addr != addr
  {
    SubscriptionsFollowLog(log, addr, topic);
    MeshTopicsFollowLog(log, topic);
    var i: nat :| SubscribedSince(log, i, addr, topic);
    assert Joins(log, i, topic);
    if j: nat :| JoinedSince(log, j, topic) {
      forall k: nat ensures !LeftSince(log, k, topic) {
        assert LeftSince(log, k, topic) ==> !(j < k) && !(k < j);
      }
    }
  }
}
