// Whose messages a stream listens to. The sender of a message is never compared with the peer on
// record; this module says for which streams that makes no difference.
module Senders {
  import opened Wrappers
  import opened Streams
  import opened Handshake

  // A message about one stream that the receiver may have open.
  predicate About(m: StreamMessage) {
    m.AcceptStream? || m.RejectStream? || m.StreamData? || m.CloseStream?
  }

  // One of the two asked the other for a stream under this id.
  ghost predicate Partners(s: Mesh, d: string, id: nat, q: string) {
    AskedBy(s, d, id, q) || AskedBy(s, q, id, d)
  }

  // No node is asked, or asks, for one id by two different peers.
  ghost predicate Unclashing(s: Mesh) {
    forall d, id, q, r :: d in s.nodes && Partners(s, d, id, q) && Partners(s, d, id, r) ==> q == r
  }

  // Whatever is in flight to a node about a stream open there comes from the peer on record.
  ghost predicate HeardFromPeer(s: Mesh) {
    forall e :: e in s.inFlight && e.to in s.nodes && About(e.message) ==>
      var streams := s.nodes[e.to].table.streams;
      e.message.id in streams ==> streams[e.message.id].peer == e.from
  }

  // ----- Records and messages are between partners

  ghost predicate NodeSound(s: Mesh, d: string)
    requires d in s.nodes
  {
    var n := s.nodes[d];
    && (forall id :: id in n.asked ==> id < n.table.nextId)
    && (forall id :: id in n.table.streams ==> Partners(s, d, id, n.table.streams[id].peer))
  }

  ghost predicate EnvelopeSound(s: Mesh, e: Envelope) {
    && (e.message.RequestStream? ==> AskedBy(s, e.from, e.message.id, e.to))
    && (About(e.message) ==> Partners(s, e.to, e.message.id, e.from))
  }

  ghost predicate Sound(s: Mesh) {
    && (forall d :: d in s.nodes ==> NodeSound(s, d))
    && (forall e :: e in s.inFlight ==> EnvelopeSound(s, e))
  }

  ghost predicate AskedGrows(s: Mesh, t: Mesh) {
    && s.nodes.Keys == t.nodes.Keys
    && forall d, id, q :: AskedBy(s, d, id, q) ==> AskedBy(t, d, id, q)
  }

  lemma {:induction false} StepAsks(s: Mesh, step: Step)
    requires Sound(s)
    ensures AskedGrows(s, Executed(s, step))
  {
    if step.node in s.nodes {
      assert NodeSound(s, step.node);
    }
  }

  lemma {:induction false} StepSound(s: Mesh, step: Step)
    requires Sound(s)
    ensures Sound(Executed(s, step))
  {
    if step.node in s.nodes {
      var t, d := Executed(s, step), step.node;
      StepAsks(s, step);
      assert NodeSound(s, d);
      if step.Arrive? && step.envelope in s.inFlight {
        assert EnvelopeSound(s, step.envelope);
      }
      forall f | f in t.nodes ensures NodeSound(t, f) {
        assert NodeSound(s, f);
      }
      forall e | e in t.inFlight ensures EnvelopeSound(t, e) {
        if e in s.inFlight {
          assert EnvelopeSound(s, e);
        } else {
          CommandSound(s, step, e);
        }
      }
    }
  }

  lemma {:induction false} CommandSound(s: Mesh, step: Step, e: Envelope)
    requires Sound(s) && step.node in s.nodes
    requires e in Executed(s, step).inFlight && e !in s.inFlight
    ensures EnvelopeSound(Executed(s, step), e)
  {
    var n := s.nodes[step.node];
    assert NodeSound(s, step.node);
    StepAsks(s, step);
    var p :| p in CommandPackets(n.table, step.command) && e == Envelope(step.node, p.to, p.message);
  }

  lemma {:induction false} RunSound(s: Mesh, steps: seq<Step>)
    requires Sound(s)
    ensures Sound(Run(s, steps)) && AskedGrows(s, Run(s, steps))
    decreases |steps|
  {
    if steps != [] {
      StepSound(s, steps[0]);
      StepAsks(s, steps[0]);
      RunSound(Executed(s, steps[0]), steps[1..]);
    }
  }

  lemma {:induction false} SoundAndUnclashing(s: Mesh)
    requires Sound(s) && Unclashing(s)
    ensures HeardFromPeer(s)
  {
    forall e | e in s.inFlight && e.to in s.nodes && About(e.message) && e.message.id in s.nodes[e.to].table.streams
      ensures s.nodes[e.to].table.streams[e.message.id].peer == e.from
    {
      assert EnvelopeSound(s, e) && NodeSound(s, e.to);
      assert Partners(s, e.to, e.message.id, e.from);
    }
  }

  // In every run in which no id is shared between different peers of a node, acceptance, rejection,
  // data and closing of an open stream are announced only on the word of the peer on record.
  lemma {:induction false} OnlyThePeerIsHeard(ids: set<string>, steps: seq<Step>, e: Envelope, event: StreamEvent)
    requires Unclashing(Run(Start(ids), steps))
    requires e in Run(Start(ids), steps).inFlight && e.to in Run(Start(ids), steps).nodes && About(e.message)
    requires e.message.id in Run(Start(ids), steps).nodes[e.to].table.streams
    requires event in MessageEvents(Run(Start(ids), steps).nodes[e.to].table, e.from, e.message)
    ensures var s := Run(Start(ids), steps);
      !event.StreamRequested? && event.id == e.message.id &&
      event.peer == s.nodes[e.to].table.streams[e.message.id].peer
  {
    RunSound(Start(ids), steps);
    SoundAndUnclashing(Run(Start(ids), steps));
  }

  // ----- The condition is exact

  predicate OnlyOpens(steps: seq<Step>) {
    forall a | a in steps :: a.Command? && a.command.Open? && a.command.wellFormed
  }

  predicate NoOpens(steps: seq<Step>) {
    forall a | a in steps :: a.Command? ==> !a.command.Open?
  }

  // However the run goes on with the streams that were opened.
  ghost predicate AlwaysHeardFromPeer(s: Mesh) {
    forall more :: NoOpens(more) ==> HeardFromPeer(Run(s, more))
  }

  lemma {:induction false} NoOpensAsksNothing(s: Mesh, steps: seq<Step>)
    requires NoOpens(steps)
    ensures s.nodes.Keys == Run(s, steps).nodes.Keys
    ensures forall d :: d in s.nodes ==> Run(s, steps).nodes[d].asked == s.nodes[d].asked
    decreases |steps|
  {
    if steps != [] {
      assert steps[0] in steps;
      var t := Executed(s, steps[0]);
      assert forall d :: d in s.nodes ==> t.nodes[d].asked == s.nodes[d].asked;
      NoOpensAsksNothing(t, steps[1..]);
    }
  }

  // Every stream asked for is on record at its opener, and its request is under way.
  ghost predicate Pending(s: Mesh, d: string, id: nat)
    requires d in s.nodes && id in s.nodes[d].asked
  {
    && id in s.nodes[d].table.streams
    && s.nodes[d].table.streams[id].peer == s.nodes[d].asked[id]
    && Envelope(d, s.nodes[d].asked[id], RequestStream(id, s.nodes[d].table.streams[id].reason)) in s.inFlight
  }

  ghost predicate AllPending(s: Mesh) {
    forall d, id :: d in s.nodes && id in s.nodes[d].asked ==> Pending(s, d, id)
  }

  lemma {:induction false} OpenPending(s: Mesh, step: Step)
    requires Sound(s) && AllPending(s) && step.Command? && step.command.Open? && step.command.wellFormed
    ensures AllPending(Executed(s, step))
  {
    if step.node in s.nodes {
      var t, n := Executed(s, step), s.nodes[step.node];
      assert NodeSound(s, step.node);
      assert CommandPackets(n.table, step.command)[0] ==
             Packet(step.command.peer, RequestStream(n.table.nextId, step.command.reason));
      forall d, id | d in t.nodes && id in t.nodes[d].asked ensures Pending(t, d, id) {
        if d != step.node || id != n.table.nextId {
          assert Pending(s, d, id);
        }
      }
    }
  }

  lemma {:induction false} OpensPending(s: Mesh, opens: seq<Step>)
    requires Sound(s) && AllPending(s) && OnlyOpens(opens)
    ensures AllPending(Run(s, opens))
    decreases |opens|
  {
    if opens != [] {
      assert opens[0] in opens;
      StepSound(s, opens[0]);
      OpenPending(s, opens[0]);
      OpensPending(Executed(s, opens[0]), opens[1..]);
    }
  }

  // A node that asked d sends data, and d has another peer on record.
  lemma {:induction false} StrangerIsHeard(s: Mesh, d: string, id: nat, r: string) returns (more: seq<Step>)
    requires d in s.nodes && id in s.nodes[d].table.streams && s.nodes[d].table.streams[id].peer != r
    requires AskedBy(s, r, id, d) && id in s.nodes[r].table.streams && s.nodes[r].table.streams[id].peer == d
    ensures NoOpens(more) && !HeardFromPeer(Run(s, more))
  {
    var send := Command(r, Send(id, []));
    more := [send];
    var t := Executed(s, send);
    assert CommandPackets(s.nodes[r].table, Send(id, []))[0] == Packet(d, StreamData(id, []));
    assert Envelope(r, d, StreamData(id, [])) in t.inFlight;
    assert more[1..] == [];
    assert Run(s, more) == t;
    assert t.nodes[d].table == s.nodes[d].table;
  }

  lemma {:induction false} ClashIsHeard(s: Mesh, d: string, id: nat, q: string, r: string) returns (more: seq<Step>)
    requires AllPending(s) && d in s.nodes
    requires Partners(s, d, id, q) && Partners(s, d, id, r) && q != r
    ensures NoOpens(more) && !HeardFromPeer(Run(s, more))
  {
    if id in s.nodes[d].asked {
      assert Pending(s, d, id);
      var stranger := if s.nodes[d].asked[id] == q then r else q;
      assert AskedBy(s, stranger, id, d) && Pending(s, stranger, id);
      more := StrangerIsHeard(s, d, id, stranger);
    } else {
      assert AskedBy(s, q, id, d) && AskedBy(s, r, id, d);
      assert Pending(s, q, id) && Pending(s, r, id);
      var request := Envelope(q, d, RequestStream(id, s.nodes[q].table.streams[id].reason));
      var t := Executed(s, Arrive(d, request));
      assert t.nodes[r] == s.nodes[r];
      var rest := StrangerIsHeard(t, d, id, r);
      more := [Arrive(d, request)] + rest;
      assert more[1..] == rest;
    }
  }

  // For what the nodes opened, every continuation keeps to the peers on record exactly if no node has
  // one id with two different peers.
  lemma {:induction false} HeardFromPeerIff(ids: set<string>, opens: seq<Step>)
    requires OnlyOpens(opens)
    ensures AlwaysHeardFromPeer(Run(Start(ids), opens)) <==> Unclashing(Run(Start(ids), opens))
  {
    var s := Run(Start(ids), opens);
    RunSound(Start(ids), opens);
    OpensPending(Start(ids), opens);
    if Unclashing(s) {
      forall more | NoOpens(more) ensures HeardFromPeer(Run(s, more)) {
        RunSound(s, more);
        NoOpensAsksNothing(s, more);
        var t := Run(s, more);
        assert forall d, id, q :: AskedBy(t, d, id, q) ==> AskedBy(s, d, id, q);
        assert forall d, id, q :: Partners(t, d, id, q) ==> Partners(s, d, id, q);
        SoundAndUnclashing(t);
      }
    } else {
      var d, id, q, r :| d in s.nodes && Partners(s, d, id, q) && Partners(s, d, id, r) && q != r;
      var more := ClashIsHeard(s, d, id, q, r);
      assert !HeardFromPeer(Run(s, more));
    }
  }

  // Two nodes open their first stream to y, and both requests arrive.
  lemma {:induction false} TwoRequests(x1: string, x2: string, y: string, reason: string) returns (steps: seq<Step>)
    requires x1 != x2 && x1 != y && x2 != y
    ensures OneSided(steps, {x1, x2})
    ensures var s := Run(Start({x1, x2, y}), steps);
      && y in s.nodes && x1 in s.nodes && 1 in s.nodes[y].table.streams && 1 in s.nodes[x1].table.streams
      && s.nodes[y].table.streams[1].peer == x2 && s.nodes[x1].table.streams[1].peer == y
  {
    var open1, open2 := Command(x1, Open(y, true, reason)), Command(x2, Open(y, true, reason));
    var request1, request2 := Envelope(x1, y, RequestStream(1, reason)), Envelope(x2, y, RequestStream(1, reason));
    var s1 := Executed(Start({x1, x2, y}), open1);
    var s2 := Executed(s1, open2);
    var s3 := Executed(s2, Arrive(y, request1));
    assert CommandPackets(EMPTY_TABLE, open1.command)[0] == Packet(y, RequestStream(1, reason));
    assert request1 in s1.inFlight && request2 in s2.inFlight;
    var last := [Arrive(y, request1), Arrive(y, request2)];
    steps := [open1, open2] + last;
    assert last[1..] == [Arrive(y, request2)] && last[1..][1..] == [];
    assert Run(s2, last) == Run(s3, last[1..]) == Run(Executed(s3, Arrive(y, request2)), []);
    assert steps[1..] == [open2] + last && steps[1..][1..] == last;
    assert Run(s1, [open2] + last) == Run(s2, last);
  }

  // Although nobody accepts a stream of its own, y has the second node on record and announces the
  // first one's data for its stream.
  lemma {:induction false} TwoOpenersOneId(x1: string, x2: string, y: string, reason: string, data: Bytes)
    returns (steps: seq<Step>)
    requires x1 != x2 && x1 != y && x2 != y
    ensures OneSided(steps, {x1, x2})
    ensures var s := Run(Start({x1, x2, y}), steps);
      && y in s.nodes && 1 in s.nodes[y].table.streams
      && s.nodes[y].table.streams[1].peer == x2
      && Envelope(x1, y, StreamData(1, data)) in s.inFlight
      && MessageEvents(s.nodes[y].table, x1, StreamData(1, data)) == [DataArrived(x1, 1, data)]
  {
    var requests := TwoRequests(x1, x2, y, reason);
    var s := Run(Start({x1, x2, y}), requests);
    var send := Command(x1, Send(1, data));
    steps := requests + [send];
    RunConcat(Start({x1, x2, y}), requests, [send]);
    assert [send][1..] == [] && Run(s, [send]) == Executed(s, send);
    assert CommandPackets(s.nodes[x1].table, Send(1, data))[0] == Packet(y, StreamData(1, data));
    assert Envelope(x1, y, StreamData(1, data)) in Executed(s, send).inFlight;
  }
}
