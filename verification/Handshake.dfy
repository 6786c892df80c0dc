// The stream handshake between any number of nodes, over a network that loses, repeats and
// reorders messages.
module Handshake {
  import opened Wrappers
  import opened Streams

  // A node's stream table with what it has done so far: which peer it asked for each id it opened,
  // the requests (peer, id) it announced to its user, and those its user then accepted.
  datatype Node = Node(
    table: Table,
    asked: map<nat, string>,
    announced: set<(string, nat)>,
    accepted: set<(string, nat)>)

  datatype Envelope = Envelope(from: string, to: string, message: StreamMessage)

  datatype Mesh = Mesh(nodes: map<string, Node>, inFlight: set<Envelope>)

  datatype Step =
    | Command(node: string, command: StreamCommand)
    | Arrive(node: string, envelope: Envelope)
    | Lose(node: string, peer: string, remaining: nat)

  ghost function Start(ids: set<string>): Mesh {
    Mesh(map d | d in ids :: Node(EMPTY_TABLE, map[], {}, {}), {})
  }

  function Commanded(n: Node, c: StreamCommand): Node {
    var asked := if IsOpen(FromUser(c)) then n.asked[n.table.nextId := c.peer] else n.asked;
    var accepted := if c.Accept? && c.id in n.table.streams
                    then n.accepted + {(n.table.streams[c.id].peer, c.id)} else n.accepted;
    Node(AfterCommand(n.table, c), asked, n.announced, accepted)
  }

  function Notified(n: Node, from: string, m: StreamMessage): Node {
    var announced := if m.RequestStream? then n.announced + {(from, m.id)} else n.announced;
    Node(AfterMessage(n.table, from, m), n.asked, announced, n.accepted)
  }

  ghost function Executed(s: Mesh, step: Step): Mesh {
    if step.node !in s.nodes then s else
    var n := s.nodes[step.node];
    match step
    case Command(d, c) =>
      var out := set p | p in CommandPackets(n.table, c) :: Envelope(d, p.to, p.message);
      Mesh(s.nodes[d := Commanded(n, c)], s.inFlight + out)
    case Arrive(d, e) =>
      if e in s.inFlight && e.to == d then s.(nodes := s.nodes[d := Notified(n, e.from, e.message)]) else s
    case Lose(d, peer, remaining) =>
      s.(nodes := s.nodes[d := n.(table := After(n.table, ConnectionClosed(peer, remaining)))])
  }

  ghost function Run(s: Mesh, steps: seq<Step>): Mesh
    decreases |steps|
  {
    if steps == [] then s else Run(Executed(s, steps[0]), steps[1..])
  }

  // The user accepts only streams that came in, not the ones it opened itself.
  ghost predicate Prudent(s: Mesh, step: Step) {
    step.Command? && step.command.Accept? && step.node in s.nodes &&
    step.command.id in s.nodes[step.node].table.streams ==>
      s.nodes[step.node].table.streams[step.command.id].direction == Inbound
  }

  ghost predicate PrudentRun(s: Mesh, steps: seq<Step>)
    decreases |steps|
  {
    steps != [] ==> Prudent(s, steps[0]) && PrudentRun(Executed(s, steps[0]), steps[1..])
  }

  // ----- The invariant

  ghost predicate AskedBy(s: Mesh, opener: string, id: nat, peer: string) {
    opener in s.nodes && id in s.nodes[opener].asked && s.nodes[opener].asked[id] == peer
  }

  ghost predicate AcceptedBy(s: Mesh, peer: string, opener: string, id: nat) {
    peer in s.nodes && (opener, id) in s.nodes[peer].accepted
  }

  ghost predicate NodeInvariant(s: Mesh, d: string)
    requires d in s.nodes
  {
    var n := s.nodes[d];
    && (forall id :: id in n.asked ==> id < n.table.nextId)
    && n.accepted <= n.announced
    && (forall r :: r in n.announced ==> AskedBy(s, r.0, r.1, d))
    && (forall id :: id in n.table.streams ==>
          var e := n.table.streams[id];
          if e.direction == Outbound then
            AskedBy(s, d, id, e.peer) && (e.status == Active ==> AcceptedBy(s, e.peer, d, id))
          else
            (e.peer, id) in n.announced)
  }

  ghost predicate EnvelopeInvariant(s: Mesh, e: Envelope) {
    && (e.message.RequestStream? ==> AskedBy(s, e.from, e.message.id, e.to))
    && (e.message.AcceptStream? ==> AcceptedBy(s, e.from, e.to, e.message.id))
  }

  ghost predicate Invariant(s: Mesh) {
    && (forall d :: d in s.nodes ==> NodeInvariant(s, d))
    && (forall e :: e in s.inFlight ==> EnvelopeInvariant(s, e))
  }

  // What has been asked and accepted stays asked and accepted.
  ghost predicate Remembers(s: Mesh, t: Mesh) {
    && (forall d, id, peer :: AskedBy(s, d, id, peer) ==> AskedBy(t, d, id, peer))
    && (forall d, opener, id :: AcceptedBy(s, d, opener, id) ==> AcceptedBy(t, d, opener, id))
  }

  lemma {:induction false} StepRemembers(s: Mesh, step: Step)
    requires Invariant(s)
    ensures Remembers(s, Executed(s, step))
  {
  }

  lemma {:induction false} StepInvariant(s: Mesh, step: Step)
    requires Invariant(s) && Prudent(s, step)
    ensures Invariant(Executed(s, step))
  {
    if step.node in s.nodes {
      var t, d := Executed(s, step), step.node;
      StepRemembers(s, step);
      assert NodeInvariant(s, d);
      match step {
        case Command(_, c) => CommandInvariant(s, d, c);
        case Arrive(_, e) =>
          if e in s.inFlight && e.to == d {
            assert EnvelopeInvariant(s, e);
            ArrivalInvariant(s, d, e);
          }
        case Lose(_, _, _) =>
      }
      forall f | f in t.nodes ensures NodeInvariant(t, f) {
        if f != d {
          assert NodeInvariant(s, f);
        }
      }
      forall e | e in t.inFlight ensures EnvelopeInvariant(t, e) {
        if e in s.inFlight {
          assert EnvelopeInvariant(s, e);
        }
      }
    }
  }

  lemma {:induction false} CommandInvariant(s: Mesh, d: string, c: StreamCommand)
    requires Invariant(s) && d in s.nodes && Prudent(s, Command(d, c))
    ensures var t := Executed(s, Command(d, c));
      NodeInvariant(t, d) && forall e :: e in t.inFlight - s.inFlight ==> EnvelopeInvariant(t, e)
  {
    var n, t := s.nodes[d], Executed(s, Command(d, c));
    StepRemembers(s, Command(d, c));
    assert NodeInvariant(s, d);
    if c.Accept? && c.id in n.table.streams {
      assert n.table.streams[c.id].direction == Inbound;
      assert (n.table.streams[c.id].peer, c.id) in n.announced;
    }
    forall e | e in t.inFlight - s.inFlight ensures EnvelopeInvariant(t, e) {
      var p :| p in CommandPackets(n.table, c) && e == Envelope(d, p.to, p.message);
    }
  }

  lemma {:induction false} ArrivalInvariant(s: Mesh, d: string, e: Envelope)
    requires Invariant(s) && d in s.nodes && e in s.inFlight && e.to == d
    ensures NodeInvariant(Executed(s, Arrive(d, e)), d)
  {
    var n, t := s.nodes[d], Executed(s, Arrive(d, e));
    StepRemembers(s, Arrive(d, e));
    assert NodeInvariant(s, d) && EnvelopeInvariant(s, e);
    if e.message.AcceptStream? && e.message.id in n.table.streams &&
       n.table.streams[e.message.id].direction == Outbound {
      AcceptorIsThePeerAsked(s, d, e.message.id, e.from);
    }
  }

  // Only the peer that was asked for an id can have accepted it.
  lemma {:induction false} AcceptorIsThePeerAsked(s: Mesh, opener: string, id: nat, acceptor: string)
    requires Invariant(s) && AcceptedBy(s, acceptor, opener, id)
    ensures AskedBy(s, opener, id, acceptor)
  {
  }

  lemma {:induction false} RunInvariant(s: Mesh, steps: seq<Step>)
    requires Invariant(s) && PrudentRun(s, steps)
    ensures Invariant(Run(s, steps))
    decreases |steps|
  {
    if steps != [] {
      StepInvariant(s, steps[0]);
      RunInvariant(Executed(s, steps[0]), steps[1..]);
    }
  }

  // ----- The handshake

  // In every run in which users accept only incoming streams: a stream is active at its opener only
  // if the very peer it asked had announced this opener's request, and its user had accepted it.
  lemma {:induction false} ActiveMeansAccepted(ids: set<string>, steps: seq<Step>, opener: string, id: nat)
    requires PrudentRun(Start(ids), steps)
    requires opener in Run(Start(ids), steps).nodes
    requires id in Run(Start(ids), steps).nodes[opener].table.streams
    requires Run(Start(ids), steps).nodes[opener].table.streams[id].direction == Outbound
    requires Run(Start(ids), steps).nodes[opener].table.streams[id].status == Active
    ensures var s := Run(Start(ids), steps);
      var peer := s.nodes[opener].table.streams[id].peer;
      && peer in s.nodes
      && (opener, id) in s.nodes[peer].announced
      && (opener, id) in s.nodes[peer].accepted
  {
    RunInvariant(Start(ids), steps);
    var s := Run(Start(ids), steps);
    assert NodeInvariant(s, opener);
    var peer := s.nodes[opener].table.streams[id].peer;
    assert AcceptedBy(s, peer, opener, id);
    assert NodeInvariant(s, peer);
  }

  // StreamAccepted is announced for a stream that the node opened only on the word of the peer it
  // asked, after that peer announced and accepted the request.
  lemma {:induction false} AcceptanceComesFromThePeerAsked(ids: set<string>, steps: seq<Step>, opener: string,
                                                           e: Envelope)
    requires PrudentRun(Start(ids), steps)
    requires opener in Run(Start(ids), steps).nodes
    requires e in Run(Start(ids), steps).inFlight && e.to == opener && e.message.AcceptStream?
    requires e.message.id in Run(Start(ids), steps).nodes[opener].table.streams
    requires Run(Start(ids), steps).nodes[opener].table.streams[e.message.id].direction == Outbound
    ensures var s := Run(Start(ids), steps);
      && MessageEvents(s.nodes[opener].table, e.from, e.message) == [StreamAccepted(e.from, e.message.id)]
      && e.from == s.nodes[opener].table.streams[e.message.id].peer
      && e.from in s.nodes
      && (opener, e.message.id) in s.nodes[e.from].announced * s.nodes[e.from].accepted
  {
    RunInvariant(Start(ids), steps);
    var s := Run(Start(ids), steps);
    assert EnvelopeInvariant(s, e) && NodeInvariant(s, opener);
    AcceptorIsThePeerAsked(s, opener, e.message.id, e.from);
    assert NodeInvariant(s, e.from);
  }

  // Acceptance follows announcement: when the user accepts a stream, its request is already announced.
  lemma {:induction false} AcceptAfterAnnounce(ids: set<string>, steps: seq<Step>, d: string, id: nat)
    requires PrudentRun(Start(ids), steps)
    requires d in Run(Start(ids), steps).nodes && id in Run(Start(ids), steps).nodes[d].table.streams
    requires Prudent(Run(Start(ids), steps), Command(d, Accept(id)))
    ensures var n := Run(Start(ids), steps).nodes[d];
      (n.table.streams[id].peer, id) in n.announced
  {
    RunInvariant(Start(ids), steps);
    assert NodeInvariant(Run(Start(ids), steps), d);
  }

  // ----- One side opens, the other accepts

  ghost predicate OneSided(steps: seq<Step>, openers: set<string>) {
    forall a :: a in steps && a.Command? ==>
      (a.command.Open? ==> a.node in openers) && (a.command.Accept? ==> a.node !in openers)
  }

  ghost predicate OnlyInbound(n: Node) {
    forall id :: id in n.table.streams ==> n.table.streams[id].direction == Inbound
  }

  lemma {:induction false} OneSidedIsPrudent(s: Mesh, steps: seq<Step>, openers: set<string>)
    requires OneSided(steps, openers)
    requires forall d :: d in s.nodes && d !in openers ==> OnlyInbound(s.nodes[d])
    ensures PrudentRun(s, steps)
    decreases |steps|
  {
    if steps != [] {
      var step, rest := steps[0], steps[1..];
      assert step in steps;
      assert OneSided(rest, openers) by {
        assert forall a :: a in rest ==> a in steps;
      }
      OneSidedIsPrudent(Executed(s, step), rest, openers);
    }
  }

  // If the nodes that open streams are not told to accept any, no further care is needed.
  lemma {:induction false} OneSidedHandshake(ids: set<string>, steps: seq<Step>, openers: set<string>,
                                             opener: string, id: nat)
    requires OneSided(steps, openers)
    requires opener in Run(Start(ids), steps).nodes
    requires id in Run(Start(ids), steps).nodes[opener].table.streams
    requires Run(Start(ids), steps).nodes[opener].table.streams[id].direction == Outbound
    requires Run(Start(ids), steps).nodes[opener].table.streams[id].status == Active
    ensures var s := Run(Start(ids), steps);
      var peer := s.nodes[opener].table.streams[id].peer;
      peer in s.nodes && (opener, id) in s.nodes[peer].announced * s.nodes[peer].accepted
  {
    OneSidedIsPrudent(Start(ids), steps, openers);
    ActiveMeansAccepted(ids, steps, opener, id);
  }

  // Without that care the ids of the two sides, which both start at 1, are mistaken for each other:
  // y accepts the stream it opened itself, and x's own stream turns active although y was never
  // told of it.
  lemma {:induction false} AcceptingAnOwnStream(ids: set<string>, x: string, y: string, reason: string)
    returns (steps: seq<Step>)
    requires x != y && x in ids && y in ids
    ensures Roles(steps, {x, y}, {y})
    ensures var s := Run(Start(ids), steps);
      && x in s.nodes && y in s.nodes
      && 1 in s.nodes[x].table.streams
      && s.nodes[x].table.streams[1] == StreamState(y, reason, Active, Outbound)
      && s.nodes[y].announced == {}
  {
    var openX, openY := Command(x, Open(y, true, reason)), Command(y, Open(x, true, reason));
    var accept, arrive := Command(y, Accept(1)), Arrive(x, Envelope(y, x, AcceptStream(1)));
    var s0 := Start(ids);
    var s1 := Executed(s0, openX);
    var s2 := Executed(s1, openY);
    var s3 := Executed(s2, accept);
    var s4 := Executed(s3, arrive);
    steps := [openX, openY, accept, arrive];
    assert s2.nodes[y].table.streams[1].peer == x;
    assert Packet(x, AcceptStream(1)) in CommandPackets(s2.nodes[y].table, Accept(1));
    assert arrive.envelope in s3.inFlight;
    assert s3.nodes[x].table.streams[1] == StreamState(y, reason, Requested, Outbound);
    assert steps[1..] == [openY, accept, arrive] && steps[1..][1..] == [accept, arrive];
    assert [accept, arrive][1..] == [arrive] && [arrive][1..] == [];
    assert Run(s3, [arrive]) == Run(s4, []) == s4;
    assert Run(s2, [accept, arrive]) == Run(s3, [arrive]);
    assert Run(s1, [openY, accept, arrive]) == Run(s2, [accept, arrive]);
  }

  // Only these nodes are told to open streams, and only those to accept them.
  ghost predicate Roles(steps: seq<Step>, openers: set<string>, acceptors: set<string>) {
    forall a :: a in steps && a.Command? ==>
      (a.command.Open? ==> a.node in openers) && (a.command.Accept? ==> a.node in acceptors)
  }

  // Every active stream was announced and accepted by the peer its opener asked.
  ghost predicate HandshakeKept(s: Mesh) {
    forall opener, id :: opener in s.nodes && id in s.nodes[opener].table.streams ==>
      var stream := s.nodes[opener].table.streams[id];
      stream.direction == Outbound && stream.status == Active ==>
        && stream.peer in s.nodes
        && (opener, id) in s.nodes[stream.peer].announced * s.nodes[stream.peer].accepted
  }

  ghost predicate RolesAreSafe(ids: set<string>, openers: set<string>, acceptors: set<string>) {
    forall steps :: Roles(steps, openers, acceptors) ==> HandshakeKept(Run(Start(ids), steps))
  }

  // Where at least two nodes open streams, the handshake is safe by roles alone exactly if no node
  // has both roles.
  lemma {:induction false} SafeRolesIff(ids: set<string>, openers: set<string>, acceptors: set<string>,
                                        x: string, y: string)
    requires openers <= ids && x in openers && y in openers && x != y
    ensures RolesAreSafe(ids, openers, acceptors) <==> openers !! acceptors
  {
    if openers !! acceptors {
      forall steps | Roles(steps, openers, acceptors) ensures HandshakeKept(Run(Start(ids), steps)) {
        assert OneSided(steps, openers);
        var s := Run(Start(ids), steps);
        forall opener, id | opener in s.nodes && id in s.nodes[opener].table.streams
          ensures var stream := s.nodes[opener].table.streams[id];
            stream.direction == Outbound && stream.status == Active ==>
              && stream.peer in s.nodes
              && (opener, id) in s.nodes[stream.peer].announced * s.nodes[stream.peer].accepted
        {
          var stream := s.nodes[opener].table.streams[id];
          if stream.direction == Outbound && stream.status == Active {
            OneSidedHandshake(ids, steps, openers, opener, id);
          }
        }
      }
    }
    if z :| z in openers && z in acceptors {
      var other := if z == x then y else x;
      var steps := AcceptingAnOwnStream(ids, other, z, "");
      assert Roles(steps, openers, acceptors);
      assert !HandshakeKept(Run(Start(ids), steps));
    }
  }

  // ----- From the command to the peer's user

  lemma {:induction false} RunConcat(s: Mesh, first: seq<Step>, second: seq<Step>)
    ensures Run(s, first + second) == Run(Run(s, first), second)
    decreases |first|
  {
    if first == [] {
      assert first + second == second;
    } else {
      assert (first + second)[1..] == first[1..] + second;
      RunConcat(Executed(s, first[0]), first[1..], second);
    }
  }

  // Nothing that was sent is taken back.
  lemma {:induction false} MessagesStay(s: Mesh, steps: seq<Step>)
    ensures s.inFlight <= Run(s, steps).inFlight && s.nodes.Keys == Run(s, steps).nodes.Keys
    decreases |steps|
  {
    if steps != [] {
      var t := Executed(s, steps[0]);
      assert t.nodes.Keys == s.nodes.Keys && s.inFlight <= t.inFlight;
      MessagesStay(t, steps[1..]);
    }
  }

  // d hangs up a stream that it has on record with q; whatever happens meanwhile, when that reaches q
  // the stream is gone at q as well, and q's user is told of a closing by d.
  lemma {:induction false} CloseReachesPeer(s: Mesh, d: string, id: nat, meanwhile: seq<Step>)
    requires d in s.nodes && id in s.nodes[d].table.streams && s.nodes[d].table.streams[id].peer in s.nodes
    ensures var q, close := s.nodes[d].table.streams[id].peer, Command(d, Close(id));
      var m := Envelope(d, q, CloseStream(id));
      var t := Run(s, [close] + meanwhile);
      var u := Executed(t, Arrive(q, m));
      && id !in Executed(s, close).nodes[d].table.streams
      && q in t.nodes && q in u.nodes
      && m in t.inFlight
      && MessageEvents(t.nodes[q].table, d, m.message) == [StreamClosed(d, id)]
      && id !in u.nodes[q].table.streams
  {
    SentAndKept(s, d, Close(id), meanwhile);
  }

  // The same for a rejection, which q's user is told of, with its reason, if q still has the stream.
  lemma {:induction false} RejectionReachesPeer(s: Mesh, d: string, id: nat, reason: string, meanwhile: seq<Step>)
    requires d in s.nodes && id in s.nodes[d].table.streams && s.nodes[d].table.streams[id].peer in s.nodes
    ensures var q, reject := s.nodes[d].table.streams[id].peer, Command(d, Reject(id, reason));
      var m := Envelope(d, q, RejectStream(id, reason));
      var t := Run(s, [reject] + meanwhile);
      var u := Executed(t, Arrive(q, m));
      && id !in Executed(s, reject).nodes[d].table.streams
      && q in t.nodes && q in u.nodes
      && m in t.inFlight
      && MessageEvents(t.nodes[q].table, d, m.message) ==
           (if id in t.nodes[q].table.streams then [StreamRejected(d, id, reason)] else [])
      && id !in u.nodes[q].table.streams
  {
    SentAndKept(s, d, Reject(id, reason), meanwhile);
  }

  // Data leaves the stream open at both ends; q's user is told of it if q has the stream.
  lemma {:induction false} DataReachesPeer(s: Mesh, d: string, id: nat, data: Bytes, meanwhile: seq<Step>)
    requires d in s.nodes && id in s.nodes[d].table.streams && s.nodes[d].table.streams[id].peer in s.nodes
    ensures var q, send := s.nodes[d].table.streams[id].peer, Command(d, Send(id, data));
      var m := Envelope(d, q, StreamData(id, data));
      var t := Run(s, [send] + meanwhile);
      && Executed(s, send).nodes[d].table == s.nodes[d].table
      && q in t.nodes
      && m in t.inFlight
      && MessageEvents(t.nodes[q].table, d, m.message) ==
           (if id in t.nodes[q].table.streams then [DataArrived(d, id, data)] else [])
      && Executed(t, Arrive(q, m)).nodes[q].table == t.nodes[q].table
  {
    SentAndKept(s, d, Send(id, data), meanwhile);
  }

  // An acceptance turns the stream to accepted here and to active at q, whose user is told of it.
  lemma {:induction false} AcceptanceReachesPeer(s: Mesh, d: string, id: nat, meanwhile: seq<Step>)
    requires d in s.nodes && id in s.nodes[d].table.streams && s.nodes[d].table.streams[id].peer in s.nodes
    ensures var q, accept := s.nodes[d].table.streams[id].peer, Command(d, Accept(id));
      var m := Envelope(d, q, AcceptStream(id));
      var t := Run(s, [accept] + meanwhile);
      var u := Executed(t, Arrive(q, m));
      && id in Executed(s, accept).nodes[d].table.streams
      && Executed(s, accept).nodes[d].table.streams[id].status == Accepted
      && q in t.nodes && q in u.nodes
      && m in t.inFlight
      && (id in t.nodes[q].table.streams <==> id in u.nodes[q].table.streams)
      && if id in t.nodes[q].table.streams then
           && MessageEvents(t.nodes[q].table, d, m.message) == [StreamAccepted(d, id)]
           && u.nodes[q].table.streams[id].status == Active
         else MessageEvents(t.nodes[q].table, d, m.message) == []
  {
    SentAndKept(s, d, Accept(id), meanwhile);
  }

  lemma {:induction false} SentAndKept(s: Mesh, d: string, c: StreamCommand, meanwhile: seq<Step>)
    requires d in s.nodes && CommandPackets(s.nodes[d].table, c) != []
    ensures var p := CommandPackets(s.nodes[d].table, c)[0];
      var t := Run(s, [Command(d, c)] + meanwhile);
      t.nodes.Keys == s.nodes.Keys && Envelope(d, p.to, p.message) in t.inFlight
  {
    var p := CommandPackets(s.nodes[d].table, c)[0];
    var t := Executed(s, Command(d, c));
    assert p in CommandPackets(s.nodes[d].table, c);
    assert Envelope(d, p.to, p.message) in t.inFlight;
    assert [Command(d, c)][1..] == [];
    assert Run(s, [Command(d, c)]) == Run(t, []) == t;
    RunConcat(s, [Command(d, c)], meanwhile);
    MessagesStay(t, meanwhile);
  }
}
