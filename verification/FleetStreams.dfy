// The streams of any number of runtimes: every interleaving of their event loops is a run of the
// handshake model, so its guarantees are theirs, told in what the runtimes emit and send.
module FleetStreams {
  import opened Streams
  import opened Runtimes
  import opened RuntimeRuns
  import opened Fleets
  import H = Handshake
  import Senders

  // d sent a request for this id to the peer.
  ghost predicate Requests(f: Fleet, d: string, id: nat, peer: string) {
    d in f && exists reason :: Packet(peer, RequestStream(id, reason)) in f[d].outbox
  }

  // d told its user of this opener's request.
  ghost predicate Announces(f: Fleet, d: string, opener: string, id: nat) {
    d in f && exists reason :: Stream(StreamRequested(opener, id, reason)) in f[d].emitted
  }

  // d told the opener that its user accepted.
  ghost predicate Accepts(f: Fleet, d: string, opener: string, id: nat) {
    d in f && Packet(opener, AcceptStream(id)) in f[d].outbox
  }

  // The mesh has the runtimes' tables and messages, and what its nodes remember has left its trace.
  ghost predicate Follows(h: H.Mesh, f: Fleet) {
    && h.nodes.Keys == f.Keys
    && EnvelopesFollow(h, f)
    && (forall d :: d in f ==> NodeFollows(h, f, d))
  }

  ghost predicate EnvelopesFollow(h: H.Mesh, f: Fleet) {
    forall e: H.Envelope :: !e.message.SyncContext? ==>
      (e in h.inFlight <==> e.from in f && Packet(e.to, e.message) in f[e.from].outbox)
  }

  ghost predicate NodeFollows(h: H.Mesh, f: Fleet, d: string)
    requires d in h.nodes && d in f
  {
    var n := h.nodes[d];
    && n.table == f[d].table
    && (forall id :: id in n.asked ==> Requests(f, d, id, n.asked[id]))
    && (forall r :: r in n.announced ==> Announces(f, d, r.0, r.1))
    && (forall r :: r in n.accepted ==> Accepts(f, d, r.0, r.1))
  }

  // The step of the handshake model that a turn is.
  function StreamSteps(t: FleetTurn): seq<H.Step> {
    match t.turn
    case StreamTurn(c) => [H.Command(t.device, c)]
    case MessageTurn(from, m) => if m.SyncContext? then [] else [H.Arrive(t.device, H.Envelope(from, t.device, m))]
    case DisconnectTurn(peer, remaining, _) => [H.Lose(t.device, peer, remaining)]
    case _ => []
  }

  // Turns only add to what a runtime sent and emitted.
  lemma {:induction false} TurnKeeps(s: State, turn: Turn)
    ensures forall p :: p in s.outbox ==> p in AfterTurn(s, turn).outbox
    ensures forall e :: e in s.emitted ==> e in AfterTurn(s, turn).emitted
  {
    NewsIsWhatIsEmitted(s, turn);
  }

  lemma {:induction false} OthersFollow(h: H.Mesh, f: Fleet, t: FleetTurn, k: H.Mesh)
    requires Follows(h, f) && t.device in f && Genuine(f, t)
    requires k.nodes.Keys == h.nodes.Keys
    requires forall d :: d in h.nodes && d != t.device ==> k.nodes[d] == h.nodes[d]
    ensures forall d :: d in f && d != t.device ==> NodeFollows(k, Turned(f, t), d)
  {
    forall d | d in f && d != t.device ensures NodeFollows(k, Turned(f, t), d) {
      assert NodeFollows(h, f, d);
    }
  }

  // What a node remembers, carried over a turn that makes it remember no more.
  lemma {:induction false} TracesStay(h: H.Mesh, f: Fleet, t: FleetTurn, n: H.Node)
    requires Follows(h, f) && t.device in f && Genuine(f, t)
    requires n == h.nodes[t.device].(table := Turned(f, t)[t.device].table)
    ensures NodeFollows(h.(nodes := h.nodes[t.device := n]), Turned(f, t), t.device)
  {
    var d, g := t.device, Turned(f, t);
    assert NodeFollows(h, f, d);
    TurnKeeps(f[d], t.turn);
    forall id | id in n.asked ensures Requests(g, d, id, n.asked[id]) {
      assert Requests(f, d, id, n.asked[id]);
    }
    forall r | r in n.announced ensures Announces(g, d, r.0, r.1) {
      assert Announces(f, d, r.0, r.1);
    }
    forall r | r in n.accepted ensures Accepts(g, d, r.0, r.1) {
      assert Accepts(f, d, r.0, r.1);
    }
  }

  lemma {:induction false} CommandEnvelopes(h: H.Mesh, f: Fleet, d: string, c: StreamCommand)
    requires EnvelopesFollow(h, f) && d in h.nodes && d in f && h.nodes[d].table == f[d].table
    ensures EnvelopesFollow(H.Executed(h, H.Command(d, c)), Turned(f, FleetTurn(d, StreamTurn(c))))
  {
    var g := Turned(f, FleetTurn(d, StreamTurn(c)));
    assert g[d].outbox == f[d].outbox + CommandPackets(f[d].table, c);
  }

  lemma {:induction false} CommandTraces(h: H.Mesh, f: Fleet, d: string, c: StreamCommand)
    requires Follows(h, f) && d in f
    ensures NodeFollows(H.Executed(h, H.Command(d, c)), Turned(f, FleetTurn(d, StreamTurn(c))), d)
  {
    var t := FleetTurn(d, StreamTurn(c));
    var g := Turned(f, t);
    var n := h.nodes[d].(table := g[d].table);
    assert NodeFollows(h, f, d);
    TracesStay(h, f, t, n);
    assert NodeFollows(h.(nodes := h.nodes[d := n]), g, d);
    var out := CommandPackets(f[d].table, c);
    assert g[d].outbox == f[d].outbox + out;
    if IsOpen(FromUser(c)) {
      assert out[0] == Packet(c.peer, RequestStream(f[d].table.nextId, c.reason)) && out[0] in g[d].outbox;
      assert Requests(g, d, f[d].table.nextId, c.peer);
    }
    if c.Accept? && c.id in f[d].table.streams {
      assert out[0] == Packet(f[d].table.streams[c.id].peer, AcceptStream(c.id)) && out[0] in g[d].outbox;
      assert Accepts(g, d, f[d].table.streams[c.id].peer, c.id);
    }
  }

  lemma {:induction false} CommandFollows(h: H.Mesh, f: Fleet, d: string, c: StreamCommand)
    requires Follows(h, f) && d in f
    ensures Follows(H.Executed(h, H.Command(d, c)), Turned(f, FleetTurn(d, StreamTurn(c))))
  {
    assert NodeFollows(h, f, d);
    CommandEnvelopes(h, f, d, c);
    CommandTraces(h, f, d, c);
    OthersFollow(h, f, FleetTurn(d, StreamTurn(c)), H.Executed(h, H.Command(d, c)));
  }

  lemma {:induction false} SameEnvelopes(h: H.Mesh, f: Fleet, k: H.Mesh, g: Fleet)
    requires EnvelopesFollow(h, f) && k.inFlight == h.inFlight && f.Keys == g.Keys
    requires forall d, p: Packet :: d in f && !p.message.SyncContext? ==> (p in f[d].outbox <==> p in g[d].outbox)
    ensures EnvelopesFollow(k, g)
  {
  }

  lemma {:induction false} ArrivalTraces(h: H.Mesh, f: Fleet, d: string, from: string, m: StreamMessage)
    requires Follows(h, f) && d in f && !m.SyncContext?
    requires Genuine(f, FleetTurn(d, MessageTurn(from, m))) && H.Envelope(from, d, m) in h.inFlight
    ensures var k := H.Executed(h, H.Arrive(d, H.Envelope(from, d, m)));
      NodeFollows(k, Turned(f, FleetTurn(d, MessageTurn(from, m))), d)
  {
    var t := FleetTurn(d, MessageTurn(from, m));
    var g := Turned(f, t);
    var n := h.nodes[d].(table := g[d].table);
    assert NodeFollows(h, f, d);
    TracesStay(h, f, t, n);
    assert NodeFollows(h.(nodes := h.nodes[d := n]), g, d);
    if m.RequestStream? {
      var news := Announced(MessageEvents(f[d].table, from, m));
      assert g[d].emitted == f[d].emitted + news && news[0] == Stream(StreamRequested(from, m.id, m.reason));
      assert news[0] in g[d].emitted;
      assert Announces(g, d, from, m.id);
    }
  }

  lemma {:induction false} ArrivalFollows(h: H.Mesh, f: Fleet, d: string, from: string, m: StreamMessage)
    requires Follows(h, f) && d in f && !m.SyncContext?
    requires Genuine(f, FleetTurn(d, MessageTurn(from, m)))
    ensures Follows(H.Executed(h, H.Arrive(d, H.Envelope(from, d, m))), Turned(f, FleetTurn(d, MessageTurn(from, m))))
  {
    var t, e := FleetTurn(d, MessageTurn(from, m)), H.Envelope(from, d, m);
    assert e in h.inFlight;
    SameEnvelopes(h, f, H.Executed(h, H.Arrive(d, e)), Turned(f, t));
    ArrivalTraces(h, f, d, from, m);
    OthersFollow(h, f, t, H.Executed(h, H.Arrive(d, e)));
  }

  // A turn that is no stream message or command sends none.
  lemma {:induction false} SilentTurn(s: State, turn: Turn)
    requires !turn.StreamTurn? && (turn.MessageTurn? ==> turn.message.SyncContext?)
    ensures forall p: Packet :: !p.message.SyncContext? ==> (p in s.outbox <==> p in AfterTurn(s, turn).outbox)
  {
  }

  lemma {:induction false} OtherTurnFollows(h: H.Mesh, f: Fleet, t: FleetTurn)
    requires Follows(h, f) && t.device in f && Genuine(f, t)
    requires !t.turn.StreamTurn? && (t.turn.MessageTurn? ==> t.turn.message.SyncContext?)
    ensures Follows(H.Run(h, StreamSteps(t)), Turned(f, t))
  {
    var d, g := t.device, Turned(f, t);
    var n := h.nodes[d].(table := g[d].table);
    OtherTurnSteps(h, f, t);
    var k := h.(nodes := h.nodes[d := n]);
    TracesStay(h, f, t, n);
    SilentTurn(f[d], t.turn);
    SameEnvelopes(h, f, k, g);
    OthersFollow(h, f, t, k);
  }

  // Such a turn changes no more of the mesh than the node's table.
  lemma {:induction false} OtherTurnSteps(h: H.Mesh, f: Fleet, t: FleetTurn)
    requires Follows(h, f) && t.device in f && Genuine(f, t)
    requires !t.turn.StreamTurn? && (t.turn.MessageTurn? ==> t.turn.message.SyncContext?)
    ensures var n := h.nodes[t.device].(table := Turned(f, t)[t.device].table);
      H.Run(h, StreamSteps(t)) == h.(nodes := h.nodes[t.device := n])
  {
    assert NodeFollows(h, f, t.device);
    if t.turn.DisconnectTurn? {
      OneStep(h, H.Lose(t.device, t.turn.peer, t.turn.remaining));
    } else {
      assert h.nodes[t.device := h.nodes[t.device]] == h.nodes;
    }
  }

  lemma OneStep(h: H.Mesh, step: H.Step)
    ensures H.Run(h, [step]) == H.Executed(h, step)
  {
    assert [step][1..] == [];
  }

  lemma {:induction false} TurnFollows(h: H.Mesh, f: Fleet, t: FleetTurn)
    requires Follows(h, f) && t.device in f && Genuine(f, t)
    ensures Follows(H.Run(h, StreamSteps(t)), Turned(f, t))
  {
    match t.turn
    case StreamTurn(c) =>
      OneStep(h, H.Command(t.device, c));
      CommandFollows(h, f, t.device, c);
    case MessageTurn(from, m) =>
      if m.SyncContext? {
        OtherTurnFollows(h, f, t);
      } else {
        OneStep(h, H.Arrive(t.device, H.Envelope(from, t.device, m)));
        ArrivalFollows(h, f, t.device, from, m);
      }
    case _ => OtherTurnFollows(h, f, t);
  }

  // The users of the runtimes accept only streams that came in.
  ghost predicate PrudentTurn(f: Fleet, t: FleetTurn) {
    t.turn.StreamTurn? && t.turn.streamCommand.Accept? && t.device in f &&
    t.turn.streamCommand.id in f[t.device].table.streams ==>
      f[t.device].table.streams[t.turn.streamCommand.id].direction == Inbound
  }

  ghost predicate PrudentTurns(f: Fleet, turns: seq<FleetTurn>)
    decreases |turns|
  {
    turns != [] ==> PrudentTurn(f, turns[0]) && PrudentTurns(Turned(f, turns[0]), turns[1..])
  }

  lemma {:induction false} StepsArePrudent(h: H.Mesh, f: Fleet, t: FleetTurn)
    requires Follows(h, f) && PrudentTurn(f, t) && t.device in f
    ensures H.PrudentRun(h, StreamSteps(t))
  {
    assert NodeFollows(h, f, t.device);
    if StreamSteps(t) != [] {
      var step := StreamSteps(t)[0];
      assert H.Prudent(h, step);
      assert StreamSteps(t)[1..] == [];
    }
  }

  lemma {:induction false} PrudentConcat(h: H.Mesh, first: seq<H.Step>, second: seq<H.Step>)
    ensures H.Run(h, first + second) == H.Run(H.Run(h, first), second)
    ensures H.PrudentRun(h, first) && H.PrudentRun(H.Run(h, first), second) ==> H.PrudentRun(h, first + second)
    decreases |first|
  {
    if first == [] {
      assert first + second == second;
    } else {
      assert (first + second)[1..] == first[1..] + second;
      PrudentConcat(H.Executed(h, first[0]), first[1..], second);
    }
  }

  // Any interleaving of the event loops of any runtimes is a run of the handshake model, with the same
  // tables and the same messages under way.
  lemma {:induction false} FleetRunFollows(h: H.Mesh, f: Fleet, turns: seq<FleetTurn>) returns (steps: seq<H.Step>)
    requires Follows(h, f)
    ensures Follows(H.Run(h, steps), FleetRun(f, turns))
    ensures PrudentTurns(f, turns) ==> H.PrudentRun(h, steps)
    decreases |turns|
  {
    steps := [];
    if turns != [] {
      var t := turns[0];
      var head: seq<H.Step> := [];
      if t.device in f && Genuine(f, t) {
        head := StreamSteps(t);
        TurnFollows(h, f, t);
        if PrudentTurn(f, t) {
          StepsArePrudent(h, f, t);
        }
      }
      var tail := FleetRunFollows(H.Run(h, head), Turned(f, t), turns[1..]);
      steps := head + tail;
      PrudentConcat(h, head, tail);
    }
  }

  lemma {:induction false} FleetFollows(devices: map<string, nat>, turns: seq<FleetTurn>) returns (steps: seq<H.Step>)
    ensures Follows(H.Run(H.Start(devices.Keys), steps), FleetRun(Booted(devices), turns))
    ensures PrudentTurns(Booted(devices), turns) ==> H.PrudentRun(H.Start(devices.Keys), steps)
  {
    assert Follows(H.Start(devices.Keys), Booted(devices));
    steps := FleetRunFollows(H.Start(devices.Keys), Booted(devices), turns);
  }

  // ----- What the runtimes inherit

  // Where users accept only streams that came in, a stream is active at the runtime that opened it only
  // if the peer's runtime told its user of the request and sent the acceptance.
  lemma {:induction false} RuntimesHandshake(devices: map<string, nat>, turns: seq<FleetTurn>, opener: string, id: nat)
    requires PrudentTurns(Booted(devices), turns)
    requires opener in FleetRun(Booted(devices), turns)
    requires id in FleetRun(Booted(devices), turns)[opener].table.streams
    requires FleetRun(Booted(devices), turns)[opener].table.streams[id].direction == Outbound
    requires FleetRun(Booted(devices), turns)[opener].table.streams[id].status == Active
    ensures var f := FleetRun(Booted(devices), turns);
      var peer := f[opener].table.streams[id].peer;
      Announces(f, peer, opener, id) && Accepts(f, peer, opener, id)
  {
    var steps := FleetFollows(devices, turns);
    var h, f := H.Run(H.Start(devices.Keys), steps), FleetRun(Booted(devices), turns);
    assert NodeFollows(h, f, opener);
    H.ActiveMeansAccepted(devices.Keys, steps, opener, id);
    assert NodeFollows(h, f, f[opener].table.streams[id].peer);
  }

  // One of the two sent the other a request for a stream under this id.
  ghost predicate Related(f: Fleet, d: string, id: nat, q: string) {
    Requests(f, d, id, q) || Requests(f, q, id, d)
  }

  ghost predicate NoClash(f: Fleet) {
    forall d, id, q, r :: d in f && Related(f, d, id, q) && Related(f, d, id, r) ==> q == r
  }

  // Where no runtime shares one id with two peers, whatever arrives about a stream on record comes from
  // the peer on record.
  lemma {:induction false} RuntimesHearPeers(devices: map<string, nat>, turns: seq<FleetTurn>, d: string,
                                             from: string, m: StreamMessage)
    requires NoClash(FleetRun(Booted(devices), turns)) && d in FleetRun(Booted(devices), turns)
    requires Genuine(FleetRun(Booted(devices), turns), FleetTurn(d, MessageTurn(from, m)))
    requires Senders.About(m) && m.id in FleetRun(Booted(devices), turns)[d].table.streams
    ensures from == FleetRun(Booted(devices), turns)[d].table.streams[m.id].peer
  {
    var steps := FleetFollows(devices, turns);
    var h := H.Run(H.Start(devices.Keys), steps);
    Senders.RunSound(H.Start(devices.Keys), steps);
    HearsPeer(h, FleetRun(Booted(devices), turns), d, from, m);
  }

  lemma {:induction false} HearsPeer(h: H.Mesh, f: Fleet, d: string, from: string, m: StreamMessage)
    requires Follows(h, f) && Senders.Sound(h) && NoClash(f) && d in f
    requires from in f && Packet(d, m) in f[from].outbox
    requires Senders.About(m) && m.id in f[d].table.streams
    ensures from == f[d].table.streams[m.id].peer
  {
    assert NodeFollows(h, f, d);
    NoClashCarries(h, f);
    Senders.SoundAndUnclashing(h);
    assert H.Envelope(from, d, m) in h.inFlight;
  }

  lemma {:induction false} NoClashCarries(h: H.Mesh, f: Fleet)
    requires Follows(h, f) && NoClash(f)
    ensures Senders.Unclashing(h)
  {
    forall d, id, q | Senders.Partners(h, d, id, q) ensures Related(f, d, id, q) {
      if H.AskedBy(h, d, id, q) {
        assert NodeFollows(h, f, d);
      } else {
        assert NodeFollows(h, f, q);
      }
    }
  }
}
