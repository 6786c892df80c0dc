// Whole runs of one runtime, and their place in the mesh-wide models.
module RuntimeRuns {
  import opened Wrappers
  import opened Contexts
  import opened Streams
  import opened Runtimes
  import Replication

  // One turn of the event loop. A final disconnect carries the order its removal loop took.
  datatype Turn =
    | ContextTurn(command: ContextCommand, now: nat, outcome: PublishOutcome)
    | StreamTurn(streamCommand: StreamCommand)
    | GossipTurn(incoming: Context)
    | MessageTurn(from: string, message: StreamMessage)
    | DiscoverTurn(peer: string)
    | IdentifyTurn(peer: string, speaksStreams: bool)
    | ConnectTurn(peer: string, address: string, established: nat)
    | DisconnectTurn(peer: string, remaining: nat, order: seq<nat>)

  ghost function AfterTurn(s: State, turn: Turn): State {
    match turn
    case ContextTurn(command, now, outcome) => AfterContextCommand(s, command, now, outcome)
    case StreamTurn(c) => s.(table := AfterCommand(s.table, c), outbox := s.outbox + CommandPackets(s.table, c))
    case GossipTurn(incoming) => AfterContext(s, incoming)
    case MessageTurn(from, m) => AfterPeerMessage(s, from, m)
    case DiscoverTurn(peer) => AfterDiscovery(s, peer)
    case IdentifyTurn(peer, speaks) => AfterIdentify(s, peer, speaks)
    case ConnectTurn(peer, address, established) => AfterConnect(s, peer, address, established)
    case DisconnectTurn(peer, remaining, order) =>
      if remaining == 0 then AfterFinalDisconnect(s, peer, order) else s
  }

  // The context that a turn receives.
  function Incoming(turn: Turn): Option<Context> {
    match turn
    case GossipTurn(c) => Some(c)
    case MessageTurn(_, SyncContext(c)) => Some(c)
    case _ => None
  }

  ghost function AfterTurns(s: State, turns: seq<Turn>): State
    decreases |turns|
  {
    if turns == [] then s else AfterTurns(AfterTurn(s, turns[0]), turns[1..])
  }

  // ----- The final disconnect, exactly

  lemma {:induction false} ClosingCount(peer: string, ids: seq<nat>, id: nat)
    requires forall i, j :: 0 <= i < j < |ids| ==> ids[i] != ids[j]
    ensures multiset(Closings(peer, ids))[Stream(StreamClosed(peer, id))] == if id in ids then 1 else 0
    decreases |ids|
  {
    if ids == [] {
      assert Closings(peer, ids) == [];
    } else {
      var n := |ids| - 1;
      var rest := ids[..n];
      assert ids == rest + [ids[n]];
      ClosingsAppend(peer, rest, ids[n]);
      ClosingCount(peer, rest, id);
      assert multiset(Closings(peer, ids)) ==
             multiset(Closings(peer, rest)) + multiset{Stream(StreamClosed(peer, ids[n]))};
    }
  }

  // It removes that peer's streams and no others, and announces the end of each exactly once.
  lemma {:induction false} FinalDisconnectIsExact(s: State, peer: string, order: seq<nat>, id: nat)
    requires Enumerates(order, StreamsOf(s.table, peer))
    ensures var t := AfterTurn(s, DisconnectTurn(peer, 0, order));
      && (id in t.table.streams <==> id in s.table.streams && s.table.streams[id].peer != peer)
      && (id in t.table.streams ==> t.table.streams[id] == s.table.streams[id])
      && |t.emitted| >= |s.emitted|
      && multiset(t.emitted[|s.emitted|..])[Stream(StreamClosed(peer, id))] ==
           (if id in s.table.streams && s.table.streams[id].peer == peer then 1 else 0)
  {
    var t := AfterTurn(s, DisconnectTurn(peer, 0, order));
    assert t.emitted[|s.emitted|..] == Closings(peer, order) + [PeerDisconnected(peer)];
    ClosingCount(peer, order, id);
  }

  // ----- Context snapshots are sent once per stretch of connection

  function SyncsTo(outbox: seq<Packet>, peer: string): nat {
    if outbox == [] then 0
    else SyncsTo(outbox[..|outbox| - 1], peer) +
         (var p := outbox[|outbox| - 1]; if p.to == peer && p.message.SyncContext? then 1 else 0)
  }

  lemma SyncsAppend(outbox: seq<Packet>, p: Packet, peer: string)
    ensures SyncsTo(outbox + [p], peer) ==
            SyncsTo(outbox, peer) + if p.to == peer && p.message.SyncContext? then 1 else 0
  {
  }

  function Bit(b: bool): nat {
    if b then 1 else 0
  }

  lemma {:induction false} CommandSyncs(outbox: seq<Packet>, t: Table, c: StreamCommand, peer: string)
    ensures SyncsTo(outbox + CommandPackets(t, c), peer) == SyncsTo(outbox, peer)
  {
    var out := CommandPackets(t, c);
    if out == [] {
      assert outbox + out == outbox;
    } else {
      assert out == [out[0]] && !out[0].message.SyncContext?;
      SyncsAppend(outbox, out[0], peer);
    }
  }

  lemma {:induction false} TurnSyncs(s: State, turn: Turn, peer: string)
    requires turn.DisconnectTurn? && turn.remaining == 0 ==> turn.peer != peer
    ensures var t := AfterTurn(s, turn);
      SyncsTo(t.outbox, peer) + Bit(peer in s.synced) == SyncsTo(s.outbox, peer) + Bit(peer in t.synced)
  {
    match turn
    case StreamTurn(c) => CommandSyncs(s.outbox, s.table, c, peer);
    case IdentifyTurn(p, speaks) =>
      SyncsAppend(s.outbox, Packet(p, SyncContext(s.context)), peer);
    case _ =>
  }

  // While the last connection to a peer is not lost, it is sent the whole context at most once, and
  // the set of synced peers says whether it was.
  lemma {:induction false} SyncedOncePerConnection(s: State, turns: seq<Turn>, peer: string)
    requires forall turn :: turn in turns && turn.DisconnectTurn? && turn.remaining == 0 ==> turn.peer != peer
    ensures var t := AfterTurns(s, turns);
      SyncsTo(t.outbox, peer) + Bit(peer in s.synced) == SyncsTo(s.outbox, peer) + Bit(peer in t.synced)
    decreases |turns|
  {
    if turns != [] {
      assert turns[0] in turns;
      TurnSyncs(s, turns[0], peer);
      SyncedOncePerConnection(AfterTurn(s, turns[0]), turns[1..], peer);
    }
  }

  // ----- A postponed broadcast

  predicate Losing(turns: seq<Turn>, i: nat, peer: string) {
    i < |turns| && turns[i].DisconnectTurn? && turns[i].remaining == 0 && turns[i].peer == peer
  }

  predicate Identifying(turns: seq<Turn>, j: nat, peer: string) {
    j < |turns| && turns[j].IdentifyTurn? && turns[j].peer == peer && turns[j].speaksStreams
  }

  ghost predicate LostThenIdentified(turns: seq<Turn>, peer: string) {
    exists i: nat, j: nat :: i < j && Losing(turns, i, peer) && Identifying(turns, j, peer)
  }

  predicate NoCommands(turns: seq<Turn>) {
    forall turn | turn in turns :: !turn.ContextTurn?
  }

  lemma {:induction false} TurnSendsTo(s: State, turn: Turn, peer: string)
    requires !turn.ContextTurn?
    ensures var t := AfterTurn(s, turn);
      && t.gossip == s.gossip
      && SyncsTo(t.outbox, peer) == SyncsTo(s.outbox, peer) + Bit(Identifying([turn], 0, peer) && peer !in s.synced)
      && (peer in t.synced <==>
            !Losing([turn], 0, peer) && (peer in s.synced || Identifying([turn], 0, peer)))
  {
    if !Losing([turn], 0, peer) {
      TurnSyncs(s, turn, peer);
    }
  }

  lemma {:induction false} SyncsGrow(s: State, turns: seq<Turn>, peer: string)
    requires NoCommands(turns)
    ensures SyncsTo(AfterTurns(s, turns).outbox, peer) >= SyncsTo(s.outbox, peer)
    ensures AfterTurns(s, turns).gossip == s.gossip
    decreases |turns|
  {
    if turns != [] {
      assert turns[0] in turns;
      TurnSendsTo(s, turns[0], peer);
      SyncsGrow(AfterTurn(s, turns[0]), turns[1..], peer);
    }
  }

  lemma {:induction false} UnsyncedIsSentIff(s: State, turns: seq<Turn>, peer: string)
    requires NoCommands(turns) && peer !in s.synced
    ensures SyncsTo(AfterTurns(s, turns).outbox, peer) > SyncsTo(s.outbox, peer) <==>
            exists j: nat :: Identifying(turns, j, peer)
    decreases |turns|
  {
    if turns != [] {
      var turn, rest := turns[0], turns[1..];
      assert turn in turns;
      TurnSendsTo(s, turn, peer);
      if Identifying([turn], 0, peer) {
        assert Identifying(turns, 0, peer);
        SyncsGrow(AfterTurn(s, turn), rest, peer);
      } else {
        UnsyncedIsSentIff(AfterTurn(s, turn), rest, peer);
        if j: nat :| Identifying(turns, j, peer) {
          assert Identifying(rest, j - 1, peer);
        }
        if j: nat :| Identifying(rest, j, peer) {
          assert Identifying(turns, j + 1, peer);
        }
      }
    }
  }

  // A change whose broadcast found no peers is called postponed, but nothing sends it later: without
  // another command no broadcast goes out, and a peer that already has a whole context is sent one
  // exactly if its last connection is lost and it is identified after that.
  lemma {:induction false} SyncedIsSentAgainIff(s: State, turns: seq<Turn>, peer: string)
    requires NoCommands(turns) && peer in s.synced
    ensures AfterTurns(s, turns).gossip == s.gossip
    ensures SyncsTo(AfterTurns(s, turns).outbox, peer) > SyncsTo(s.outbox, peer) <==> LostThenIdentified(turns, peer)
    decreases |turns|
  {
    SyncsGrow(s, turns, peer);
    if turns != [] {
      var turn, rest := turns[0], turns[1..];
      assert turn in turns;
      TurnSendsTo(s, turn, peer);
      if Losing([turn], 0, peer) {
        UnsyncedIsSentIff(AfterTurn(s, turn), rest, peer);
        if j: nat :| Identifying(rest, j, peer) {
          assert Losing(turns, 0, peer) && Identifying(turns, j + 1, peer);
        }
      } else {
        SyncedIsSentAgainIff(AfterTurn(s, turn), rest, peer);
        if i: nat, j: nat :| i < j && Losing(rest, i, peer) && Identifying(rest, j, peer) {
          assert Losing(turns, i + 1, peer) && Identifying(turns, j + 1, peer);
        }
      }
      if i: nat, j: nat :| i < j && Losing(turns, i, peer) && Identifying(turns, j, peer) {
        assert Identifying(rest, j - 1, peer);
        assert i > 0 ==> Losing(rest, i - 1, peer);
      }
    }
  }

  // ----- Discovery is announced once per stretch of connection

  function Discoveries(emitted: seq<Event>, peer: string): nat {
    multiset(emitted)[PeerDiscovered(peer)]
  }

  // What a turn adds to the events.
  ghost function News(s: State, turn: Turn): seq<Event> {
    match turn
    case GossipTurn(incoming) => ContextEvents(s.context, incoming)
    case MessageTurn(from, m) =>
      if m.SyncContext? then ContextEvents(s.context, m.context) else Announced(MessageEvents(s.table, from, m))
    case DiscoverTurn(peer) => if peer in s.discovered then [] else [PeerDiscovered(peer)]
    case IdentifyTurn(peer, _) => if peer in s.discovered then [] else [PeerDiscovered(peer)]
    case ConnectTurn(peer, address, established) => if established == 1 then [PeerConnected(peer, address)] else []
    case DisconnectTurn(peer, remaining, order) =>
      if remaining == 0 then Closings(peer, order) + [PeerDisconnected(peer)] else []
    case _ => []
  }

  lemma {:induction false} NewsIsWhatIsEmitted(s: State, turn: Turn)
    ensures AfterTurn(s, turn).emitted == s.emitted + News(s, turn)
  {
  }

  lemma {:induction false} NewsDiscoveries(s: State, turn: Turn, peer: string)
    requires turn.DisconnectTurn? && turn.remaining == 0 ==> turn.peer != peer
    ensures Discoveries(News(s, turn), peer) + Bit(peer in s.discovered) == Bit(peer in AfterTurn(s, turn).discovered)
  {
    if !turn.DiscoverTurn? && !turn.IdentifyTurn? {
      assert PeerDiscovered(peer) !in News(s, turn);
    }
  }

  lemma {:induction false} TurnDiscoveries(s: State, turn: Turn, peer: string)
    requires turn.DisconnectTurn? && turn.remaining == 0 ==> turn.peer != peer
    ensures var t := AfterTurn(s, turn);
      Discoveries(t.emitted, peer) + Bit(peer in s.discovered) ==
      Discoveries(s.emitted, peer) + Bit(peer in t.discovered)
  {
    NewsIsWhatIsEmitted(s, turn);
    NewsDiscoveries(s, turn, peer);
  }

  // Multicast discovery and identification both announce a peer. While its last connection is not
  // lost they do so at most once between them, and the set of discovered peers says whether they did.
  lemma {:induction false} DiscoveredOncePerConnection(s: State, turns: seq<Turn>, peer: string)
    requires forall turn :: turn in turns && turn.DisconnectTurn? && turn.remaining == 0 ==> turn.peer != peer
    ensures var t := AfterTurns(s, turns);
      Discoveries(t.emitted, peer) + Bit(peer in s.discovered) ==
      Discoveries(s.emitted, peer) + Bit(peer in t.discovered)
    decreases |turns|
  {
    if turns != [] {
      assert turns[0] in turns;
      TurnDiscoveries(s, turns[0], peer);
      DiscoveredOncePerConnection(AfterTurn(s, turns[0]), turns[1..], peer);
    }
  }

  // ----- Connected peers

  // Turn i made the first connection to the peer, and the last one was not lost since.
  ghost predicate ConnectedSince(turns: seq<Turn>, i: nat, peer: string) {
    && i < |turns|
    && turns[i].ConnectTurn? && turns[i].peer == peer && turns[i].established == 1
    && forall j :: i < j < |turns| && turns[j].DisconnectTurn? && turns[j].remaining == 0 ==> turns[j].peer != peer
  }

  // The peers a runtime reports as connected are those its turns connected and did not lose.
  lemma {:induction false} PeersFollowTurns(s: State, turns: seq<Turn>, peer: string)
    requires s.peers == {}
    ensures peer in AfterTurns(s, turns).peers <==> exists i: nat :: ConnectedSince(turns, i, peer)
    decreases |turns|
  {
    if turns != [] {
      var n := |turns| - 1;
      PeersFollowTurns(s, turns[..n], peer);
      AfterTurnsSnoc(s, turns);
      var before := AfterTurns(s, turns[..n]);
      PeersAfterTurn(before, turns[n], peer);
      if i: nat :| ConnectedSince(turns[..n], i, peer) {
        var lost := turns[n].DisconnectTurn? && turns[n].remaining == 0 && turns[n].peer == peer;
        assert lost || ConnectedSince(turns, i, peer);
      }
      if i: nat :| ConnectedSince(turns, i, peer) {
        assert i == n || ConnectedSince(turns[..n], i, peer);
      }
      if turns[n].ConnectTurn? && turns[n].peer == peer && turns[n].established == 1 {
        assert ConnectedSince(turns, n, peer);
      }
    }
  }

  lemma PeersAfterTurn(s: State, turn: Turn, peer: string)
    ensures peer in AfterTurn(s, turn).peers <==>
            || (turn.ConnectTurn? && turn.established == 1 && turn.peer == peer)
            || (peer in s.peers && !(turn.DisconnectTurn? && turn.remaining == 0 && turn.peer == peer))
  {
  }

  // ----- The runtime inside the mesh-wide models

  function StreamInput(turn: Turn): Option<Input> {
    match turn
    case StreamTurn(c) => Some(FromUser(c))
    case MessageTurn(from, m) => Some(FromPeer(from, m))
    case DisconnectTurn(peer, remaining, _) => Some(ConnectionClosed(peer, remaining))
    case _ => None
  }

  function StreamInputs(turns: seq<Turn>): seq<Input> {
    if turns == [] then []
    else
      var last := StreamInput(turns[|turns| - 1]);
      StreamInputs(turns[..|turns| - 1]) + if last.Some? then [last.value] else []
  }

  lemma {:induction false} AfterTurnsSnoc(s: State, turns: seq<Turn>)
    requires turns != []
    ensures AfterTurns(s, turns) == AfterTurn(AfterTurns(s, turns[..|turns| - 1]), turns[|turns| - 1])
    decreases |turns|
  {
    if |turns| > 1 {
      AfterTurnsSnoc(AfterTurn(s, turns[0]), turns[1..]);
      assert turns[1..][..|turns| - 2] == turns[..|turns| - 1][1..];
    } else {
      assert turns[..|turns| - 1] == [] && turns[1..] == [];
    }
  }

  lemma TurnTable(s: State, turn: Turn)
    ensures AfterTurn(s, turn).table ==
            match StreamInput(turn)
            case Some(input) => After(s.table, input)
            case None => s.table
  {
  }

  lemma StreamInputsSnoc(turns: seq<Turn>)
    requires turns != []
    ensures AfterAll(StreamInputs(turns)) ==
            match StreamInput(turns[|turns| - 1])
            case Some(input) => After(AfterAll(StreamInputs(turns[..|turns| - 1])), input)
            case None => AfterAll(StreamInputs(turns[..|turns| - 1]))
  {
    var rest := StreamInputs(turns[..|turns| - 1]);
    match StreamInput(turns[|turns| - 1])
    case Some(input) => assert (rest + [input])[..|rest|] == rest;
    case None => assert rest + [] == rest;
  }

  // The loop's stream table is the fold of the stream inputs among its turns, so all that is proved
  // of logs holds of it.
  lemma {:induction false} TableFollowsTurns(s: State, turns: seq<Turn>)
    requires s.table == EMPTY_TABLE
    ensures AfterTurns(s, turns).table == AfterAll(StreamInputs(turns))
    decreases |turns|
  {
    if turns != [] {
      var rest := turns[..|turns| - 1];
      TableFollowsTurns(s, rest);
      AfterTurnsSnoc(s, turns);
      TurnTable(AfterTurns(s, rest), turns[|turns| - 1]);
      StreamInputsSnoc(turns);
    }
  }

  // The mesh step that a turn is, for the device whose runtime takes it.
  ghost function MeshStep(device: string, turn: Turn, history: set<nat>): Option<Replication.Step> {
    match turn
    case ContextTurn(UpdateSelfContext(patch), now, _) => Some(Replication.Update(device, patch, now))
    case ContextTurn(ReplaceSelfContext(data), now, _) => Some(Replication.Replace(device, data, now))
    case GossipTurn(incoming) => Some(Replication.Deliver(device, Replication.Version(incoming, history)))
    case MessageTurn(_, SyncContext(incoming)) =>
      Some(Replication.Deliver(device, Replication.Version(incoming, history)))
    case _ => None
  }

  // Every turn changes the context as a step of the replicated system does, or not at all; a failed
  // publication makes no difference. What the turn sends out is the context it ends with.
  lemma {:induction false} TurnIsMeshStep(s: State, turn: Turn, mesh: Replication.System, device: string,
                                          history: set<nat>)
    requires device in mesh.nodes && mesh.nodes[device].context == s.context
    requires turn.GossipTurn? ==> Replication.Version(turn.incoming, history) in mesh.inFlight
    requires turn.MessageTurn? && turn.message.SyncContext? ==>
               Replication.Version(turn.message.context, history) in mesh.inFlight
    ensures var step := MeshStep(device, turn, history);
      AfterTurn(s, turn).context ==
        if step.Some? then Replication.Executed(mesh, step.value).nodes[device].context else s.context
    ensures forall c :: c in AfterTurn(s, turn).gossip && c !in s.gossip ==> c == AfterTurn(s, turn).context
    ensures forall p :: p in AfterTurn(s, turn).outbox && p !in s.outbox && p.message.SyncContext? ==>
              p.message.context == AfterTurn(s, turn).context
  {
  }
}
