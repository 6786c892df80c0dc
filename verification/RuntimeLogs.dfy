// What a runtime has told its user, sent and noted is what its turns say: every event, message and
// broadcast of a whole run, in order.
module RuntimeLogs {
  import opened Wrappers
  import opened JsonTrees
  import opened DeepMerges
  import opened Clocks
  import opened Contexts
  import opened Streams
  import opened Runtimes
  import opened RuntimeRuns

  // A runtime that has done nothing yet.
  predicate Initial(s: State) {
    s == State(s.context, EMPTY_TABLE, {}, {}, {}, {}, [], [], [])
  }

  // The state that turn i finds.
  ghost function Before(s: State, turns: seq<Turn>, i: nat): State
    requires i <= |turns|
  {
    AfterTurns(s, turns[..i])
  }

  // ----- What is told of a merge

  // A turn that receives a context tells the user of the device it came from and the tree that is held
  // then, exactly if the trees differed and the clocks were not equal.
  lemma {:induction false} ReceivedIsTold(s: State, turn: Turn)
    requires Incoming(turn).Some?
    ensures var m, t := Incoming(turn).value, AfterTurn(s, turn);
      t.emitted == s.emitted +
        if s.context.data != m.data && Compare(s.context.clock, m.clock) != Some(Equal)
        then [ContextUpdated(m.deviceId, t.context.data)]
        else []
  {
  }

  // The tree of the last update among the events.
  function LastUpdate(events: seq<Event>): Option<Json> {
    if events == [] then None
    else
      var last := events[|events| - 1];
      if last.ContextUpdated? then Some(last.data) else LastUpdate(events[..|events| - 1])
  }

  lemma {:induction false} LastUpdateConcat(events: seq<Event>, more: seq<Event>)
    ensures LastUpdate(events + more) ==
            if LastUpdate(more).Some? then LastUpdate(more) else LastUpdate(events)
    decreases |more|
  {
    if more == [] {
      assert events + more == events;
    } else {
      var n := |more| - 1;
      assert (events + more)[..|events + more| - 1] == events + more[..n];
      LastUpdateConcat(events, more[..n]);
    }
  }

  lemma {:induction false} NoUpdate(events: seq<Event>)
    requires forall e :: e in events ==> !e.ContextUpdated?
    ensures LastUpdate(events) == None
    decreases |events|
  {
    if events != [] {
      assert events[|events| - 1] in events;
      NoUpdate(events[..|events| - 1]);
    }
  }

  lemma {:induction false} UntoldStays(s: State, turn: Turn)
    requires !turn.ContextTurn? && Incoming(turn).None?
    ensures LastUpdate(News(s, turn)) == None
    ensures AfterTurn(s, turn).context.data == s.context.data
  {
    NoUpdate(News(s, turn));
  }

  lemma {:induction false} ToldIsHeld(s: State, turn: Turn)
    requires Incoming(turn).Some?
    ensures var t := AfterTurn(s, turn);
      match LastUpdate(News(s, turn))
      case Some(data) => t.context.data == data
      case None => t.context.data == s.context.data
  {
    ReceivedIsTold(s, turn);
    NewsIsWhatIsEmitted(s, turn);
    MergeIdempotent(s.context.data, true);
    MergeIdempotent(s.context.data, false);
  }

  // While the user gives no command, the last update the user was told of has the tree that is held,
  // and without any the tree never changed: whoever follows the events knows the tree.
  lemma {:induction false} UpdatesTellTheTree(s: State, turns: seq<Turn>)
    requires NoCommands(turns)
    ensures var t := AfterTurns(s, turns);
      && s.emitted <= t.emitted
      && match LastUpdate(t.emitted[|s.emitted|..])
         case Some(data) => t.context.data == data
         case None => t.context.data == s.context.data
    decreases |turns|
  {
    if turns == [] {
      assert s.emitted[|s.emitted|..] == [];
    } else {
      var turn, u, t := turns[0], AfterTurn(s, turns[0]), AfterTurns(s, turns);
      assert turn in turns;
      NewsIsWhatIsEmitted(s, turn);
      if Incoming(turn).Some? {
        ToldIsHeld(s, turn);
      } else {
        UntoldStays(s, turn);
      }
      UpdatesTellTheTree(u, turns[1..]);
      var later := t.emitted[|u.emitted|..];
      assert t.emitted == u.emitted + later;
      assert t.emitted[|s.emitted|..] == News(s, turn) + later;
      LastUpdateConcat(News(s, turn), later);
    }
  }

  // ----- What is noted

  // Turn i discovered or identified the peer, and its last connection was not lost since.
  ghost predicate KnownSince(turns: seq<Turn>, i: nat, peer: string) {
    && i < |turns| && (turns[i].DiscoverTurn? || turns[i].IdentifyTurn?) && turns[i].peer == peer
    && forall j: nat :: i < j ==> !Losing(turns, j, peer)
  }

  // Turn i identified the peer as one that speaks the stream protocol, and so on.
  ghost predicate SyncedSince(turns: seq<Turn>, i: nat, peer: string) {
    Identifying(turns, i, peer) && forall j: nat :: i < j ==> !Losing(turns, j, peer)
  }

  lemma {:induction false} SincePrefix(turns: seq<Turn>, i: nat, peer: string)
    requires turns != [] && i < |turns| - 1
    ensures KnownSince(turns, i, peer) <==>
            KnownSince(turns[..|turns| - 1], i, peer) && !Losing(turns, |turns| - 1, peer)
    ensures SyncedSince(turns, i, peer) <==>
            SyncedSince(turns[..|turns| - 1], i, peer) && !Losing(turns, |turns| - 1, peer)
  {
    var n := |turns| - 1;
    assert forall j: nat :: j < n ==> Losing(turns[..n], j, peer) == Losing(turns, j, peer);
  }

  // Peers count as discovered, and as sent the whole context, exactly if the turns say so.
  lemma {:induction false} NotesFollowTurns(s: State, turns: seq<Turn>, peer: string)
    requires Initial(s)
    ensures peer in AfterTurns(s, turns).discovered <==> exists i: nat :: KnownSince(turns, i, peer)
    ensures peer in AfterTurns(s, turns).synced <==> exists i: nat :: SyncedSince(turns, i, peer)
    decreases |turns|
  {
    if turns != [] {
      var n := |turns| - 1;
      NotesFollowTurns(s, turns[..n], peer);
      AfterTurnsSnoc(s, turns);
      assert KnownSince(turns, n, peer) <==>
             (turns[n].DiscoverTurn? || turns[n].IdentifyTurn?) && turns[n].peer == peer;
      assert SyncedSince(turns, n, peer) <==> Identifying(turns, n, peer);
      forall i: nat | i < n
        ensures KnownSince(turns, i, peer) <==> KnownSince(turns[..n], i, peer) && !Losing(turns, n, peer)
        ensures SyncedSince(turns, i, peer) <==> SyncedSince(turns[..n], i, peer) && !Losing(turns, n, peer)
      {
        SincePrefix(turns, i, peer);
      }
      NotedByTurn(Before(s, turns, n), turns, peer);
    }
  }

  lemma {:induction false} NotedByTurn(s: State, turns: seq<Turn>, peer: string)
    requires turns != []
    ensures var n, t := |turns| - 1, AfterTurn(s, turns[|turns| - 1]);
      && (peer in t.discovered <==>
            || ((turns[n].DiscoverTurn? || turns[n].IdentifyTurn?) && turns[n].peer == peer)
            || (peer in s.discovered && !Losing(turns, n, peer)))
      && (peer in t.synced <==>
            Identifying(turns, n, peer) || (peer in s.synced && !Losing(turns, n, peer)))
  {
  }

  // The runtime holds the topic of contexts since its first change or first connection to a peer, and
  // these turns make it hold no other.
  lemma {:induction false} TopicsFollowTurns(s: State, turns: seq<Turn>)
    requires Initial(s)
    ensures AfterTurns(s, turns).topics ==
            if exists i :: 0 <= i < |turns| && Joins(turns[i]) then {"avi-context-updates"} else {}
    decreases |turns|
  {
    if turns != [] {
      var n := |turns| - 1;
      TopicsFollowTurns(s, turns[..n]);
      AfterTurnsSnoc(s, turns);
      if Joins(turns[n]) {
        assert exists i :: 0 <= i < |turns| && Joins(turns[i]);
      } else if i :| 0 <= i < |turns| && Joins(turns[i]) {
        assert Joins(turns[..n][i]);
      }
    }
  }

  predicate Joins(turn: Turn) {
    turn.ContextTurn? || (turn.ConnectTurn? && turn.established == 1)
  }

  // ----- What is told, turn by turn

  // Whether a stream is open, as the stream inputs of the turns say.
  ghost predicate HasOpen(turns: seq<Turn>, id: nat) {
    exists k: nat :: OpenSince(StreamInputs(turns), k, id)
  }

  ghost function StreamNews(turns: seq<Turn>, from: string, m: StreamMessage): seq<Event> {
    match m
    case RequestStream(id, reason) => [Stream(StreamRequested(from, id, reason))]
    case AcceptStream(id) => if HasOpen(turns, id) then [Stream(StreamAccepted(from, id))] else []
    case RejectStream(id, reason) => if HasOpen(turns, id) then [Stream(StreamRejected(from, id, reason))] else []
    case StreamData(id, data) => if HasOpen(turns, id) then [Stream(DataArrived(from, id, data))] else []
    case CloseStream(id) => [Stream(StreamClosed(from, id))]
    case SyncContext(_) => []
  }

  ghost function UpdateNews(before: Context, m: Context, after: Context): seq<Event> {
    if before.data != m.data && Compare(before.clock, m.clock) != Some(Equal)
    then [ContextUpdated(m.deviceId, after.data)]
    else []
  }

  // What turn i makes the runtime tell its user.
  ghost function EventsAt(s: State, turns: seq<Turn>, i: nat): seq<Event>
    requires i < |turns|
  {
    var earlier, before, after := turns[..i], Before(s, turns, i).context, Before(s, turns, i + 1).context;
    match turns[i]
    case ContextTurn(_, _, _) => []
    case StreamTurn(_) => []
    case GossipTurn(m) => UpdateNews(before, m, after)
    case MessageTurn(from, m) =>
      if m.SyncContext? then UpdateNews(before, m.context, after) else StreamNews(earlier, from, m)
    case DiscoverTurn(peer) => if exists k: nat :: KnownSince(earlier, k, peer) then [] else [PeerDiscovered(peer)]
    case IdentifyTurn(peer, _) =>
      if exists k: nat :: KnownSince(earlier, k, peer) then [] else [PeerDiscovered(peer)]
    case ConnectTurn(peer, address, established) => if established == 1 then [PeerConnected(peer, address)] else []
    case DisconnectTurn(peer, remaining, order) =>
      if remaining == 0 then
        seq(|order|, k requires 0 <= k < |order| => Stream(StreamClosed(peer, order[k]))) + [PeerDisconnected(peer)]
      else []
  }

  ghost function EventsIn(s: State, turns: seq<Turn>): seq<Event>
    decreases |turns|
  {
    if turns == [] then [] else EventsIn(s, turns[..|turns| - 1]) + EventsAt(s, turns, |turns| - 1)
  }

  lemma {:induction false} AnnouncedFollowsTurns(s: State, turns: seq<Turn>, from: string, m: StreamMessage)
    requires Initial(s) && !m.SyncContext?
    ensures Announced(MessageEvents(AfterTurns(s, turns).table, from, m)) == StreamNews(turns, from, m)
  {
    TableFollowsTurns(s, turns);
    MessageIsAnnounced(StreamInputs(turns), from, m);
  }

  // Over whole runs the user is told exactly this, in this order.
  lemma {:induction false} EventsFollowTurns(s: State, turns: seq<Turn>)
    requires Initial(s)
    ensures AfterTurns(s, turns).emitted == EventsIn(s, turns)
    decreases |turns|
  {
    if turns != [] {
      var n := |turns| - 1;
      var earlier, turn := turns[..n], turns[n];
      EventsFollowTurns(s, earlier);
      AfterTurnsSnoc(s, turns);
      assert turns[..n + 1] == turns;
      var before := Before(s, turns, n);
      match turn
      case GossipTurn(m) => ReceivedIsTold(before, turn);
      case MessageTurn(from, m) =>
        if m.SyncContext? {
          ReceivedIsTold(before, turn);
        } else {
          AnnouncedFollowsTurns(s, earlier, from, m);
        }
      case DiscoverTurn(peer) => NotesFollowTurns(s, earlier, peer);
      case IdentifyTurn(peer, _) => NotesFollowTurns(s, earlier, peer);
      case _ =>
    }
  }

  // ----- What is sent, turn by turn

  // The packets of a stream command: the next id for an open, else the peer that opened the stream or
  // was asked for it.
  ghost function CommandWords(log: seq<Input>, c: StreamCommand): seq<Packet> {
    if c.Open? then
      if c.wellFormed then [Packet(c.peer, RequestStream(OpensIn(log) + 1, c.reason))] else []
    else if k: nat :| OpenSince(log, k, c.id) then WordsTo(OpenedBy(log, k, c.id).value.peer, c)
    else []
  }

  function WordsTo(peer: string, c: StreamCommand): seq<Packet>
    requires !c.Open?
  {
    match c
    case Accept(id) => [Packet(peer, AcceptStream(id))]
    case Reject(id, reason) => [Packet(peer, RejectStream(id, reason))]
    case Send(id, data) => [Packet(peer, StreamData(id, data))]
    case Close(id) => [Packet(peer, CloseStream(id))]
  }

  // What turn i sends to single peers: stream messages, and the context held to a peer that was not
  // sent one since its last connection was lost.
  ghost function PacketsAt(s: State, turns: seq<Turn>, i: nat): seq<Packet>
    requires i < |turns|
  {
    match turns[i]
    case StreamTurn(c) => CommandWords(StreamInputs(turns[..i]), c)
    case IdentifyTurn(peer, speaks) =>
      if speaks && !exists k: nat :: SyncedSince(turns[..i], k, peer)
      then [Packet(peer, SyncContext(Before(s, turns, i).context))]
      else []
    case _ => []
  }

  ghost function PacketsIn(s: State, turns: seq<Turn>): seq<Packet>
    decreases |turns|
  {
    if turns == [] then [] else PacketsIn(s, turns[..|turns| - 1]) + PacketsAt(s, turns, |turns| - 1)
  }

  lemma {:induction false} CommandsFollowLog(log: seq<Input>, c: StreamCommand)
    ensures CommandPackets(AfterAll(log), c) == CommandWords(log, c)
  {
    if c.Open? {
      OpenIsAnswered(log, c);
    } else {
      forall k: nat | OpenSince(log, k, c.id)
        ensures CommandPackets(AfterAll(log), c) == WordsTo(OpenedBy(log, k, c.id).value.peer, c)
      {
        CommandIsSent(log, k, c);
      }
      if !exists k: nat :: OpenSince(log, k, c.id) {
        UnknownStreamIsRefused(log, c);
      }
    }
  }

  lemma {:induction false} CommandsFollowTurns(s: State, turns: seq<Turn>, c: StreamCommand)
    requires Initial(s)
    ensures CommandPackets(AfterTurns(s, turns).table, c) == CommandWords(StreamInputs(turns), c)
  {
    TableFollowsTurns(s, turns);
    CommandsFollowLog(StreamInputs(turns), c);
  }

  // Over whole runs exactly these messages go to single peers, in this order.
  lemma {:induction false} PacketsFollowTurns(s: State, turns: seq<Turn>)
    requires Initial(s)
    ensures AfterTurns(s, turns).outbox == PacketsIn(s, turns)
    decreases |turns|
  {
    if turns != [] {
      var n := |turns| - 1;
      PacketsFollowTurns(s, turns[..n]);
      AfterTurnsSnoc(s, turns);
      match turns[n]
      case StreamTurn(c) => CommandsFollowTurns(s, turns[..n], c);
      case IdentifyTurn(peer, _) => NotesFollowTurns(s, turns[..n], peer);
      case _ =>
    }
  }

  // The context that the turn leaves, if it is a change that the network took.
  ghost function BroadcastsIn(s: State, turns: seq<Turn>): seq<Context>
    decreases |turns|
  {
    if turns == [] then []
    else
      var n := |turns| - 1;
      BroadcastsIn(s, turns[..n]) +
        if turns[n].ContextTurn? && turns[n].outcome == Published then [AfterTurns(s, turns).context] else []
  }

  // Each change is broadcast once, as it stands then, or not at all.
  lemma {:induction false} BroadcastsFollowTurns(s: State, turns: seq<Turn>)
    requires Initial(s)
    ensures AfterTurns(s, turns).gossip == BroadcastsIn(s, turns)
    decreases |turns|
  {
    if turns != [] {
      BroadcastsFollowTurns(s, turns[..|turns| - 1]);
      AfterTurnsSnoc(s, turns);
    }
  }
}
