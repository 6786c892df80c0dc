// The runtime of one node: the event loop's state, changed by commands and network events.
module Runtimes {
  import opened Wrappers
  import opened JsonTrees
  import opened Contexts
  import opened Streams

  const CONTEXT_TOPIC := "avi-context-updates"

  // What the network library answers when a snapshot is published.
  datatype PublishOutcome = Published | InsufficientPeers | Failed

  datatype ContextCommand =
    | UpdateSelfContext(patch: Json)
    | ReplaceSelfContext(data: Json)

  datatype CommandResult = Succeeded | NetworkError

  datatype Event =
    | ContextUpdated(origin: string, data: Json)
    | Stream(event: StreamEvent)
    | PeerDiscovered(peer: string)
    | PeerConnected(peer: string, address: string)
    | PeerDisconnected(peer: string)

  // Everything the loop keeps, and everything it has sent out so far.
  datatype State = State(
    context: Context,
    table: Table,
    topics: set<string>,
    peers: set<string>,
    discovered: set<string>,
    synced: set<string>,
    outbox: seq<Packet>,
    gossip: seq<Context>,
    emitted: seq<Event>)

  // ----- Context commands

  function ChangedContext(c: Context, command: ContextCommand, now: nat): Context {
    match command
    case UpdateSelfContext(patch) => Ticked(Patched(c, patch, now))
    case ReplaceSelfContext(data) => Ticked(Replaced(c, data, now))
  }

  // The local change is made and counted whatever becomes of its publication.
  function AfterContextCommand(s: State, command: ContextCommand, now: nat, outcome: PublishOutcome): State {
    var context := ChangedContext(s.context, command, now);
    s.(context := context,
       topics := s.topics + {CONTEXT_TOPIC},
       gossip := if outcome == Published then s.gossip + [context] else s.gossip)
  }

  // ----- Network events

  ghost function AfterContext(s: State, incoming: Context): State {
    s.(context := Merged(s.context, incoming),
       emitted := s.emitted + ContextEvents(s.context, incoming))
  }

  // The user is told whenever the trees differed and the clocks were not equal.
  ghost function ContextEvents(c: Context, incoming: Context): seq<Event> {
    if Reported(c, incoming)
    then [ContextUpdated(incoming.deviceId, Merged(c, incoming).data)]
    else []
  }

  function Announced(events: seq<StreamEvent>): seq<Event> {
    seq(|events|, i requires 0 <= i < |events| => Stream(events[i]))
  }

  ghost function AfterPeerMessage(s: State, from: string, m: StreamMessage): State {
    if m.SyncContext? then AfterContext(s, m.context)
    else s.(table := AfterMessage(s.table, from, m),
            emitted := s.emitted + Announced(MessageEvents(s.table, from, m)))
  }

  function AfterDiscovery(s: State, peer: string): State {
    if peer in s.discovered then s
    else s.(discovered := s.discovered + {peer}, emitted := s.emitted + [PeerDiscovered(peer)])
  }

  // A peer that speaks the stream protocol gets the whole context, once per stretch of connection.
  function AfterIdentify(s: State, peer: string, speaksStreams: bool): State {
    var t := AfterDiscovery(s, peer);
    if speaksStreams && peer !in s.synced then
      t.(synced := t.synced + {peer}, outbox := t.outbox + [Packet(peer, SyncContext(t.context))])
    else t
  }

  function AfterConnect(s: State, peer: string, address: string, established: nat): State {
    if established == 1 then
      s.(peers := s.peers + {peer}, topics := s.topics + {CONTEXT_TOPIC},
         emitted := s.emitted + [PeerConnected(peer, address)])
    else s
  }

  // ids lists every member of s exactly once.
  ghost predicate Enumerates(ids: seq<nat>, s: set<nat>) {
    && (forall id :: id in ids <==> id in s)
    && (forall i, j :: 0 <= i < j < |ids| ==> ids[i] != ids[j])
  }

  function Closings(peer: string, ids: seq<nat>): seq<Event> {
    seq(|ids|, i requires 0 <= i < |ids| => Stream(StreamClosed(peer, ids[i])))
  }

  // The events of a final disconnect, for the order in which the removal loop met the streams.
  function AfterFinalDisconnect(s: State, peer: string, ids: seq<nat>): State {
    s.(table := AfterDisconnect(s.table, peer),
       peers := s.peers - {peer}, discovered := s.discovered - {peer}, synced := s.synced - {peer},
       emitted := s.emitted + Closings(peer, ids) + [PeerDisconnected(peer)])
  }

  class Runtime {
    const localContext: AviContext
    var streams: map<nat, StreamState>
    var nextStreamId: nat
    var topics: set<string>
    var peers: set<string>
    var discoveredPeers: set<string>
    var syncedPeers: set<string>
    var outbox: seq<Packet>
    var gossip: seq<Context>
    var emitted: seq<Event>

    ghost function View(): State
      reads this, localContext, localContext.vectorClock
    {
      State(localContext.View(), Table(streams, nextStreamId), topics, peers, discoveredPeers, syncedPeers,
            outbox, gossip, emitted)
    }

    constructor (localPeerId: string, now: nat)
      ensures View() == State(Fresh(localPeerId, now), EMPTY_TABLE, {}, {}, {}, {}, [], [], [])
      ensures fresh(localContext) && fresh(localContext.vectorClock)
    {
      var context := new AviContext(localPeerId, now);
      this.localContext := context;
      streams, nextStreamId := map[], 1;
      topics, peers, discoveredPeers, syncedPeers := {}, {}, {}, {};
      outbox, gossip, emitted := [], [], [];
    }

    method HandleContextCommand(command: ContextCommand, now: nat, outcome: PublishOutcome) returns (r: CommandResult)
      modifies this, localContext, localContext.vectorClock
      ensures View() == AfterContextCommand(old(View()), command, now, outcome)
      ensures r == NetworkError <==> outcome == Failed
    {
      match command {
        case UpdateSelfContext(patch) => localContext.ApplyPatch(patch, now);
        case ReplaceSelfContext(data) => localContext.ReplaceData(data, now);
      }
      localContext.vectorClock.Increment(localContext.deviceId);
      var snapshot := localContext.Snapshot();
      topics := topics + {CONTEXT_TOPIC};
      match outcome {
        case Published =>
          gossip := gossip + [snapshot];
          r := Succeeded;
        case InsufficientPeers =>
          r := Succeeded;
        case Failed =>
          r := NetworkError;
      }
    }

    // The tree of the local context, whichever peer was asked about.
    method GetPeerContext(peer: Option<string>) returns (data: Json)
      ensures data == View().context.data
    {
      data := localContext.data;
    }

    method HandleStreamCommand(c: StreamCommand) returns (reply: Reply)
      modifies this
      ensures View() == old(View()).(table := AfterCommand(old(View()).table, c),
                                     outbox := old(outbox) + CommandPackets(old(View()).table, c))
      ensures reply == CommandReply(old(View()).table, c)
    {
      match c {
        case Open(peer, wellFormed, reason) =>
          if !wellFormed {
            return PeerNotFound(peer);
          }
          var id := nextStreamId;
          nextStreamId := nextStreamId + 1;
          streams := streams[id := StreamState(peer, reason, Requested, Outbound)];
          outbox := outbox + [Packet(peer, RequestStream(id, reason))];
          return Opened(id);
        case Accept(id) =>
          if id !in streams {
            return StreamNotFound(id);
          }
          outbox := outbox + [Packet(streams[id].peer, AcceptStream(id))];
          streams := streams[id := streams[id].(status := Accepted)];
        case Reject(id, reason) =>
          if id !in streams {
            assert streams - {id} == streams;
            return StreamNotFound(id);
          }
          outbox := outbox + [Packet(streams[id].peer, RejectStream(id, reason))];
          streams := streams - {id};
        case Send(id, data) =>
          if id !in streams {
            return StreamNotFound(id);
          }
          outbox := outbox + [Packet(streams[id].peer, StreamData(id, data))];
        case Close(id) =>
          if id !in streams {
            assert streams - {id} == streams;
            return StreamNotFound(id);
          }
          outbox := outbox + [Packet(streams[id].peer, CloseStream(id))];
          streams := streams - {id};
      }
      reply := Done;
    }

    method HandleGossip(incoming: Context)
      modifies this, localContext, localContext.vectorClock
      ensures View() == AfterContext(old(View()), incoming)
    {
      var updated := localContext.Merge(incoming);
      if updated {
        emitted := emitted + [ContextUpdated(incoming.deviceId, localContext.data)];
      }
    }

    method HandleStreamMessage(from: string, m: StreamMessage)
      modifies this, localContext, localContext.vectorClock
      ensures View() == AfterPeerMessage(old(View()), from, m)
    {
      match m {
        case SyncContext(incoming) =>
          HandleGossip(incoming);
        case RequestStream(id, reason) =>
          streams := streams[id := StreamState(from, reason, Requested, Inbound)];
          emitted := emitted + [Stream(StreamRequested(from, id, reason))];
        case AcceptStream(id) =>
          if id in streams {
            streams := streams[id := streams[id].(status := Active)];
            emitted := emitted + [Stream(StreamAccepted(from, id))];
          }
        case RejectStream(id, reason) =>
          if id in streams {
            streams := streams - {id};
            emitted := emitted + [Stream(StreamRejected(from, id, reason))];
          } else {
            assert streams - {id} == streams;
          }
        case StreamData(id, data) =>
          if id in streams {
            emitted := emitted + [Stream(DataArrived(from, id, data))];
          }
        case CloseStream(id) =>
          streams := streams - {id};
          emitted := emitted + [Stream(StreamClosed(from, id))];
      }
    }

    method EmitPeerDiscovered(peer: string)
      modifies this
      ensures View() == AfterDiscovery(old(View()), peer)
    {
      if peer in discoveredPeers {
        return;
      }
      discoveredPeers := discoveredPeers + {peer};
      emitted := emitted + [PeerDiscovered(peer)];
    }

    method HandleIdentify(peer: string, speaksStreams: bool)
      modifies this
      ensures View() == AfterIdentify(old(View()), peer, speaksStreams)
    {
      EmitPeerDiscovered(peer);
      if speaksStreams {
        if peer !in syncedPeers {
          syncedPeers := syncedPeers + {peer};
          var snapshot := localContext.Snapshot();
          outbox := outbox + [Packet(peer, SyncContext(snapshot))];
        }
      }
    }

    method HandleConnectionEstablished(peer: string, address: string, established: nat)
      modifies this
      ensures View() == AfterConnect(old(View()), peer, address, established)
    {
      if established == 1 {
        peers := peers + {peer};
        topics := topics + {CONTEXT_TOPIC};
        emitted := emitted + [PeerConnected(peer, address)];
      }
    }

    // The final disconnect collects the peer's streams and removes and announces them one by one.
    method HandleConnectionClosed(peer: string, remaining: nat)
      modifies this
      ensures remaining != 0 ==> View() == old(View())
      ensures remaining == 0 ==>
        exists ids :: Enumerates(ids, StreamsOf(old(View()).table, peer)) &&
          View() == AfterFinalDisconnect(old(View()), peer, ids)
    {
      if remaining == 0 {
        peers := peers - {peer};
        discoveredPeers := discoveredPeers - {peer};
        syncedPeers := syncedPeers - {peer};
        ghost var ids := CloseStreamsOf(peer);
        emitted := emitted + [PeerDisconnected(peer)];
        assert View() == AfterFinalDisconnect(old(View()), peer, ids);
      }
    }

    method CloseStreamsOf(peer: string) returns (ghost ids: seq<nat>)
      modifies this`streams, this`emitted
      ensures Enumerates(ids, StreamsOf(old(View()).table, peer))
      ensures streams == old(streams) - StreamsOf(old(View()).table, peer)
      ensures emitted == old(emitted) + Closings(peer, ids)
    {
      var pending := StreamsOf(Table(streams, nextStreamId), peer);
      ghost var all := pending;
      ids := [];
      while pending != {}
        invariant pending <= all
        invariant Enumerates(ids, all - pending)
        invariant streams == old(streams) - (all - pending)
        invariant emitted == old(emitted) + Closings(peer, ids)
        decreases pending
      {
        var id :| id in pending;
        streams := streams - {id};
        emitted := emitted + [Stream(StreamClosed(peer, id))];
        ClosingsAppend(peer, ids, id);
        ids := ids + [id];
        pending := pending - {id};
      }
      assert all - pending == all;
    }
  }

  lemma ClosingsAppend(peer: string, ids: seq<nat>, id: nat)
    ensures Closings(peer, ids + [id]) == Closings(peer, ids) + [Stream(StreamClosed(peer, id))]
  {
  }
}
