# Verified model of the AVI context engine and its streams

The project models the parts of the AVI peer-to-peer framework that carry state, and proves what holds
of them over whole runs:

* **The replicated context.** Every device keeps a context: an id, a timestamp, a vector clock and a JSON
  tree. Local commands patch or replace the tree and advance the device's own counter. Snapshots travel
  by gossip and by direct synchronisation, and the receiver combines them by comparing clocks and, where
  needed, by a recursive merge of the trees.
* **Dotted paths.** Reading, writing and deleting inside the tree, and the device-level operations that
  read the tree, edit a copy and send the copy back.
* **Logical streams.** The stream table of a node, the handshake between nodes, the dispatcher that gives
  each stream a handler, and the UDP bridge that gives small devices numbered streams and topics.

The mesh is a system of steps. A step changes one device's context, sends a snapshot, or delivers any
snapshot ever sent to any device. Messages are never removed, so they may be repeated and reordered, and
a message need not be delivered, so it may be lost. Every local change is an entry of one log, and every
context carries the set of log entries it depends on. Nothing in the clocks mentions that set; the
vector-clock theorem says that the clocks tell exactly how two such sets are related.

## What comes out

* Clock comparison is exactly causal-history inclusion, in every run.
* Merging a message twice in a row is merging it once. A message that is older than the receiver changes
  something exactly when the newer tree does not absorb its tree, which never happens while contexts are
  only patched with trees of one schema.
* The answer of a merge says whether the tree changed, except exactly where the trees differ and the side
  that gives way has nothing new: it is absorbed by a preferred receiver, or contained, leaf for leaf, in
  a receiver that is not preferred.
* After any run, one full exchange of snapshots in any order brings every device to the same clock. The
  key paths are then the same if every path is always an object or always a leaf, and the trees are the
  same if in addition no path is written with different leaves. Losing connections, making them again and
  identifying the peers is always enough to get there, with no further change. Nothing else makes up for
  a broadcast that found no peers: without another change, a runtime sends its whole context again to a
  peer that had one exactly if the last connection to it is lost and it is identified after that.
* The eventual consistency that `README.md:17` of the repository claims holds for the patches of a schema
  exactly if no path is contended, that is, if no leaf that more than one value may be written to stands
  under paths that are always objects. Perfect clocks, with all times different and growing, do not help:
  two devices that patch a contended path can each end with the other's leaf, at equal clocks. Leaves that
  differ once every device knows every change stay different until somebody writes again. A repeated old
  message undoes a deletion at a device that has already heard of it, and no clock moves. A device can
  have its own latest value replaced by its own earlier one.
* "Oldest wins" has an exact meaning for any number of contexts. If the oldest one knows something that
  none of the others knows, it decides a path, in every order of delivery, exactly if it has a non-object
  at the path or above it; what the others have there, and what they know of each other, does not matter.
  If it has none, some surroundings make the order of delivery decide. Against other leaves the oldest
  decides in every order exactly if it knows something that none of the others knows; otherwise it loses
  to the others if they come first. Both failures happen in runs of three devices.
* `update_ctx` is a local merge if nothing happens between its read and its write. Otherwise its stale
  copy is merged over the newer tree: another path keeps its newer value exactly if the copy has nothing
  at it or cutting it off, or the newer value contains all that the copy has there, with the same leaves.
  So keys created in between remain, and leaves changed in between are lost.
* A stream is active at the side that opened it only if the peer it asked announced and accepted the
  request, provided users accept only streams that came in. Roles alone ensure that exactly if no node
  may both open and accept.
* That care does not protect an accepted stream. No message's sender is checked, and every process counts
  its ids from 1, so a node that two peers ask for streams of the same id takes one peer's data,
  rejections and closings for the other's. For what the nodes opened, only peers on record are heard
  exactly if no node has one id with two different peers.
* The bridge never mixes up two devices' streams, because the ids come from one counter. It forgets a
  mesh stream without closing it exactly when a device greets again or restarts the stream's number. A
  topic that some device holds is dropped by the mesh node exactly when another device unsubscribed it
  after the last subscription.
* Everything a runtime, the bridge or the dispatcher tells, sends, asks or answers in a run is what its log
  says, in order. Whoever follows a runtime's events knows its tree: the last update told has the tree
  that is held.
* What is proved of the mesh holds of the event loops: every interleaving of any runtimes' turns is a run
  of the context model, with the same contexts held and sent, and of the handshake model, with the same
  tables and messages. Conversely, every run of the context model in which no device hears itself is one of
  event loops.

## Modules

| file | content |
|---|---|
| `Wrappers.dfy` | options, results, bytes |
| `JsonTrees.dfy` | JSON values, lookup by path |
| `DeepMerge.dfy` | the recursive merge and its algebra |
| `Clocks.dfy` | vector clocks, as values and as the mutable class |
| `Contexts.dfy` | the context class, merging two and many contexts |
| `Conflicts.dfy` | what a merge does to single paths and reports, and exactly when the oldest of many contexts decides one |
| `Paths.dfy`, `PathLaws.dfy` | dotted-path reads, writes and deletes, and their laws |
| `Replication.dfy` | the mesh as a system of steps, causal histories, the vector-clock theorem |
| `Convergence.dfy` | shapes, stale messages, full exchanges, permanence |
| `Limits.dfy` | runs and merges that show where the guarantees stop |
| `Contention.dfy` | exactly which patches make the mesh eventually consistent |
| `Orders.dfy` | the age of a change, and runs of three devices in which the order of delivery decides |
| `Streams.dfy` | the stream table and its log |
| `Handshake.dfy` | the stream handshake between any number of nodes |
| `Senders.dfy` | exactly when a stream hears only the peer on record |
| `Runtime.dfy`, `RuntimeRuns.dfy` | the runtime class, its runs, and how they refine the models above |
| `RuntimeLogs.dfy` | every event, message and broadcast of a runtime's run |
| `Fleet.dfy` | any number of runtimes together as one mesh |
| `FleetStreams.dfy` | their streams as a run of the handshake model |
| `Realization.dfy` | the runs of the mesh as runs of runtimes, and what these can reach |
| `Device.dfy` | path operations of a device on its runtime |
| `Bridge.dfy`, `Gateway.dfy` | the UDP bridge, alone and on the stream ids of its node |
| `Dispatcher.dfy` | the stream dispatcher |

`dafny verify dfyconfig.toml` checks everything.

## Model

| member | source | states |
|---|---|---|
| DeepMerges.MergeInto | p2p/src/protocols/context.rs:171-188 | The key-by-key recursive loop, in whatever order the entries come, computes the merge function |
| DeepMerges.MergeFlip | p2p/src/protocols/context.rs:171-188 | Swapping the operands and the preference gives the same tree |
| DeepMerges.MergeIdempotent | p2p/src/protocols/context.rs:171-188 | Merging a tree with itself changes nothing, so the equality guards before the merges are only a shortcut |
| DeepMerges.AbsorbsIffMergeKeeps | p2p/src/protocols/context.rs:171-188 | A preferred tree is unchanged by a merge exactly when it has every key of the other at every shared object |
| DeepMerges.ContainsIffPatchKeeps | p2p/src/protocols/context.rs:275-277 | A patch changes nothing exactly when the tree has every key of it at every shared object, with the same leaves |
| DeepMerges.MergeAgainKeeps | p2p/src/protocols/context.rs:171-188 | Merging either operand in once more, as the less preferred side, changes nothing |
| DeepMerges.PatchAgainKeeps | p2p/src/protocols/context.rs:275-277 | Re-applying a patch changes nothing |
| DeepMerges.MergeByPath | p2p/src/protocols/context.rs:171-188 | What a merged tree holds at each path: the merge of both sides, the preferred side, or the other side unless a non-object of the preferred side stands above it |
| DeepMerges.PatchByPath | p2p/src/protocols/context.rs:275-277 | The same, path by path, for a merge that prefers the incoming tree |
| DeepMerges.MergeInventsNoLeaf | p2p/src/protocols/context.rs:171-188 | Every non-object of a merged tree stood at the same path in an operand |
| DeepMerges.MergeAssociativeIff | p2p/src/protocols/context.rs:171-188 | The merge of three trees is associative if and only if at no path the outer two are objects, the middle one is not, and the first does not absorb the third |
| DeepMerges.CompatibleIffMergesAgree | p2p/src/protocols/context.rs:171-188 | Both sides preferring themselves end with the same tree exactly when no shared path conflicts |
| DeepMerges.CompatibleMergeIsUnion | p2p/src/protocols/context.rs:171-188 | Merging trees that do not conflict is the union of their objects and leaves |
| Clocks.VectorClock.Increment | p2p/src/protocols/context.rs:15-19 | The in-place increment raises one counter, taking a missing one as zero |
| Clocks.VectorClock.PartialCmp | p2p/src/protocols/context.rs:27-56 | The flag-setting loop over the union of the keys decides the pointwise partial order |
| Clocks.VectorClock.Merge | p2p/src/protocols/context.rs:58-66 | The in-place loop, in any order, reaches the pointwise maximum |
| Clocks.CompareDual | p2p/src/protocols/context.rs:27-56 | Swapping the clocks flips the outcome |
| Clocks.JoinIsLeastUpperBound | p2p/src/protocols/context.rs:58-66 | The merged clock is the least clock above both |
| Contexts.AviContext.constructor | p2p/src/protocols/context.rs:80-97 | A new context has the skeleton tree and an empty clock |
| Contexts.AviContext.ApplyPatch | p2p/src/protocols/context.rs:99-106 | A patch is merged in, preferring the patch, and stamps the time |
| Contexts.AviContext.ReplaceData | p2p/src/protocols/context.rs:108-115 | A replacement is stored as it is and stamps the time |
| Contexts.AviContext.Merge | p2p/src/protocols/context.rs:119-168 | The in-place four-way merge computes the merge function; its answer says that the trees differed and the clocks were not equal, and a negative answer means unchanged data |
| Contexts.MergedClockIsJoin | p2p/src/protocols/context.rs:119-168 | In all four branches the clock ends at the pointwise maximum |
| Contexts.DuplicateDeliveryIsNoOp | p2p/src/protocols/context.rs:119-188 | Merging the same message twice is merging it once, in data, clock and timestamp |
| Contexts.StaleDeliveryIsNoOpIff | p2p/src/protocols/context.rs:135-150 | A message that is not newer changes nothing exactly when the clocks are equal or its tree is absorbed |
| Contexts.ExchangeAlignsClocks | p2p/src/protocols/context.rs:119-168 | After a mutual exchange the clocks are equal |
| Contexts.ExchangeAgreesIff | p2p/src/protocols/context.rs:119-168 | The exact conditions, per clock relation, under which a mutual exchange makes the trees equal, and the timestamps |
| Contexts.OldestWins | p2p/src/protocols/context.rs:151-166 | Between concurrent contexts of different age both sides end, at every path, with the older tree preferred, and with the older timestamp |
| Contexts.OrderIndependence | p2p/src/protocols/context.rs:119-188 | Merging the same set of mutually concurrent, non-conflicting contexts in any order, from any first one, with any repetitions, ends with the same tree and clock |
| Conflicts.ReportIsRightIff | p2p/src/protocols/context.rs:118-168 | The answer of a merge is whether the tree changed, except exactly if the trees differ, the message is not newer, and it is absorbed by a preferred receiver or contained in one that is not preferred |
| Conflicts.PathAppearsIff | p2p/src/protocols/context.rs:119-188 | Exactly when a merge brings in a path that was missing, as a deleted key is |
| Conflicts.PathDisappearsIff | p2p/src/protocols/context.rs:119-188 | Exactly when a merge loses a path |
| Conflicts.LeafOverwrittenIff | p2p/src/protocols/context.rs:119-188 | Between different leaves the message's wins exactly if it is newer, or concurrent with a lower timestamp |
| Conflicts.OldestOfAllWins | p2p/src/protocols/context.rs:151-166 | Of any number of contexts the oldest, if it knows something the others do not, decides every path at or above which it has a non-object, whatever the others have there and know of each other, in any order and with any repetitions |
| Conflicts.OldestDecidesIff | p2p/src/protocols/context.rs:135-166 | Against other leaves at a path the oldest of any number of contexts decides the path in every order exactly if it knows something that none of the others knows |
| Conflicts.OrderIrrelevantIff | p2p/src/protocols/context.rs:151-166 | The order of delivery is irrelevant for a path, in all surroundings of which a context is the oldest and to which it is news, exactly if it has a non-object at the path or above it, or knows of no change at all |
| Conflicts.OrderMatters | p2p/src/protocols/context.rs:151-166 | For three mutually concurrent contexts of different ages, of which the oldest lacks the path, the order of delivery decides a conflict |
| Conflicts.CoveredOldestLoses | p2p/src/protocols/context.rs:135-149 | The oldest of three mutually concurrent contexts loses its leaf where the other two together know all it knows and are merged first |
| Orders.AgeOfLastChange | p2p/src/protocols/context.rs:99-115 | In every run, after a patch or a replacement and until it changes or hears something again, a device's context is as old as that change, and a replacement is all that it holds |
| Orders.AgeBeforeAnyChange | p2p/src/protocols/context.rs:80-97 | Until its first change or message a device's context is as old as the device, knows of no change and holds no leaf |
| Orders.ChangeMeetsLeafIff | p2p/src/protocols/context.rs:99-166 | When a patch or replacement meets a concurrent context with another leaf at a path, the other leaf wins, at either end, exactly if that context is older than the change, ties going to the side that holds its leaf |
| Paths.SplitRoundTrip | p2p/src/protocols/context.rs:195-197 | Splitting a dotted path loses nothing, and only the empty path yields the lone empty key |
| Paths.GetCtx | p2p/src/node.rs:328-346 | The stepping loop finds what the path resolves to, or names the first missing key |
| Paths.SetNestedValue | p2p/src/protocols/context.rs:190-239 | The cursor walk that creates objects as it goes stores the value or fails with the place unchanged and the right error; the error after the loop is unreachable |
| Paths.DeleteNestedValue | p2p/src/protocols/context.rs:241-273 | The cursor walk removes the key or fails with the place unchanged and the right error |
| PathLaws.SetFailsIff | p2p/src/protocols/context.rs:190-239 | A write fails if and only if the root is an object and a proper non-empty prefix of the path holds a non-object |
| PathLaws.DeleteKeysFailsIff | p2p/src/protocols/context.rs:241-273 | A delete fails if and only if the parent of the last key is not an object in the tree |
| PathLaws.ReadFailsAt | p2p/src/node.rs:328-346 | A failing read names the first key that is not there |
| PathLaws.WriteFailsAt | p2p/src/protocols/context.rs:190-239 | A failing write meets a non-object on the way, and names the key it was to go on with, or the parent if that was the last |
| PathLaws.DeleteFailsAt | p2p/src/protocols/context.rs:241-273 | A failing delete finds a parent that is no object, or names the first key before the last that is not there |
| PathLaws.LookupAfterSet | p2p/src/protocols/context.rs:190-239 | After a write every path is accounted for: below it the value, above it objects, elsewhere unchanged |
| PathLaws.SetThenGet | p2p/src/node.rs:328-346 | A written value is read back, and every unrelated path is unchanged |
| PathLaws.LookupAfterDelete | p2p/src/protocols/context.rs:241-273 | After a delete every path is accounted for |
| PathLaws.DeleteThenGet | p2p/src/node.rs:297-313 | After a successful delete of a path other than the root the path is gone and unrelated paths are unchanged |
| PathLaws.DeleteRoot | p2p/src/protocols/context.rs:241-249 | Deleting the root always succeeds and leaves an object with nothing below it |
| PathLaws.WritesCommute | p2p/src/protocols/context.rs:190-239 | Writes at unrelated non-empty paths commute, and fail together, whatever the root is |
| PathLaws.SetThenDeleteRestores | p2p/src/protocols/context.rs:190-273 | Writing an absent key under an existing parent and deleting it restores the tree |
| PathLaws.DeleteThenSetRestores | p2p/src/protocols/context.rs:190-273 | Deleting a key and writing the old value back restores the tree |
| PathLaws.MergingAnEditIsLocal | src/device.rs:324-334 | Merging a tree with its own edited copy is a write of the merged value at that path and nothing else |
| PathLaws.StaleCopyOutcome | src/device.rs:324-334 | If the tree moved on since the copy was read, what every path unrelated to the write then holds |
| PathLaws.StaleCopyKeepsIff | src/device.rs:324-334 | Such a path keeps its current value exactly if neither tree has it, or only the current one has it and no non-object of the copy stands above it, or the current value contains the copy's, leaf for leaf |
| Replication.VectorClockTheorem | p2p/src/protocols/context.rs:21-56 | In every run the comparison of any two contexts' clocks is Less, Equal, Greater or None exactly as their causal histories are strictly contained, equal, strictly containing or incomparable |
| Replication.OwnCounterCountsCommands | p2p/src/runtime.rs:258-316 | A node's own counter is the number of its update and replace commands, and no context anywhere is ahead of it |
| Replication.NoInventedValues | p2p/src/runtime.rs:258-316 | In every run, with replacements and deletions, each leaf at a path was written at that path by a change in the context's history |
| Convergence.ShapeConvergence | p2p/src/protocols/context.rs:119-188 | In every run of patches of one schema a context's key paths are exactly the skeleton's and those of the patches in its history |
| Convergence.EqualClocksAgree | p2p/src/protocols/context.rs:119-188 | In those runs equal clocks mean equal key paths, and equal leaves where only one leaf is ever written |
| Convergence.EqualClocksSameTree | p2p/src/protocols/context.rs:119-188 | If no path is contended, equal clocks mean equal trees |
| Convergence.NoKeyIsLost | p2p/src/protocols/context.rs:123-134 | In those runs no node ever loses a key, although a newer context overwrites the whole tree |
| Convergence.StaleDeliveryIsNoOp | p2p/src/protocols/context.rs:135-150 | In those runs delivering a context at or below the receiver's clock leaves the whole system unchanged |
| Convergence.FullExchangeCompletes | p2p/src/runtime.rs:472-531 | After any run a full exchange in any order brings a node to know every change, with every counter at its final value |
| Convergence.EventualConsistency | p2p/src/protocols/context.rs:119-188 | In runs of patches of one schema a full exchange leaves all nodes with equal clocks and key paths, whatever leaves are written |
| Contention.EventualConsistencyIff | README.md:17 | For the patches of a schema every run ends, after every full exchange, with equal trees at all nodes if and only if the schema has no contended path; and the same of all runs in which times differ and grow |
| Convergence.SettledLeavesStay | p2p/src/protocols/context.rs:119-168 | Once every node knows every change, no message changes any leaf |
| Limits.MergeNotAssociative | p2p/src/protocols/context.rs:182-186 | Three trees on which the merge is not associative |
| Limits.UpdateReportedWithoutChange | p2p/src/protocols/context.rs:143-145 | A merge of an older message that reports an update and changes nothing |
| Limits.ConcurrentUpdateWithoutChange | p2p/src/protocols/context.rs:151-166 | A merge of a concurrent, preferred message that reports an update and changes no data |
| Limits.EqualAgesNeverSettle | p2p/src/protocols/context.rs:153 | Two nodes that write one key in the same second reach equal clocks and, whatever messages follow, never the same value |
| Limits.RepeatedMessageUndoesDeletion | p2p/src/protocols/context.rs:135-149 | A repeated message brings a deleted key back at a node that had heard of the deletion, with no conflict and equal clocks |
| Limits.OwnUpdateReverted | p2p/src/protocols/context.rs:151-166 | A node that alone writes a key ends with its own earlier value |
| Orders.OrderDecidesRun | p2p/src/protocols/context.rs:151-166 | A run of three devices that each patch once, after which the order of two deliveries decides what one of them holds |
| Orders.RelayedValueRun | p2p/src/protocols/context.rs:135-166 | A run in which a relayed old value replaces its writer's newer one, or does not, depending on whether another device's newer context was heard before |
| Streams.TableEqualsLog | p2p/src/runtime.rs:143-244 | The stream table holds exactly the ids opened and not ended since, each with the peer, reason and direction of its opening and the status of its last signal |
| Streams.OpenedIdsAreFresh | p2p/src/protocols/stream.rs:9-13 | No two opens of one node get the same id |
| Streams.AnnouncedOnlyWhileOpen | p2p/src/runtime.rs:551-586 | Acceptance, rejection and data are announced only for ids open at that moment |
| Streams.UnknownStreamIsRefused | p2p/src/runtime.rs:172-244 | A command on a stream that is not open, as the log tells, is refused and does nothing |
| Streams.OpenIsAnswered | p2p/src/runtime.rs:143-171 | An open is answered with the next id of the log, asks the peer for a stream under that id, and opens it; one to a malformed peer id is refused and sends nothing |
| Streams.CommandIsSent | p2p/src/runtime.rs:172-244 | A command on a stream that the log has open sends one message of its own kind, with its reason or data, to the peer of the stream's opening |
| Streams.MessageIsAnnounced | p2p/src/runtime.rs:517-599 | Every message is announced as what it is, with its reason or data, a request or closing always, the rest exactly if the log has the stream open |
| Handshake.ActiveMeansAccepted | p2p/src/runtime.rs:172-189 | In every run in which users accept only incoming streams, an opened stream is active only if the peer asked has announced and accepted the request |
| Handshake.AcceptanceComesFromThePeerAsked | p2p/src/runtime.rs:551-562 | Then acceptance of an opened stream is announced only on the word of the peer asked |
| Handshake.AcceptAfterAnnounce | p2p/src/runtime.rs:532-550 | Then a stream is accepted only after its request was announced |
| Handshake.OneSidedHandshake | p2p/src/runtime.rs:143-189 | If the nodes that open streams accept none, the handshake is safe without further care |
| Handshake.SafeRolesIff | p2p/src/runtime.rs:143-189 | With two or more openers, who may open and who may accept makes every run's handshakes safe exactly if no node may do both |
| Handshake.AcceptingAnOwnStream | p2p/src/protocols/stream.rs:9-13 | A run in which accepting an own stream activates another node's stream that was never announced |
| Handshake.CloseReachesPeer | p2p/src/runtime.rs:228-244 | A stream that is hung up is gone here, and, whatever happens meanwhile, gone at the peer when the message arrives, whose user is told of a closing |
| Handshake.RejectionReachesPeer | p2p/src/runtime.rs:190-208 | The same for a rejection, which is told with its reason exactly if the peer still has the stream |
| Handshake.DataReachesPeer | p2p/src/runtime.rs:209-227 | Data leaves both tables alone and is told, as it was sent, exactly if the peer has the stream |
| Handshake.AcceptanceReachesPeer | p2p/src/runtime.rs:172-189 | An acceptance makes the stream accepted here and active at the peer, if it has it, whose user is then told |
| Senders.OnlyThePeerIsHeard | p2p/src/runtime.rs:551-597 | In every run in which no node has one id with two peers, acceptance, rejection, data and closing of a stream on record are announced only on the word of the peer on record |
| Senders.HeardFromPeerIff | p2p/src/runtime.rs:532-597 | For the streams that were opened, however they are used, only peers on record are heard exactly if no node has one id with two different peers |
| Senders.TwoOpenersOneId | p2p/src/runtime.rs:532-534 | A run, with no node accepting a stream of its own, in which two first streams overwrite each other and one peer's data is announced for the other's stream |
| Runtimes.Runtime.HandleContextCommand | p2p/src/runtime.rs:258-316 | The local change is made and counted, and published once if the network takes it; an error answer does not undo it |
| Runtimes.Runtime.HandleStreamCommand | p2p/src/runtime.rs:143-244 | Table, outgoing messages and answer of every stream command |
| Runtimes.Runtime.HandleStreamMessage | p2p/src/runtime.rs:517-599 | Table, context and announced events for every message of a peer |
| Runtimes.Runtime.HandleGossip | p2p/src/runtime.rs:472-491 | A gossiped context is merged and announced when the merge reports an update |
| Runtimes.Runtime.HandleIdentify | p2p/src/runtime.rs:361-389 | A peer that speaks the stream protocol is sent the whole context if it was not yet |
| Runtimes.Runtime.HandleConnectionEstablished | p2p/src/runtime.rs:391-427 | Only the first connection to a peer counts |
| Runtimes.Runtime.HandleConnectionClosed | p2p/src/runtime.rs:429-466 | Only losing the last connection counts; the removal loop closes that peer's streams in some order |
| RuntimeRuns.FinalDisconnectIsExact | p2p/src/runtime.rs:435-465 | The final disconnect removes exactly the peer's streams and announces the end of each exactly once |
| RuntimeRuns.SyncedOncePerConnection | p2p/src/runtime.rs:376-387 | While a peer's last connection is not lost it is sent the whole context at most once |
| RuntimeRuns.SyncedIsSentAgainIff | p2p/src/runtime.rs:274-276 | Without another command no broadcast goes out, and a peer already sent a whole context is sent one again exactly if its last connection is lost and it is identified after that |
| RuntimeRuns.DiscoveredOncePerConnection | p2p/src/runtime.rs:601-613 | While a peer's last connection is not lost it is announced as discovered at most once, by multicast discovery and identification together, and exactly once if it became known |
| RuntimeRuns.PeersFollowTurns | p2p/src/runtime.rs:391-466 | The connected peers are those whose first connection was made and whose last was not lost since |
| RuntimeRuns.TableFollowsTurns | p2p/src/runtime.rs:67-94 | Over whole runs of the event loop the stream table is the fold of the stream inputs, so the log theorem holds of it |
| RuntimeLogs.EventsFollowTurns | p2p/src/runtime.rs:325-613 | Over every run the user is told exactly the events that the turns say, in their order |
| RuntimeLogs.ReceivedIsTold | p2p/src/runtime.rs:472-531 | A received context is told with the device it came from and the tree held after it, exactly if the trees differed and the clocks were not equal |
| RuntimeLogs.UpdatesTellTheTree | p2p/src/runtime.rs:472-531 | While there is no local change, the last update told carries the tree that is held, and without any the tree never changed |
| RuntimeLogs.PacketsFollowTurns | p2p/src/runtime.rs:143-389 | Over every run exactly the messages that the turns say go to single peers, in their order |
| RuntimeLogs.BroadcastsFollowTurns | p2p/src/runtime.rs:258-316 | Over every run each change that the network takes is broadcast once, as the context stands then, and nothing else is |
| RuntimeLogs.NotesFollowTurns | p2p/src/runtime.rs:361-466 | A peer counts as discovered, and as sent the whole context, exactly if it was since its last connection was lost |
| RuntimeLogs.TopicsFollowTurns | p2p/src/runtime.rs:258-427 | The context topic is joined exactly by the first change or first connection, and never left |
| RuntimeRuns.TurnIsMeshStep | p2p/src/runtime.rs:258-316 | Every turn of the event loop changes the context as a step of the replicated system does, or not at all, and sends out only the current context |
| Fleets.FleetRunIsMirrored | p2p/src/runtime.rs:67-94 | Any interleaving of the event loops of any runtimes is a run of the replicated system in which the same contexts are held and exactly the same were sent |
| Fleets.RuntimesCountTheirCommands | p2p/src/runtime.rs:258-316 | A runtime's own counter is the number of its context commands, and no context any runtime holds or sent is ahead of it |
| Realization.MeshRunIsTaken | p2p/src/runtime.rs:361-491 | Every run of the replicated system in which no device hears itself is a run of event loops holding the same contexts; sending and delivering takes no more than reconnecting and identifying |
| Realization.EveryFleetCanComplete | p2p/src/runtime.rs:376-389 | After any run of any runtimes, lost and renewed connections, identifications and the contexts sent on them can bring all runtimes to equal clocks that count every command |
| Realization.RuntimesAgreeIff | README.md:17 | Runtimes told only to patch within a schema hold and send equal trees at equal clocks, in all runs, if and only if the schema has no contended path |
| FleetStreams.FleetRunFollows | p2p/src/runtime.rs:143-244 | Any interleaving of the event loops of any runtimes is a run of the handshake model with the same stream tables and messages |
| FleetStreams.RuntimesHandshake | p2p/src/runtime.rs:172-189 | Where users accept only incoming streams, a stream is active at its opener's runtime only if the peer's runtime announced the request and sent the acceptance |
| FleetStreams.RuntimesHearPeers | p2p/src/runtime.rs:551-597 | Where no runtime shares one stream id with two peers, every message about a stream on record comes from the peer on record |
| Devices.Device.Get | p2p/src/node.rs:315-346 | Reads resolve the path in the local context |
| Devices.Device.Has | p2p/src/node.rs:308-313 | Presence is resolvability of the path |
| Devices.Device.Update | src/device.rs:324-334 | An update that fails changes nothing; one that succeeds writes, at that path only, the old value with the new one merged over it |
| Devices.Device.Replace | src/device.rs:336-346 | A replacement stores exactly the value at the path |
| Devices.Device.Delete | p2p/src/node.rs:297-301 | A failed delete changes nothing; after a successful one the path is gone |
| Devices.Device.Clear | p2p/src/node.rs:303-306 | The tree becomes an empty object |
| Devices.UpdateFrame | src/device.rs:324-334 | After an update the path reads back as the merged value and unrelated paths are unchanged |
| Devices.InterleavedUpdatesKeepFirstIff | src/device.rs:324-334 | Of two updates at unrelated paths that read before either wrote, the first survives exactly if its path was absent or its value conflicts with nothing that was there |
| Bridge.EmbeddedBridge.HandleUplinkPacket | p2p/src/bridge.rs:88-205 | Sessions, mesh calls and replies for every packet of a device |
| Bridge.EmbeddedBridge.HandleDownlinkEvent | p2p/src/bridge.rs:293-316 | A mesh message goes exactly once to each session that holds its topic |
| Bridge.SlotsFollowLog | p2p/src/bridge.rs:97-205 | A slot holds a mesh stream exactly when the packets since the last greeting say so |
| Bridge.CallsFollowLog | p2p/src/bridge.rs:88-205 | Over every run the mesh node is asked exactly for what the packets of greeted devices say, in their order, with data and stops on the stream that the log has in the slot |
| Bridge.RepliesFollowLog | p2p/src/bridge.rs:97-152 | Over every run the devices are sent exactly the welcomes and acknowledgements that the log says |
| Bridge.SessionIsOfLastGreeting | p2p/src/bridge.rs:97-106 | The session of an address is that of the device that greeted from it last |
| Gateway.SlotsAreIsolated | p2p/src/bridge.rs:160-186 | In every run of the bridge on its node's id counter, whatever else uses the node, a mesh stream is in at most one slot of one session |
| Bridge.CallsStayInTheirSlot | p2p/src/bridge.rs:188-205 | Data and stops reach only a stream granted to the same device under the same number |
| Bridge.DroppedSilentlyIff | p2p/src/bridge.rs:97-205 | A packet makes the bridge drop a held stream without a close call exactly if it comes from the stream's device and is a greeting or a granted restart of the number |
| Gateway.ForgottenIff | p2p/src/bridge.rs:97-205 | Over whole runs a granted stream ends up held by nobody and never closed exactly if the first packet that cleared its slot was a greeting or a restart |
| Gateway.DataGoesToTarget | p2p/src/bridge.rs:188-194 | In every run, what a device sends on a slot makes its node send that, and nothing else, to the peer the device named, as long as no peer opened a stream under the same id |
| Gateway.StopClosesAtTarget | p2p/src/bridge.rs:196-205 | Stopping such a slot empties it, closes the stream at the node and sends that peer the closing |
| Bridge.SubscriptionsFollowLog | p2p/src/bridge.rs:117-152 | A device holds a topic exactly when its packets since its last greeting say so |
| Bridge.MeshTopicsFollowLog | p2p/src/bridge.rs:117-152 | The topics that the mesh node holds by the bridge's calls and its answers to them are those of which the last joining or leaving packet was a joining one |
| Bridge.HeldTopicUnbackedIff | p2p/src/bridge.rs:135-152 | A topic that a device holds is not held by the mesh node exactly if another device made the node leave it after the last packet that made it join |
| Dispatcher.StreamDispatcher.RegisterHandler | src/stream.rs:53-59 | A factory is registered under its reason |
| Dispatcher.StreamDispatcher.HandleStreamRequested | src/stream.rs:61-103 | A known reason is accepted, served by a new instance and told so; an unknown one is refused as not handled |
| Dispatcher.StreamDispatcher.HandleStreamAccepted | src/stream.rs:105-125 | The instance in service is told, and the peer on record updated |
| Dispatcher.StreamDispatcher.HandleStreamRejected | src/stream.rs:127-141 | The instance in service is removed and told |
| Dispatcher.StreamDispatcher.HandleStreamData | src/stream.rs:143-162 | The instance in service gets the data under the peer on record |
| Dispatcher.StreamDispatcher.HandleStreamClosed | src/stream.rs:164-178 | The instance in service is removed and told, under the peer on record |
| Dispatcher.StreamDispatcher.RequestStream | src/stream.rs:180-202 | A known reason is asked of the runtime, and gets a new instance if it is granted |
| Dispatcher.StreamDispatcher.CloseLocally | src/stream.rs:204-209 | A local close is passed on and leaves the instance in service |
| Dispatcher.AtMostOneEnd | src/stream.rs:127-178 | Over every run an instance is told of at most one end, and of nothing after it |
| Dispatcher.InboundHearsAcceptedFirst | src/stream.rs:69-89 | An instance made for an incoming request hears of the acceptance before anything else |
| Dispatcher.HandlersFollowLog | src/stream.rs:61-202 | The instance in service is the one created by the last event that installed one, with the peer of the last acceptance |
| Dispatcher.EventsGoToLatestHandler | src/stream.rs:105-178 | Acceptance, rejection, data and closing are told once to the instance most recently installed for the stream, with the right peer, and to nobody if none is in service; only an end takes it out of service |
| Dispatcher.CallsFollowLog | src/stream.rs:61-209 | Over every run each request is answered exactly once, by acceptance exactly if its reason was registered before, and nothing else is asked of the runtime but the user's own requests and closings |
| Dispatcher.CallbacksFollowLog | src/stream.rs:61-202 | Over every run the handlers are told exactly this, in order: the acceptance of each request that creates one, what an instance in service is due of each event of its stream, and nothing else |
| Dispatcher.OutboundHearsItsStreamFirst | src/stream.rs:180-202 | An instance made for an own request is told nothing before the first event of its stream, and serves no other |
| Dispatcher.AnswersFollowLog | src/stream.rs:61-209 | Each call reports success exactly if an instance is in service, or the reason was registered and the runtime agreed |

## Where code and documentation differ

* `README.md:17` and `p2p/README.md:16` promise eventual consistency by "oldest wins" and call the context
  a CRDT. The code is followed; `Contention`, `Convergence` and `Conflicts` state exactly what holds, and
  `Limits` and `Orders` show what does not.
* The comment at `p2p/src/node.rs:315` says that the context of a given peer can be read. The code
  answers with the local context whichever peer is named (`p2p/src/runtime.rs:318-324`), and so does the
  model.
* The comment at `p2p/src/protocols/context.rs:118` says that a merge returns true if the context was
  updated. It returns whether the trees differed in a branch that may change them;
  `Conflicts.ReportIsRightIff` says exactly when that is the same.
* The message at `p2p/src/runtime.rs:275` calls a broadcast that found no peers postponed. Nothing sends it
  later, as `RuntimeRuns.SyncedIsSentAgainIff` says.

## Left out

- Clocks.VectorClock.Increment: does not model 64-bit overflow; counters are unbounded.
- Streams.OpenedIdsAreFresh: does not model 64-bit overflow of the id counter, nor several runtimes sharing the counter of one process.
- DeepMerges.MergeInto: works on immutable trees and returns the merged one, where the program merges through a mutable reference; the order of entries stays arbitrary.
- Paths.SetNestedValue: the mutable reference into the tree is a cursor path into a mutable place, with the same sequence of insertions; memory sharing is not modelled.
- Bridge.MeshTopicsFollowLog: counts the bridge's own subscriptions only; other users of the same mesh node may hold a topic too.
- Convergence.EveryRunCanComplete: a device of the mesh may send at any moment, where the program sends a snapshot after a local change and when it identifies a peer it has not synchronised with since their last disconnect; Realization.EveryFleetCanComplete states the same of the program's own turns.
- System time: every timestamp is an arbitrary argument.
- The network library: publishing succeeds or fails as an argument says, peer ids are well formed or not as an argument says, connection events come in any order and at either end alone, dialling, discovery and address book are not modelled.
- Encoding: contexts and messages are values; the JSON and length-prefix codecs and the parsing of gossip are not modelled.
- Channels, locks and tasks: the runtime, the dispatcher and the bridge take their events one after another; closed channels are not modelled.
- Numbers and text inside JSON are compared as written.
- Publish and subscribe commands of the runtime, its list of connected peers and its shutdown.
- Button and sensor packets of the bridge, which leave the sessions alone.
- Capabilities, queries, application callbacks, the embedded client and its C interface.
