# Splinter's message path, verified

This project models how a Splinter node moves messages, and proves what every run of that machinery keeps:

- **Mesh** (`MeshModel`, `MeshGuarantees`, `MeshAnswers`, `Mesh`): one reactor thread over a pool of connections, with a bounded
  outgoing queue and a one-slot would-block cache per connection and one bounded incoming queue. `MeshModel.Next`
  is one atomic step of the reactor, a client or a consumer; the classes in `Mesh` are proved to take those steps.
  `MeshGuarantees` relates the state to what the steps record, and `MeshAnswers` ties what they record to the sends that
  clients made, the answers that connections gave and the envelopes that consumers took.
- **Peer names** (`BiHashMap`, `PeerMap`, `Network`, `NetworkRuns`): a two-way map and a one-hop redirect table
  against the log of joins, renames and removals, and the interleavings of adding, naming, receiving and dialling.
- **Replies** (`Replies`): the inbound router, and services, network and router as interleaved steps.
- **Transports** (`Framing`, `FramingIo`, `ZmqRouter`, `InprocPair`): length-prefixed framing over partial reads and
  writes, the rendezvous router, and the in-process pair. `EndToEnd` joins two meshes over a transport.
- **Smaller parts** (`Hex`, `KeyRegistry`, `Paging`, `KeyListing`, `Echo`, `Backoff`).

What the environment decides (poll events, what a connection answers, what the clock says, which thread runs) is a
parameter of a step, and the results hold for all its values. Classes mirror the code and are proved to change their
state as the pure step functions say; the results about runs are lemmas about those functions.

## What the results rest on

- The outgoing order of the mesh assumes that a connection answering "would block" has taken nothing. A framed
  connection breaks this exactly when its flush would block (`Framing.WriteAddsTheFrame`), and a receiver then gets
  the messages themselves iff no flush did (`Framing.RoundTrip`).
- A framed stream reads back iff every length fits 32 bits and no would-block tears a four-byte header
  (`Framing.StreamReadsBackIff`); where another result assumes this, it is necessary. A stream's script is finite,
  after which the stream cooperates.
- Correlation ids, which are random UUIDs in the code, are assumed never to repeat.
- Actions under one lock are one step. In `NetworkRuns` three actions are not: adding to the mesh and naming, checking
  an endpoint and dialling, and looking a name up to send and removing it when the mesh reports a disconnect. Their
  parts are separate steps; a removal may come at any time and under any name.
- The dialling results of `NetworkRuns` are about one connector, or connectors that share its transport lock, over
  connections that report the endpoint they were dialled at. Connections may be accepted at any moment.

## Where the code does less than its comments say

- "Both maps should be the same size" (`libsplinter/src/collections/mod.rs:75-78`) does not hold in general:
  `BiHashMaps.SharedValueBreaksHalfInverse` is an example, and `BiHashMaps.PutKeepsSizesIff` and
  `BiHashMaps.DropKeepsSizesIff` say exactly when the sizes stay equal.
- "Both maps will be empty or not" (`libsplinter/src/collections/mod.rs:80-83`) does not hold either:
  `BiHashMaps.SharedKeyLeavesOneMapEmpty` is an example. Insertions keep it (`BiHashMaps.PutKeepsEmptyTogether`), and
  `BiHashMaps.DropKeepsEmptyTogetherIff` says exactly which removals do.
- A peer map lookup goes wrong exactly when a name that is another peer's alias is handed out again
  (`PeerMaps.LookupsStayRightIff`, `PeerMaps.RunLooksUpIff`; `PeerMaps.JoiningUnderAnAliasMisleads` is such a run).
- An endpoint that some peer has is not dialled, but two peers can still come to share one: exactly when a connection
  is admitted whose endpoint another live peer has, which takes an accepted connection
  (`NetworkRuns.RunKeepsEndpointsUniqueIff`, `NetworkRuns.DialsNeverDuplicate`;
  `NetworkRuns.AcceptedBetweenCheckAndDial` is such a run).
- An endpoint that no peer has is dialled, except one that was left behind when its peer's name was given to another
  connection (`NetworkRuns.RunFindsPeersIff`; `NetworkRuns.StrandedEndpointIsNotDialled` is such a run).
- Attribution goes wrong exactly when a name that two connections share is renamed or removed
  (`PeerMaps.AttributionStaysRightIff`, `PeerMaps.RunAttributesIff`; `PeerMaps.SharingALiveNameMisattributes` is such
  a run).
- A failed send removes by the name that was used, and forgets the dead peer exactly if that name stands for it
  (`Networks.DeadPeerIsForgottenIff`). Through an alias it forgets nobody (`Networks.AliasKeepsDeadPeer`), or a live
  peer that joined under the alias (`Networks.NewcomerIsForgottenInstead`).
- A frame of 2^32 bytes or more does not read back, nor does one whose header is torn (`Framing.FrameReadsBackIff`;
  `Framing.TornHeaderLosesTheMessage` is such a script).
- The zmq mailboxes hand out the latest message first (`ZmqRouters.LaterMessageOvertakes`); a run keeps the order iff
  it never hands out one of several different messages that wait (`ZmqRouters.OrderIsKeptIff`), and gives every socket
  a prefix of what was sent iff it hands out what is due (`ZmqRouters.DeliveryIsOrderedIff`).
- A zmq socket that asks to connect again while it waits makes the router panic
  (`ZmqRouters.AskingAgainPanicsIffWaiting`, `ZmqRouters.AskingTwicePanics`).
- A listing is not shown in full with a limit of zero, nor, where overflow is checked, if the end of its last page
  overflows the machine word (`Paging.FollowGathersAllIff`). The latter takes a listing of more than 2^63 items
  (`Paging.OverflowNeedsAHugeListing`); where overflow is not checked the client has everything by then.
- An echo of time-to-live -2^31 is forwarded (`Echoes.EchoDiesOutIff`), up to 2^31 - 1 times
  (`Echoes.LeastLivesLongest`), where overflow is not checked; where it is, the subtraction panics.
- A send that the mesh reports as an I/O error has been accepted all the same (`Mesh.Client.Send`).

## Model

| member | source | states |
|---|---|---|
| MeshGuarantees.EveryRunIsSound | libsplinter/src/mesh/pool.rs:60-362 | every interleaving of clients, consumers, control requests and poll events keeps the token index exact, the queues bounded, blocked payloads watched, and the traffic of every id conserved in both directions |
| MeshGuarantees.OutgoingIsFifo | libsplinter/src/mesh/pool.rs:229-331 | what clients handed over for a live connection is what the connection took, then the cached payload, then the queue; never more than capacity + 1 unsent; even after removal what was taken is a prefix of what was handed over |
| MeshGuarantees.IncomingIsFifo | libsplinter/src/mesh/pool.rs:333-362 | nothing is dropped for a full queue; until a connection fails, what consumers got and what is queued is exactly what it received, in order |
| MeshGuarantees.BlockedIffWatched | libsplinter/src/mesh/pool.rs:276-331 | in every reachable state a payload is cached iff the write guard is set iff the poll watches for writability |
| MeshGuarantees.TokensResolveToOwners | libsplinter/src/mesh/pool.rs:155-161 | in every reachable state a token resolves to an entry iff that entry owns it; ids are not tokens; the control token resolves to nothing |
| MeshGuarantees.IdsAreNeverReissued | libsplinter/src/mesh/pool.rs:163-171 | an id that was issued and is not in the pool never comes back, over any run from any well-formed state |
| MeshGuarantees.TokensAreNeverReissued | libsplinter/src/mesh/pool.rs:163-171 | a token that was issued and resolves to nothing never resolves again, over any run, so a stale event on it changes nothing |
| MeshGuarantees.EventTouchesOneEntry | libsplinter/src/mesh/pool.rs:125-153 | an event leaves every entry that does not own its token unchanged |
| MeshGuarantees.BlockedPayloadGoesFirst | libsplinter/src/mesh/pool.rs:229-275 | while a payload is blocked the queue is left alone, and a writable event tries that payload before anything is read |
| MeshGuarantees.WillingConnectionDrains | libsplinter/src/mesh/pool.rs:229-331 | from any well-formed state, a connection that takes all it is offered is handed every unsent payload, in order, in as many events, whether or not one was blocked |
| MeshGuarantees.AcceptedIsTransmitted | libsplinter/src/mesh/pool.rs:229-331 | after any run, draining a live connection leaves it having taken exactly what clients handed over |
| MeshGuarantees.DisconnectComesLast | libsplinter/src/mesh/pool.rs:254-262 | when an entry fails because its senders are gone, everything accepted for it has been transmitted |
| MeshGuarantees.SendOrCacheKeepsOrder | libsplinter/src/mesh/pool.rs:284-331 | a payload in hand is transmitted, or is back in front of everything unsent with a wake-up registered, or the entry fails |
| MeshGuarantees.CheckedEnqueueNeverDrops | libsplinter/src/mesh/pool.rs:333-362 | however many envelopes consumers take between the fullness check and the enqueue, the full answer cannot come, and what is owed to each id is delivered or queued in order |
| MeshGuarantees.AddKeepsIndex | libsplinter/src/mesh/pool.rs:60-91 | adding, also when a registration fails part-way, keeps the token index and the entries in agreement |
| MeshAnswers.SendOutcomes | libsplinter/src/mesh/pool.rs:284-331 | for every answer of the connection: the error a send fails with, if any, whether the payload was taken, and that a blocked payload is kept with the guard set |
| MeshAnswers.SendSucceedsIff | libsplinter/src/mesh/pool.rs:284-331 | a send succeeds iff the payload was taken or blocked and any change of interest that this needs went through |
| MeshAnswers.ReadOutcomes | libsplinter/src/mesh/pool.rs:333-362 | what the connection gave is queued behind what consumers have not taken, under its id, iff the queue is open; nothing else is queued or recorded |
| MeshAnswers.EventOutcomes | libsplinter/src/mesh/pool.rs:229-362 | every event on an entry does what the call it makes and the answer to that call say: error, traffic, cache, queue and incoming queue |
| MeshAnswers.EvictedIff | libsplinter/src/mesh/pool.rs:125-153 | an event evicts a connection iff its call was answered with a failure, or its senders are gone with nothing left to send |
| MeshAnswers.BlockedConnectionStays | libsplinter/src/mesh/pool.rs:311-326 | a connection that would block stays in the pool, with the payload in hand cached, watched and first in line |
| MeshAnswers.BlockedStateIsReached | libsplinter/src/mesh/pool.rs:284-331 | adding a connection, sending to it and letting it block reaches a blocked state, for every payload and capacity |
| MeshAnswers.TraceIsReal | libsplinter/src/mesh/pool.rs:229-362 | in every run what is recorded for a connection as accepted, taken and received is what clients sent while there was room, what it was offered and took, and what it gave when it was read |
| MeshAnswers.ConsumersAreReal | libsplinter/src/mesh/incoming.rs:22-40 | in every run what is recorded as handed out is what consumers took of the incoming queue, oldest first |
| MeshAnswers.HandedOverIsTakenInOrder | libsplinter/src/mesh/pool.rs:229-331 | in every run what clients handed over for a live connection is what it took, then what is cached, then what is queued |
| MeshAnswers.GivenIsConsumedInOrder | libsplinter/src/mesh/pool.rs:333-362 | in every run what a live connection gave is what consumers took of it, then what is queued for them |
| MeshAnswers.AddOutcomes | libsplinter/src/mesh/pool.rs:60-91 | an add succeeds iff both registrations do, under a new id whose two tokens resolve to it, and leaves the others alone |
| MeshAnswers.RemoveOutcomes | libsplinter/src/mesh/pool.rs:94-111 | a removal forgets the connection and both its tokens, and the others stay reachable by theirs |
| MeshAnswers.DroppedSendersAreNoticed | libsplinter/src/mesh/pool.rs:254-262 | once the senders are dropped and nothing is left to send, the next wake-up of the queue evicts the connection |
| Mesh.Entry.TrySendConnectionOrCache | libsplinter/src/mesh/pool.rs:284-331 | takes the send-or-cache step, including the order of guard, cache and reregistration on failure |
| Mesh.Entry.TryReadOutgoing | libsplinter/src/mesh/pool.rs:254-262 | takes the head of the queue, reports a disconnect only once the queue is empty |
| Mesh.Entry.TrySendConnectionFromCached | libsplinter/src/mesh/pool.rs:276-282 | retries the cached payload |
| Mesh.Entry.TryReadConnection | libsplinter/src/mesh/pool.rs:333-362 | enqueues what was received while consumers run, with the full branch proved unreachable |
| Mesh.Entry.TryEvent | libsplinter/src/mesh/pool.rs:229-275 | serves the queue only when nothing is cached, the cache before reading |
| Mesh.Pool.Add | libsplinter/src/mesh/pool.rs:60-91 | consumes three numbers and indexes the entry only if both registrations succeed |
| Mesh.Pool.Remove | libsplinter/src/mesh/pool.rs:94-111 | forgets the entry and both tokens whether or not deregistration succeeds |
| Mesh.Pool.HandleEvent | libsplinter/src/mesh/pool.rs:125-153 | handles the event on the owning entry and evicts it on error |
| Mesh.Reactor.HandleControlReady | libsplinter/src/mesh/reactor.rs:120-160 | an add or remove request takes just that step, any other takes none; it shuts down only on a closed control channel |
| Mesh.Reactor.HandleEvent | libsplinter/src/mesh/reactor.rs:111-118 | an event on the control token is the control request, any other the pool event, and neither is more than one step |
| Mesh.Reactor.TakeTurn | libsplinter/src/mesh/reactor.rs:96-109 | a turn over any events is the run of their steps up to a shutdown, and a failed poll is a shutdown, so all results about runs apply to the reactor object |
| Mesh.TurnTakesEveryEvent | libsplinter/src/mesh/reactor.rs:96-118 | a turn ends in a shutdown iff the control channel is found closed, and every pool event of a turn without control events is a step, in order |
| Mesh.TurnStopsAtShutdown | libsplinter/src/mesh/reactor.rs:102-106 | what comes after a shutdown in a turn is not looked at |
| Mesh.Client.Add | libsplinter/src/mesh/mod.rs:117-123 | a handle is kept exactly for the id the pool issued |
| Mesh.Client.Remove | libsplinter/src/mesh/mod.rs:126-133 | the handle goes only after the reactor confirmed the removal |
| Mesh.Client.Send | libsplinter/src/mesh/mod.rs:139-223 | unknown iff there is no handle, disconnected iff the entry is gone, full iff its queue is, the latter two with the very envelope; a refused send changes nothing, and otherwise the payload is accepted, also when the wake-up after it fails and the answer is an error |
| Mesh.AnswerReasons | libsplinter/src/mesh/outgoing.rs:33-58 | each answer to a send has exactly one reason |
| BiHashMaps.PutKeepsHalfInverse | libsplinter/src/collections/mod.rs:107-111 | an insertion keeps every key recoverable from its value iff it takes no value away from another key |
| BiHashMaps.PutKeepsInverse | libsplinter/src/collections/mod.rs:107-111 | an insertion keeps the two halves inverse iff it overwrites nothing else in either direction |
| BiHashMaps.PutKeepsSizesIff | libsplinter/src/collections/mod.rs:75-111 | from equal sizes, an insertion keeps them equal iff key and value are both new or both there |
| BiHashMaps.DropKeepsSizesIff | libsplinter/src/collections/mod.rs:75-135 | from equal sizes, a removal from either side keeps them equal iff what it finds there is on the other side too |
| BiHashMaps.PutKeepsEmptyTogether | libsplinter/src/collections/mod.rs:80-111 | after an insertion neither map is empty |
| BiHashMaps.DropKeepsEmptyTogetherIff | libsplinter/src/collections/mod.rs:80-135 | from maps that are empty together, a removal from either side keeps them so iff what it takes is the last of one map just when it is the last of the other |
| BiHashMaps.InverseHalvesMatch | libsplinter/src/collections/mod.rs:75-83 | while the halves are inverse their sizes are equal |
| BiHashMaps.DropKeyKeepsInverses | libsplinter/src/collections/mod.rs:114-123 | removal keeps both properties and returns the removed pair iff the key was there |
| BiHashMaps.DropValueKeepsInverse | libsplinter/src/collections/mod.rs:126-135 | removal by value keeps halves inverse and returns the pair iff the value was there |
| BiHashMaps.DropUndoesPut | libsplinter/src/collections/mod.rs:107-135 | removing by key or by value restores the map before a fresh insertion |
| BiHashMaps.SharedValueBreaksHalfInverse | libsplinter/src/collections/mod.rs:107-123 | two keys inserted with one value: the maps have sizes two and one, and the first key is present but its removal returns nothing |
| BiHashMaps.SharedKeyLeavesOneMapEmpty | libsplinter/src/collections/mod.rs:80-123 | one key inserted with two values and removed: one map is empty and the other is not |
| BiHashMaps.BiHashMap.Insert | libsplinter/src/collections/mod.rs:107-111 | the new two-way map, and the overridden key and value |
| BiHashMaps.BiHashMap.RemoveByKey | libsplinter/src/collections/mod.rs:114-123 | the new two-way map, and the pair found through the reverse half |
| BiHashMaps.BiHashMap.RemoveByValue | libsplinter/src/collections/mod.rs:126-135 | the same from the value's side |
| PeerMaps.EveryRunTracksOwners | libsplinter/src/network/mod.rs:99-141 | with ids that are never reissued and any names at all, live names are those of the log, each recoverable from its connection, and every redirect leads to a live peer |
| PeerMaps.LookupFollowsRenames | libsplinter/src/network/mod.rs:116-149 | one redirect hop gives the connection that following every rename in the log gives |
| PeerMaps.LookupsStayRightIff | libsplinter/src/network/mod.rs:99-149 | after a step all lookups are right iff the step hands out no name that is another peer's alias |
| PeerMaps.RunLooksUpIff | libsplinter/src/network/mod.rs:99-149 | a run looks every name up rightly throughout iff it never hands out a name that is another peer's alias |
| PeerMaps.JoiningUnderAnAliasMisleads | libsplinter/src/network/mod.rs:99-149 | a peer that joins under another peer's former name is looked up as that other peer |
| PeerMaps.RemovalForgetsExactlyThePeer | libsplinter/src/network/mod.rs:104-114 | removing a current name forgets it and all its aliases, and changes no other lookup |
| PeerMaps.RemovingAnAliasChangesNothing | libsplinter/src/network/mod.rs:314-317 | a removal changes the tables iff the name is current |
| PeerMaps.StepKeepsInverseIff | libsplinter/src/network/mod.rs:99-141 | the reverse table survives a step iff the name taken is no other live peer's |
| PeerMaps.EveryRunAttributes | libsplinter/src/network/mod.rs:151-154 | while no name that two connections share is renamed or removed, the name found for every connection is the one the log gives it |
| PeerMaps.AttributionStaysRightIff | libsplinter/src/network/mod.rs:99-154 | after a step every attribution is right iff the step does not rename or remove a name that a second connection carries |
| PeerMaps.RunAttributesIff | libsplinter/src/network/mod.rs:99-154 | a run attributes every connection rightly throughout iff it never takes such a step |
| PeerMaps.FreshNamesNeverSplit | libsplinter/src/network/mod.rs:99-154 | a run in which nobody is given another live peer's name takes no such step |
| PeerMaps.SharingALiveNameMisattributes | libsplinter/src/network/mod.rs:99-154 | two connections may share a name and are attributed rightly; after the name is changed the earlier one is attributed to the old name |
| PeerMaps.PeerMap.Insert | libsplinter/src/network/mod.rs:99-102 | the new tables |
| PeerMaps.PeerMap.GetMeshId | libsplinter/src/network/mod.rs:143-149 | the connection behind the redirect if that leads to a peer, else behind the name |
| PeerMaps.PeerMap.Remove | libsplinter/src/network/mod.rs:105-114 | the new tables and the connection that was named |
| PeerMaps.PeerMap.UpdateOldForwards | libsplinter/src/network/mod.rs:126-133 | the loop retargets exactly the redirects to the old name |
| PeerMaps.PeerMap.Update | libsplinter/src/network/mod.rs:119-141 | the new tables, or the error for a name that is not current |
| Networks.Network.AddPeer | libsplinter/src/network/mod.rs:252-295 | the id the mesh gives was never in the peer map, which is what keeps names recoverable even when they collide |
| Networks.Network.Send | libsplinter/src/network/mod.rs:301-323 | the exact answer: no such peer, or what the mesh answers under the looked-up id; a disconnect removes by the name used, and the mesh changes iff it accepted the payload |
| Networks.SendOutcomes | libsplinter/src/network/mod.rs:301-323 | a send by any name is queued iff the connection looked up is live and has room; the peer map changes only if that connection is gone, so a full queue never costs a peer its name |
| Networks.DeadPeerIsForgottenIff | libsplinter/src/network/mod.rs:301-323 | a send to a dead connection answers that it is disconnected; no name finds that connection afterwards iff the name used stands for it, and every other current name stays |
| Networks.AliasKeepsDeadPeer | libsplinter/src/network/mod.rs:301-323 | a renamed peer that is sent to by its former name after its connection failed stays in the map |
| Networks.NewcomerIsForgottenInstead | libsplinter/src/network/mod.rs:301-323 | a live peer that joined under the former name of a dead one is forgotten in its place, and the dead one stays |
| Networks.Network.Recv | libsplinter/src/network/mod.rs:325-338 | the oldest envelope under the present name of its connection, or the missing-peer error |
| Networks.Network.UpdatePeerId | libsplinter/src/network/mod.rs:297-299 | succeeds iff the old name is current, and keeps the map sound |
| Networks.Network.RemoveConnection | libsplinter/src/network/mod.rs:265-277 | removes the named connection from the map and the mesh; by any other name changes nothing in the mesh |
| Networks.PeerConnector.ConnectPeer | libsplinter/src/network/peer.rs:91-130 | an endpoint that some peer has is never dialled; otherwise the node joins under a fresh connection and the connect request is sent by its name, with the state after every failure |
| NetworkRuns.EveryEnvelopeIsAttributed | libsplinter/src/network/mod.rs:252-356 | in every interleaving in which no name that two connections share is renamed or removed, a receiver attributes an envelope to its connection's current name, and finds no peer iff the peer was removed |
| NetworkRuns.UnlockedReceiverWouldMiss | libsplinter/src/network/mod.rs:256-261 | without the lock from the mesh's add to the naming, some run has an envelope that cannot be attributed |
| NetworkRuns.StepsAreLogged | libsplinter/src/network/mod.rs:252-299 | each step of the attribution machine logs what it did to the peer map and keeps every envelope |
| NetworkRuns.EndpointsStayUnique | libsplinter/src/network/peer.rs:91-166 | in every interleaving of connects, renames and removals, with any names and nothing accepted, no two live peers share an endpoint |
| NetworkRuns.DialsNeverDuplicate | libsplinter/src/network/peer.rs:91-166 | while nothing is accepted, no connection is admitted whose endpoint another live peer has, although the check is not atomic with the add |
| NetworkRuns.StepKeepsEndpointsUniqueIff | libsplinter/src/network/mod.rs:252-295 | a step keeps endpoints unique iff what it admits, dialled or accepted, has an endpoint that no other live peer has |
| NetworkRuns.RunKeepsEndpointsUniqueIff | libsplinter/src/network/mod.rs:252-295 | a run with connections accepted at any moment keeps endpoints unique throughout iff all its steps do |
| NetworkRuns.AcceptedBetweenCheckAndDial | libsplinter/src/network/peer.rs:91-112 | a connection accepted from an endpoint between the check for it and its dialling leaves two peers with it |
| NetworkRuns.RunFindsPeersIff | libsplinter/src/network/mod.rs:167-170 | a run finds a peer at an endpoint exactly if it is live and has it, throughout, iff no step shares an endpoint or gives a live name to another connection |
| NetworkRuns.UnknownEndpointIsDialledIff | libsplinter/src/network/peer.rs:97-104 | in such a run an endpoint is dialled iff no live peer has it |
| NetworkRuns.DisconnectedEndpointIsDialledAgain | libsplinter/src/network/peer.rs:97-104 | in such a run the endpoint of a peer that was disconnected can be dialled again |
| NetworkRuns.StrandedEndpointIsNotDialled | libsplinter/src/network/peer.rs:97-104 | a node that is connected to at a second endpoint leaves the first one behind: nobody has it and it is not dialled |
| NetworkRuns.EndpointsFollowConnections | libsplinter/src/network/peer.rs:91-166 | in every interleaving that keeps endpoints unique, the endpoint kept for a live peer is the one its connection was opened to or accepted from |
| NetworkRuns.EndpointLookupFollowsConnection | libsplinter/src/network/mod.rs:143-165 | in the same runs the endpoint found for any name, aliases included, is that of the connection found for it |
| NetworkRuns.ReconnectingIsIdle | libsplinter/src/network/peer.rs:97-99 | in the same runs connecting to a live peer's endpoint changes nothing |
| Replies.FirstReplyReachesItsWaiter | libsplinter/src/network/reply.rs:47-86 | in every interleaving the first reply to a request goes to its own waiter, which gets that message and no other, unless a receive error had ended the call; later replies are offered to the default channel |
| Replies.WaitersGetAtMostOneMessage | libsplinter/src/service/sender.rs:88-115 | no waiter gets two messages, or one before its request was sent |
| Replies.ReplyLandsOnce | libsplinter/src/network/reply.rs:52-64 | a routed message lands in exactly one channel, or in none with an error when that channel's receiver is gone |
| Replies.BroadcastAddsFailures | libsplinter/src/network/reply.rs:65-75 | a receive error adds only failures to waiting inboxes and forgets nobody |
| Replies.RegisteringTooLateMisses | libsplinter/src/service/registry.rs:76-84 | registered before the reply is routed, the waiter gets it; after, it does not |
| Replies.InboundRouter.Route | libsplinter/src/network/reply.rs:52-64 | the new router state, and an error iff the receiver of the waiter's or the default channel is gone |
| Replies.InboundRouter.RouteError | libsplinter/src/network/reply.rs:65-75 | the loop tells waiters in order up to the first that is gone |
| Replies.InboundRouter.ExpectReply | libsplinter/src/network/reply.rs:79-85 | a new empty inbox under the correlation id |
| Replies.InboundRouter.ProcessIncoming | libsplinter/src/service/processor.rs:327-408 | only the four reply-bearing circuit messages are routed, by their correlation id; it fails iff the message is malformed or could not be routed |
| Replies.FourKindsAreRouted | libsplinter/src/service/processor.rs:327-408 | admin and circuit direct messages and both service responses go to whoever waits under their correlation id, else to the default channel; no other message changes the router |
| Replies.DeliveredReplyIsGot | libsplinter/src/service/registry.rs:76-84 | in every run a message of any of the four kinds that arrives while its call waits is what its waiter gets |
| Replies.CallsEndClosed | libsplinter/src/service/sender.rs:216-228 | a call drops its receiver exactly when its request could not be sent or its waiter got something |
| Replies.MessageFuture.Get | libsplinter/src/network/reply.rs:142-159 | the first result is kept: later calls return the same; a dropped sender, a failure and bytes of another type are errors |
| Replies.SendAndAwait | libsplinter/src/service/sender.rs:200-228 | whatever arrives, the call returns the first reply routed under its correlation id, or an error if that is of another type, unless a receive error came first; it stays blocked while there is neither, and drops its receiver when it ends or the send fails; while no receiver is gone the first of the two decides |
| Replies.AnyReplyEndsTheCall | libsplinter/src/service/sender.rs:222-228 | a call is answered by the first message of any of the four kinds under its id, and blocked iff there is none |
| Framing.RoundTrip | libsplinter/src/transport/rw.rs:28-94 | if nothing breaks the writes, however they are split, interrupted and retried: what was written reads back iff every length fits and no header is torn, and it is the messages themselves iff no flush would have blocked |
| Framing.StreamReadsBackIff | libsplinter/src/transport/rw.rs:28-94 | for every stream and every script, repeated reads return exactly the messages iff every length fits 32 bits and no header is torn by a would-block |
| Framing.StreamReads | libsplinter/src/transport/rw.rs:28-62 | repeated reads of a stream of frames return its messages and leave what follows |
| Framing.CutStream | libsplinter/src/transport/rw.rs:43-61 | a stream cut anywhere yields exactly the whole frames, then disconnected inside a body or an I/O error inside a header |
| Framing.BrokenStreamIsIo | libsplinter/src/transport/rw.rs:43-61 | a stream that breaks inside a body whose bytes are there is an I/O error |
| Framing.HeaderErrorIsIo | libsplinter/src/transport/rw.rs:29-38 | a header that cannot be read is an I/O error |
| Framing.WouldBlockIsHarmlessIff | libsplinter/src/transport/rw.rs:29-38 | each message survives iff no would-block comes between the first and the last byte of its header |
| Framing.TornHeaderLosesTheMessage | libsplinter/src/transport/rw.rs:29-38 | one byte and then a would-block lose every message |
| Framing.FrameReadsBackIff | libsplinter/src/transport/rw.rs:28-94 | under any script a frame reads back as its message iff its length fits 32 bits, its header is not torn and nothing breaks |
| Framing.HeaderIsBigEndian | libsplinter/src/transport/rw.rs:86-94 | a frame is its length in four bytes, most significant first, and then the message |
| Framing.WriteAllWritesInOrder | libsplinter/src/transport/rw.rs:64-84 | the loop leaves exactly the bytes that the stream took, and fails iff a zero or broken write comes before they are used up; interrupts and would-blocks do not fail it |
| Framing.WriteAddsTheFrame | libsplinter/src/transport/rw.rs:64-84 | exactly when the write of a frame succeeds, would block or fails, by the script and the flush alone, and exactly what it leaves on the stream |
| Framing.MessagesGoOutIff | libsplinter/src/transport/rw.rs:64-84 | all messages are written iff every attempt at each goes out |
| Framing.RetryAfterFlushDuplicates | libsplinter/src/transport/rw.rs:82 | retrying after a would-block from the flush puts the frame on the stream twice |
| Framing.RetriesRepeatTheFrame | libsplinter/src/transport/rw.rs:64-84 | a message whose flush would block n times before it succeeds is on the stream n + 1 times |
| FramingIo.Read | libsplinter/src/transport/rw.rs:28-62 | the loops over the buffer compute the reading of one frame |
| FramingIo.ReadExactly | libsplinter/src/transport/rw.rs:30 | fills the buffer or fails, forgetting what was read |
| FramingIo.WriteFrame | libsplinter/src/transport/rw.rs:64-84 | the loop over the shrinking slice computes the writing of one frame |
| ZmqRouters.NoEnabledStepPanics | libsplinter/src/transport/zmq.rs:427-634 | with sockets that each ask once, no interleaving makes an unwrapped pop fail |
| ZmqRouters.AskingAgainPanicsIffWaiting | libsplinter/src/transport/zmq.rs:452-457 | in every reachable state another request panics iff the socket still waits |
| ZmqRouters.AskingTwicePanics | libsplinter/src/transport/zmq.rs:452-457 | the first socket that dials waits, and asking again panics |
| ZmqRouters.PairingIsSymmetric | libsplinter/src/transport/zmq.rs:451-475 | one waiting list is empty; partners know each other, one to one, across the two sides |
| ZmqRouters.MessagesReachThePartner | libsplinter/src/transport/zmq.rs:476-531 | the messages a socket had acknowledged are, as a multiset, those delivered to its partner and those waiting for it |
| ZmqRouters.ReceiveKeepsOrderIff | libsplinter/src/transport/zmq.rs:476-510 | handing out one more message keeps what a socket was given a prefix of what was sent iff the mailbox is empty or its last message equals its first, and keeps all in order iff all that waits is the same |
| ZmqRouters.OrderIsKeptIff | libsplinter/src/transport/zmq.rs:427-634 | a run is in order throughout iff it never hands out one of several different messages that wait |
| ZmqRouters.PromptSocketsGetInOrder | libsplinter/src/transport/zmq.rs:427-634 | in such a run every socket is given, in order, a prefix of what its partner sent, and the rest waits for it |
| ZmqRouters.DeliveryIsOrderedIff | libsplinter/src/transport/zmq.rs:427-634 | a run gives every socket, throughout, a prefix of what its partner sent iff every message it hands out is the next one due; runs that keep the order are among these |
| ZmqRouters.LaterMessageOvertakes | libsplinter/src/transport/zmq.rs:476-534 | of two different messages sent to an empty mailbox the later is handed out first |
| ZmqRouters.TwoDialsPair | libsplinter/src/transport/zmq.rs:451-475 | any two sockets reach a state from which that happens |
| ZmqRouters.ZmqRouter.HandleFront | libsplinter/src/transport/zmq.rs:441-536 | the router's new lists and responses for a front request |
| ZmqRouters.ZmqRouter.HandleBack | libsplinter/src/transport/zmq.rs:539-634 | the same for a back request |
| ZmqRouters.ZmqRouter.HandleMail | libsplinter/src/transport/zmq.rs:476-534 | mailbox pops and pushes with their responses |
| ZmqRouters.RequestsAreAnswered | libsplinter/src/transport/zmq.rs:427-634 | every request for data and every message gets one response, to its sender on its side; a request to connect gets none while it waits and else one for each of the two, the front first; anything else gets none |
| InprocPairs.EveryRunFlows | libsplinter/src/transport/inproc.rs:168-221 | in every interleaving each direction is first in, first out, and a non-empty inbox has its owner's readable bit set |
| InprocPairs.Pair.Send | libsplinter/src/transport/inproc.rs:197-207 | the message goes to the front, the other end becomes readable, this end writable |
| InprocPairs.Pair.Recv | libsplinter/src/transport/inproc.rs:209-220 | the oldest message, and the readable bit says whether there was one |
| InprocPairs.SendAndRecvSignal | libsplinter/src/transport/inproc.rs:197-220 | a message reaches and signals only the other end and leaves this one writable; a reception takes the oldest message, and the readable flag tells whether there was one |
| InprocPairs.Connection.constructor | libsplinter/src/transport/inproc.rs:169-195 | the two ends share the queues and flags crosswise |
| EndToEnd.DeliveredInOrder | libsplinter/src/transport/inproc.rs:126-137 | in every joint run of two meshes and a wire the consumers at one end see a prefix of what the clients at the other end handed over |
| EndToEnd.NothingIsLost | libsplinter/src/mesh/pool.rs:229-362 | while both ends live, what was handed over is what was consumed, then the receiver's queue, the wire, the sender's cache and the sender's queue |
| EndToEnd.FramedInOrder | libsplinter/src/transport/rw.rs:28-94 | over a framed stream of which any part has arrived in any chunks, consumers see each message as often as its flush was tried, in order; a prefix of what was handed over if no flush would have blocked |
| EndToEnd.FramedFailureInOrder | libsplinter/src/transport/rw.rs:64-84 | the same prefix when a last write ends in any way, part-way or in its flush |
| Hex.ParseInvertsPrint | libsplinter/src/hex.rs:21-49 | parsing inverts printing on all bytes |
| Hex.PrintInvertsParseIff | libsplinter/src/hex.rs:21-49 | printing inverts parsing iff the text is an even number of lower-case digits |
| Hex.ParsesIff | libsplinter/src/hex.rs:30-49 | exactly which texts are parsed, digits of either case and a plus sign before a digit included, and which error comes otherwise |
| Hex.ParsingIgnoresCase | libsplinter/src/hex.rs:30-49 | the case of the digits does not matter |
| Hex.PrintKeepsOrder | libsplinter/src/hex.rs:21-28 | the order of the printed strings is the order of the bytes |
| Hex.ToHexLoop | libsplinter/src/hex.rs:21-28 | the loop prints every byte as two digits |
| Hex.ParseHexLoop | libsplinter/src/hex.rs:30-49 | the loop parses pairs, and fails on odd length or invalid digits |
| KeyRegistries.RegistryIsAMap | libsplinter/src/keys/storage.rs:39-93 | any sequence of saves makes lookups return the information saved last under those bytes |
| KeyRegistries.ListingIsOrdered | libsplinter/src/keys/storage.rs:95-160 | the listing has one entry per saved key, as last saved, in byte order, and as many as the count |
| KeyRegistries.DecodesIff | libsplinter/src/keys/storage.rs:78-93 | an entry is good iff its key parses, and then decodes to that key and what was stored with it |
| KeyRegistries.GoodEntriesAreListed | libsplinter/src/keys/storage.rs:129-159 | every good entry of any stored tree is listed in its place |
| KeyRegistries.BadEntriesAreSkipped | libsplinter/src/keys/storage.rs:151-154 | a bad entry is left out of the listing and does not end it |
| KeyRegistries.StorageKeyRegistry.SaveKey | libsplinter/src/keys/storage.rs:39-53 | the key is registered in memory even when storage fails |
| KeyRegistries.StorageKeyRegistry.SaveKeys | libsplinter/src/keys/storage.rs:55-69 | the loop registers all |
| KeyRegistries.StorageKeyRegistry.GetKey | libsplinter/src/keys/storage.rs:78-93 | the decoded entry under the printed key |
| KeyRegistries.KeyRegistryIter.Next | libsplinter/src/keys/storage.rs:129-159 | the next good entry, and the rest of the listing after it |
| Paging.NextAdvancesOnePage | splinterd/src/routes/mod.rs:58-102 | a page is served iff its end does not overflow or that is not checked; below the last page `next` moves one page and `prev` takes it back; on the last page `next` stays, or wraps around to an earlier offset |
| Paging.LinksSayWhatWasAsked | splinterd/src/routes/mod.rs:58-102 | the links of every answered request: its offset and limit or the defaults, the total, the first page, and the last one |
| Paging.DefaultIsTheFirstHundred | splinterd/src/routes/mod.rs:64-96 | without parameters a request is for the first hundred items, whatever the build |
| Paging.WalkVisitsEveryPage | splinterd/src/routes/mod.rs:73-88 | following `next` from the start visits 0, L, 2L up to the last page; there it stays, or if the end overflows is not answered or wraps around |
| Paging.WalkWithoutPages | splinterd/src/routes/mod.rs:58-88 | with nothing to list it stays at the start, and with a limit of zero and something to list it is never answered |
| Paging.FollowGathersAllIff | splinterd/src/routes/keys.rs:160-169 | in both kinds of build the pages a client gathers by following `next` concatenate to the whole listing iff it is empty or the limit is positive and, where that is checked, the end of the last page does not overflow; otherwise they are fewer |
| Paging.OverflowNeedsAHugeListing | splinterd/src/routes/mod.rs:58-88 | for listings of up to 2^63 items a limit of zero is the only one that fails |
| KeyListings.BrowsingShowsEveryKeyOnceIff | splinterd/src/routes/keys.rs:160-182 | browsing shows the whole listing iff the limit can be served, and then every saved key once, as last saved, in byte order; with any other limit it shows fewer keys than were saved |
| Echoes.EchoDiesOutIff | libsplinter/src/network/handlers.rs:26-61 | in every run an echo of time-to-live t is forwarded at most t - 1 times, however nodes are connected, iff t is not -2^31 |
| Echoes.EchoGoesOn | libsplinter/src/network/handlers.rs:35-60 | an echo is sent on iff its lowered time-to-live is positive, back to its source if it was for this node and else to its recipient, unchanged but for its age |
| Echoes.ForwardsAreBounded | libsplinter/src/network/handlers.rs:26-61 | for every t, -2^31 included, it is forwarded at most as often as the lowered 32-bit time-to-live says |
| Echoes.StepSpends | libsplinter/src/network/handlers.rs:45-49 | every arrival with a positive time-to-live lowers the sum of those in flight |
| Echoes.PingPongUsesItAll | libsplinter/src/network/handlers.rs:26-61 | two nodes that answer each other forward an echo as often as the bound allows |
| Echoes.LeastLivesLongest | libsplinter/src/network/handlers.rs:45-49 | an echo of time-to-live -2^31 between two nodes is forwarded 2^31 - 1 times |
| Backoff.EveryRunIsSpreadOut | libsplinter/src/events/ws.rs:543-617 | under a monotone clock the count is the attempts made since the last reset and stays within the limit, the wait is 2^count seconds, and the last attempt is at least 2^count - 1 seconds after the last reset's |
| Backoff.EveryNewContextIsSpreadOut | libsplinter/src/events/ws.rs:521-617 | the same for every run of a newly created context, from its creation on |
| Backoff.AttemptMadeIff | libsplinter/src/events/ws.rs:552-609 | the first poll that ends the waiting loop decides; an attempt is made iff the wait is over by then, it gives up iff reconnecting is off or the limit is reached, and only an attempt or giving up changes the context |
| Backoff.Context.TryReconnect | libsplinter/src/events/ws.rs:552-609 | the new count, time and wait, or a reset, or no change on shutdown |

## Left out

- Sockets, TLS, polling, zmq sockets and signing: foreign; their answers are parameters of the steps.
- Protobuf, YAML, TOML and JSON encodings: messages and records are datatypes.
- Liveness and freedom from deadlock: several paths block on bounded channels while they hold a lock, and the in-process pair takes its two readiness locks in opposite orders.
- The panic of an echo's subtraction where overflow is checked: the model wraps around.
- Wrap-around of the pool's id counter: ids are unbounded.
- The pool's guard against borrowing a connection twice: it cannot happen on one thread.
- Disconnect listeners and heartbeats: they only call out.
- Failed responses of the zmq router to its sockets, which end its thread.
- Malformed or non-ASCII text given to `parse_hex`: slicing can fail there; the model's strings are sequences of characters.
- Floating-point rounding of the reconnect wait: it is a real number.
- Two-phase consensus, authorization, the admin service, circuits, the orchestrator, the REST layer beyond key listing, the daemon, the command line and the web applications.
