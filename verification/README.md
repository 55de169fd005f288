# Message core of a multi-gateway IM server, verified

This project models the message core of the IM server and proves what it guarantees: who owns a user on
the consistent-hash ring, what every cluster step keeps, where an accepted chat message ends up, how often
a retry can be delivered, and that the queues, limiters, generators, codecs and batches around it do what
their documentation promises. Everything is stated for all inputs, all runs and all interleavings.

| file | what it models |
|---|---|
| `Ring.dfy`, `RingHistory.dfy` | the ring, its routing, and exactly what it remembers of its history |
| `Cluster.dfy` | cluster manager, forwarder address map, health marks |
| `Delivery.dfy` | `handleChat`, routing, forwarding, group fan-out and dedup over several gateways |
| `Hub.dfy`, `Registry.dfy`, `Messages.dfy` | clients, the connection registry and its interleavings |
| `OfflineQueue.dfy` | Hub slices, Redis lists, the offline drain with re-enqueue |
| `Dedup.dfy`, `RateLimiter.dfy`, `Snowflake.dfy` | dedup cache, token buckets with cleanup, ID generator |
| `Framing.dfy`, `WireCodec.dfy`, `Decimal.dfy` | length framing, the web client's proto3 codec, decimal numbers |
| `Consumer.dfy` | the batching Kafka consumer |
| `Options.dfy` | optional values |

## Conventions and hypotheses

- CRC32 is an arbitrary function to 32-bit words. Collision freedom is never assumed silently: where a claim
  needs it, it is a hypothesis or the claim is an equivalence (`HistoryIndependenceIffCollisionFree`,
  `LenExactIff`, `StaysOnRingIff`).
- Clock readings, probe results, RPC fates, marshalling, the choice `select` makes between ready cases and
  the order in which Go walks a map are arguments, or reported as results, and are quantified over. So are
  JavaScript's BigInt, the network library's read errors and what its Next(0) returns, and Redis failures.
- A reconcile, a health check and a chat are atomic steps. Register is not: its locked swap and its unlocked
  close are separate steps. The consumer's fetches, saves and commits interleave freely.
- The router looks the ring up once and the forwarder looks it up again. Both answers are arguments; `Lost`
  is the exact condition under which a message then ends up nowhere, and one ring behind both lookups
  excludes it for every user with a non-empty UID.
- Float tokens are reals and times are reals in seconds. Snowflake IDs are integers; `BitsAreSums` shows on
  64-bit vectors that the shifts and ORs are the sums used.
- A closed client's `Send` may still queue a message when its channel has room, because `select` may take
  either ready case; the model follows the code here.

Properties that turned out not to hold as promised, with their exact conditions:

- Two histories with the same live nodes give one ring only if no two nodes share a virtual point.
- `Len()` counts live nodes only if every node has some point no other node hashes to; otherwise a node whose
  points were all taken over is not counted down when it is removed.
- A gateway stays on its own ring only if it is not listed among its own configured peers and has a virtual
  point no other node hashes to.
- When reconciles run between the probes of a health check, the cluster invariant holds throughout exactly if
  every answered probe finds its node still a peer, or is of this node (`InterleavedInvIff`).
- The comment on `GrpcForwarder.AddPeer` says a changed address is dialled at the next forward; the code uses
  it exactly when no connection to another address is cached.
- The cleanup of idle buckets is invisible, and the rate bound holds, only if rate × interval ≥ burst.
- The Redis list keeps to its limit only if the limit is at least 1: trimming to the range (-0, -1) keeps everything.
- A message survives encoding and decoding in the web client only if its decimal fields are canonical, no number
  is negative and its chat and message types are set: a negative number is written as one byte modulo 256.
- If the network library answers Next(0) with everything it has buffered, an empty payload swallows what follows
  it; streams then arrive intact only if nothing follows an empty payload.
- The second Peek of OnTraffic tests the wrong error variable: an error of it other than a short buffer goes
  unnoticed exactly when the frame is complete (`PeekErrorUnnoticedIff`). On an incomplete frame the header is
  discarded, the read behind it fails and the connection is closed.
- A retry is meant to make delivery at-least-once. A single chat that is `Lost` between the two ring lookups is
  marked and acknowledged all the same, and every retry up to TTL later reaches nobody (`LostForWindow`).

## Model

| member | source | states |
|---|---|---|
| `Ring.SortContents` | internal/gateway/hashring.go:52 | sorting the slice keeps every virtual point as often as it was appended |
| `Ring.SortedUnique` | internal/gateway/hashring.go:52 | a sorted slice is determined by its contents, so the unstable sort has one result |
| `Ring.HashesAt` | internal/gateway/hashring.go:47-48 | the i-th point of a node is the checksum of its ID, a colon and i in decimal |
| `Ring.VirtualKeyInjective` | internal/gateway/hashring.go:47 | no two replicas, of one node or of two, hash the same text, whatever the IDs contain |
| `Ring.RemoveKeepsInv` | internal/gateway/hashring.go:63-90 | Remove keeps the ring sorted, ring points = map keys, every point one of its owner's hashes; exactly the node's points leave the map |
| `Ring.AddKeepsInv` | internal/gateway/hashring.go:38-53 | Add keeps the same three facts, collisions included |
| `Ring.AddedNodes` | internal/gateway/hashring.go:38-53 | re-adding an existing node is seen by the owner map as claiming its points and nothing else |
| `Ring.RunKeepsInv` | internal/gateway/hashring.go:38-90 | every ring reachable by any Adds and Removes satisfies the invariant |
| `Ring.OnlyLiveOwn` | internal/gateway/hashring.go:38-90 | after any history only live nodes own points, collisions or not |
| `Ring.NearestExists` | internal/gateway/hashring.go:94-115 | on a non-empty ring every hash has a first point clockwise |
| `Ring.OwnerIs` | internal/gateway/hashring.go:94-115 | that point is unique, so it alone decides the owner |
| `Ring.OwnerByOrder` | internal/gateway/hashring.go:104-114 | the clockwise owner is the owner of the least point at or above the hash, else of the least point |
| `Ring.SearchFindsNearest` | internal/gateway/hashring.go:105-114 | the least point at or above the hash, else the least point of all, is the nearest one clockwise |
| `Ring.RemoveRemapsOnlyItsKeys` | internal/gateway/hashring.go:56-90 | Remove(n) leaves the owner of every key that n did not own, and n owns nothing afterwards, collisions included |
| `Ring.AddRemapsOnlyToIt` | internal/gateway/hashring.go:38-53 | after Add(n), new or repeated, each key's owner is n or unchanged, collisions included |
| `Ring.HashRing.constructor` | internal/gateway/hashring.go:25-34 | an empty ring; a replica count of 0 or less becomes 150 |
| `Ring.HashRing.Add` | internal/gateway/hashring.go:38-53 | computes AddNode and extends the history; the checksums of ID, colon and 0 to replicas - 1 are the node's points afterwards, and every other point is where it was |
| `Ring.HashRing.AppendReplicas` | internal/gateway/hashring.go:46-51 | the loop appends every replica's hash in order and claims each point |
| `Ring.HashRing.Remove` | internal/gateway/hashring.go:56-60 | the state becomes RemoveNode of the old one and the history gains one Remove |
| `Ring.HashRing.RemoveLocked` | internal/gateway/hashring.go:63-90 | collecting, deleting and refiltering in any map order removes exactly the node's points and counts it once, or changes nothing |
| `Ring.HashRing.FilterRing` | internal/gateway/hashring.go:83-89 | the points that still have an owner, in order and with repetitions |
| `Ring.HashRing.Get` | internal/gateway/hashring.go:94-115 | on every reachable ring binary search with wrap-around returns the clockwise owner, a live node; "" on an empty ring and, unless a node has an empty ID, on no other |
| `Ring.HashRing.Len` | internal/gateway/hashring.go:118-122 | the counter of the ring's whole history |
| `RingHistory.RunCanonical` | internal/gateway/hashring.go:38-90 | without collisions the state after any history is spelled out by its live nodes, slice multiplicities and counter included |
| `RingHistory.CanonicalUnique` | internal/gateway/hashring.go:15-21 | two states spelled out by the same live nodes are equal |
| `RingHistory.CollisionFreeSuffices` | internal/gateway/hashring.go:38-90 | two histories ending in the same live nodes give the same ring, map and counter |
| `RingHistory.LastAddWins` | internal/gateway/hashring.go:46-51 | a shared virtual point belongs to whichever node was added last |
| `RingHistory.CollisionBreaks` | internal/gateway/hashring.go:46-51 | one shared point makes two orders of the same Adds route a key differently |
| `RingHistory.HistoryIndependenceIffCollisionFree` | internal/gateway/hashring.go:38-115 | state and routing depend on the live set alone if and only if no two nodes share a virtual point |
| `RingHistory.InjectiveIsCollisionFree` | internal/gateway/hashring.go:46-51 | a checksum without collisions gives no two nodes a common point |
| `RingHistory.RunCounted` | internal/gateway/hashring.go:38-90 | while every node has a point of its own, the counter is the number of live nodes after every history |
| `RingHistory.BuriedNodeBreaksLen` | internal/gateway/hashring.go:71-75 | a node all of whose points are shared can be taken over; its removal is then not counted |
| `RingHistory.LenExactIff` | internal/gateway/hashring.go:118-122 | Len counts live nodes after every history if and only if every node has a point of its own |
| `RingHistory.OwnersAreLive` | internal/gateway/hashring.go:38-90 | the nodes that own points are exactly the live ones |
| `RingHistory.Buried` | internal/gateway/hashring.go:46-51 | a node with no point of its own is off the ring once all others have been added after it, whatever came before |
| `RingHistory.OwnPointKept` | internal/gateway/hashring.go:38-90 | a live node keeps a point that is its alone through every history |
| `RingHistory.SameRingIff` | internal/gateway/hashring.go:38-90 | without collisions two histories give one ring if and only if they leave the same nodes live |
| `RingHistory.SameRoutesIff` | internal/gateway/hashring.go:94-115 | without collisions and empty IDs two histories route every key alike if and only if they leave the same nodes live |
| `Cluster.ReconcileEffect` | internal/gateway/cluster.go:223-248 | in any map order: peers become the registry's other nodes at its addresses; a peer at an unchanged address keeps its mark, every other is healthy; the invariant is kept |
| `Cluster.KeptPeerKeepsMark` | internal/gateway/cluster.go:231-238 | a peer listed at its known address keeps its mark and is live afterwards exactly if it is healthy |
| `Cluster.HealthCheckEffect` | internal/gateway/cluster.go:295-323 | in any map order: healthy peers become exactly those that answered, addresses unchanged, invariant kept |
| `Cluster.ProbeKeepsInvIff` | internal/gateway/cluster.go:303-321 | a probe result keeps the invariant if and only if the node is still a peer, is this node, or did not answer |
| `Cluster.ReachableInv` | internal/gateway/cluster.go:94-323 | through every run: live ring nodes = self plus healthy peers, health keys = address keys, self is no peer |
| `Cluster.InterleavedInvIff` | internal/gateway/cluster.go:223-323 | over every interleaving of reconciles and single probe results the invariant holds in all states if and only if every answered probe finds its node still a peer, or this node |
| `Cluster.ReachableRing` | internal/gateway/cluster.go:375-385 | on every reachable ring the owners are self plus the healthy peers, and HealthyPeers()+1 = Len() |
| `Cluster.ReachableRingCollisionFree` | internal/gateway/cluster.go:375-385 | the same for every reachable state when no two nodes share a point |
| `Cluster.StaysOnRingIff` | internal/gateway/cluster.go:223-248 | this node owns a point of its ring in every state of every run if and only if it is not one of its configured peers and has a point no other node hashes to |
| `Cluster.OwnPeerLeavesRing` | internal/gateway/cluster.go:241-247 | a node listed as its own peer is off its ring after a snapshot without it |
| `Cluster.SharedPointsLeaveRing` | internal/gateway/cluster.go:226-239 | a node with no point of its own is off its ring after a snapshot in which all others have moved |
| `Cluster.BootLive` | cmd/gateway/main.go:174-178 | the start-up ring holds the configured peers and this node |
| `Cluster.ReconcileFillsRingIff` | internal/gateway/cluster.go:223-248 | a reconcile puts the whole registry on the ring if and only if no kept peer was marked unhealthy |
| `Cluster.ReconcileLive` | internal/gateway/cluster.go:223-248 | the ring then holds this node and the registry, less the kept peers marked unhealthy |
| `Cluster.ConvergenceIff` | internal/gateway/cluster.go:223-248 | two gateways reconciling with one registry that lists both have the same ring, and route every key alike, if and only if they mark the same kept peers unhealthy |
| `Cluster.GrpcForwarder.AddPeer` | internal/gateway/grpc_forwarder.go:160-167 | the address is recorded; it is the one dialled next if and only if no connection to another address is cached |
| `Cluster.GrpcForwarder.RemovePeer` | internal/gateway/grpc_forwarder.go:171-182 | address and cached connection go, so the node cannot be reached any more |
| `Cluster.GrpcForwarder.Evict` | internal/gateway/grpc_forwarder.go:92-99 | after a failed forward the connection is gone, so the next dial uses the recorded address |
| `Cluster.GrpcForwarder.PeerAddrs` | internal/gateway/grpc_forwarder.go:185-193 | a copy of the address map |
| `Cluster.GrpcForwarder.GetOrDial` | internal/gateway/grpc_forwarder.go:115-155 | a cached connection wins; otherwise the mapped address is dialled and cached; unknown or silent nodes give an error and change nothing |
| `Cluster.GrpcForwarder.Forward` | internal/gateway/grpc_forwarder.go:61-111 | no call without another owner; otherwise the cached connection or a new one is used, kept if it answers and evicted if not, so that after a failure the recorded address is dialled |
| `Cluster.ClusterManager.Start` | internal/gateway/cluster.go:94-108 | exactly the configured peers other than this node are marked healthy, once: a second call changes nothing |
| `Cluster.ClusterManager.AddPeer` | internal/gateway/cluster.go:357-363 | address, ring and health mark move together |
| `Cluster.ClusterManager.RemovePeer` | internal/gateway/cluster.go:366-372 | the peer leaves all three structures |
| `Cluster.ClusterManager.ReconcilePeers` | internal/gateway/cluster.go:223-248 | the two loops compute Reconcile for some order of each map; from a state in step they leave one in step, with the registry's addresses, unchanged peers keeping their marks and all others healthy |
| `Cluster.ClusterManager.AddFound` | internal/gateway/cluster.go:226-239 | exactly the nodes unknown to the snapshot or listed at another address are at the new address, healthy and live; nothing changes for any other, and never for this one |
| `Cluster.ClusterManager.DropMissing` | internal/gateway/cluster.go:241-247 | exactly the snapshot's peers missing from the registry are gone from addresses, marks and ring |
| `Cluster.ClusterManager.RunHealthCheck` | internal/gateway/cluster.go:295-323 | the probing loop computes HealthCheck for some order of the snapshot; from a state in step every peer is marked as it answered |
| `Cluster.ClusterManager.HealthyPeers` | internal/gateway/cluster.go:375-385 | the number of peers marked healthy |
| `Cluster.BuildRing` | cmd/gateway/main.go:173-178 | the start-up loop yields a valid ring whose history adds each configured peer once and this node last |
| `Cluster.BootGateway` | cmd/gateway/main.go:172-187 | ring, forwarder and started manager are in the state every run begins with: the configured addresses, every peer healthy, peers and this node live |
| `Delivery.DeliverLandsIff` | internal/gateway/router.go:522-543 | a message lands at the end of a channel with room or of an offline queue, here or at the forwarder's owner, exactly when it is not Lost; a lost one changes nothing; no third gateway is touched |
| `Delivery.RouteAt` | internal/gateway/router.go:586-624 | gateway by gateway, from the guards of the source: where a message to an absent user goes, and that it is there at the end of the channel or of the queue, nothing else having changed |
| `Delivery.DeliverAt` | internal/gateway/router.go:522-543 | the same for a delivery: a user connected here is served here, on the channel if the send succeeds and in the queue if not |
| `Delivery.OwnerServes` | internal/gateway/grpc_server.go:46-61 | a user whose owner both lookups name is served there and only there: on an open connection with room in its channel, otherwise in the queue |
| `Delivery.OneRingLosesNothing` | internal/gateway/router.go:594-610 | when router and forwarder see the same owner no message to a real user is lost |
| `Delivery.DeliverReachesIff` | internal/gateway/router.go:586-624 | with limits of at least 1, a message that had not reached its user reaches it if and only if it is not lost |
| `Delivery.DeliverKeepsReached` | internal/gateway/router.go:586-624 | delivering a message to one user never takes it from another who has it |
| `Delivery.FanoutReaches` | internal/gateway/router.go:629-661 | every member but the sender whose own turn is not lost gets the message, whatever happens to the others |
| `Delivery.FanoutReachesIff` | internal/gateway/router.go:667-693 | a new message reaches a user if and only if the user is a member, is not the sender and has a turn that is not lost |
| `Delivery.FanoutCopies` | internal/gateway/router.go:637-657 | at every gateway every user gains exactly one copy per turn that brings the message there |
| `Delivery.FanoutSparesOthers` | internal/gateway/router.go:637-657 | the sender's and every non-member's channel and queue are untouched on every gateway |
| `Delivery.SentMessage` | internal/gateway/router.go:507-509 | what is delivered differs from what was received in ID and timestamp only, and the ID is the one the generator gave |
| `Delivery.AcceptedIdIsFresh` | internal/gateway/router.go:507-509 | the ID of an accepted chat exceeds every ID this gateway gave before, or is 0 with the generator unchanged after a severe rollback |
| `Delivery.SenderChannelAfterChat` | internal/gateway/router.go:566-577 | the sender's channel gains exactly its own copy, if it wrote to itself, and then the ACK with the delivered ID, if asked for and taken |
| `Delivery.AcceptedIsAcked` | internal/gateway/router.go:566-577 | an open sender with one free slot, or two if it writes to itself, gets the ACK right behind what it had |
| `Delivery.RejectedChangesNoMail` | internal/gateway/router.go:495-505 | an invalid or rate-limited chat changes no channel, no queue and no dedup mark anywhere |
| `Delivery.OutcomeIff` | internal/gateway/router.go:469-521 | which outcome a chat has, from the state before and in the source's order: known pair, validity, limiter, generator, group |
| `Delivery.HowIff` | internal/gateway/router.go:522-543 | a single chat is routed, sent online or stored exactly by whether its target is connected here and takes it |
| `Delivery.ChatKeepsQueues` | internal/gateway/router.go:515-544 | no queue below its limit loses an older message to a chat, on any gateway; what comes behind are copies of the chat |
| `Delivery.ChatKeepsChannels` | internal/gateway/router.go:515-577 | no chat takes a message out of any channel |
| `Delivery.BucketsAfterChat` | internal/gateway/router.go:501-505 | a chat that gets as far as the limiter is charged there, at this gateway only; no other is |
| `Delivery.GeneratorAfterChat` | internal/gateway/router.go:507-508 | the generator moves exactly when the chat is accepted with a number |
| `Delivery.AckFields` | internal/gateway/router.go:568-574 | the ACK carries command 2, the chat's seq, the message ID, the sender's UID and the clock reading, and nothing else |
| `Delivery.MarkedUnlessStored` | internal/gateway/router.go:515-544 | after a failed online send no pair is marked; after every other accepted chat with a seq its pair is, with the ID and the time |
| `Delivery.DuplicateIsRemembered` | internal/gateway/dedup.go:132-145 | a duplicate is known in memory afterwards with the ID it was answered with, even if Redis had to be asked |
| `Delivery.SingleChatReaches` | internal/gateway/router.go:469-580 | a single chat past dedup, validation and rate limit reaches its target unless lost, and a new one only then |
| `Delivery.OneHop` | internal/gateway/router.go:610 | a single chat changes no gateway but this one and the forwarder's owner |
| `Delivery.ChatKeepsReady` | internal/gateway/router.go:469-580 | whatever the outcome, registered clients are connections of their users on every gateway afterwards |
| `Delivery.AcceptedChatNeverVanishes` | internal/gateway/router.go:515-544 | with one ring behind both lookups every accepted single chat reaches its target |
| `Delivery.GroupChatReachesIff` | internal/gateway/router.go:515-520 | a group chat reaches exactly the members of an existing group, other than the sender, whose turn is not lost |
| `Delivery.GroupChatReaches` | internal/gateway/router.go:629-661 | a group chat reaches a member whose turn is not lost, also one who already had it |
| `Delivery.GroupChatNeverVanishes` | internal/gateway/router.go:629-661 | with one ring behind each turn a group chat reaches every real member but the sender |
| `Delivery.SeenAfterChat` | internal/gateway/router.go:476-544 | a chat adds at most one dedup entry: a mark with the ID it was sent under, but none for seq 0 or after a failed online send; or, for a duplicate known to Redis only, that one |
| `Delivery.RememberedStep` | internal/gateway/dedup.go:152-199 | no event less than TTL after a mark forgets or overwrites it |
| `Delivery.RememberedUntil` | internal/gateway/dedup.go:152-199 | over any run a mark is remembered with its ID until at least TTL later |
| `Delivery.RunReady` | internal/gateway/router.go:469-580 | so it is in every state of every run that starts so |
| `Delivery.RetryIsDuplicate` | internal/gateway/router.go:476-493 | from a mark until TTL later every retry of that sender and seq is a duplicate answered with the original ID |
| `Delivery.RetryOnlyAcks` | internal/gateway/router.go:476-493 | in every run such a retry changes no other gateway, no queue, mark, bucket, generator or other connection; its own channel gains at most one ACK, with the original ID, and does if it asked, is open and has room |
| `Delivery.RetryReachesNobody` | internal/gateway/router.go:476-493 | in every run nobody gets or loses a message by such a retry, that ACK apart |
| `Delivery.AcceptedOncePerWindow` | internal/gateway/router.go:476-544 | once a chat is marked, online, routed or to a group, no chat of the same (sender, seq) is accepted in any way until more than TTL later |
| `Delivery.OnlineOncePerWindow` | internal/gateway/router.go:515-543 | so two successful online sends of one (sender, seq) are more than TTL apart in every run |
| `Delivery.RetryAfterFailedSend` | internal/gateway/router.go:524-529 | in every run a retry of a chat whose online send failed is no duplicate unless the pair was accepted for good meanwhile or Redis knows it |
| `Delivery.LostReachesNobody` | internal/gateway/router.go:537-543 | a lost single chat reaches nobody and is marked |
| `Delivery.LostForWindow` | internal/gateway/router.go:511-543 | in every run neither a lost single chat nor any retry of it up to TTL later reaches anybody |
| `Delivery.Router.Forwarded` | internal/gateway/grpc_server.go:36-62 | an empty UID is refused; otherwise the message is in the client's channel or, if that fails, in the queue |
| `Delivery.Router.Forward` | internal/gateway/grpc_forwarder.go:61-111 | no call and no error when there is no other owner; an error when the peer cannot be reached or times out, in the latter case after it may have delivered |
| `Delivery.Router.RouteOrStoreOffline` | internal/gateway/router.go:586-624 | exactly the gateways the guards name, this one, the peer, or both after a timeout, have the message behind what they had; no other has changed |
| `Delivery.Router.DeliverTo` | internal/gateway/router.go:522-543 | computes Deliver for one target and reports how it went |
| `Delivery.Router.FanoutGroup` | internal/gateway/router.go:629-661 | the member loop computes Fanout, skipping the sender |
| `Delivery.Router.CheckRateLimit` | internal/gateway/router.go:274-282 | the limiter's answer negated; without a limiter nobody is limited |
| `Delivery.Router.NextId` | internal/gateway/router.go:508 | the generator's answer, with only the generator moved on |
| `Delivery.Router.Dispatch` | internal/gateway/router.go:511-544 | group or single delivery, then the mark; after a failed online send the dedup cache is as before |
| `Delivery.Router.HandleChat` | internal/gateway/router.go:469-580 | the handler computes ChatStep, the recovery of a duplicate from Redis included: outcome and every touched gateway; after a failed online send the dedup cache is as before; it can be called again |
| `Delivery.Router.Complete` | internal/gateway/router.go:511-577 | delivery, then the mark if the outcome deserves one, then the ACK if asked for |
| `Messages.SendOutcome` | internal/gateway/client.go:67-80 | success exactly as marshalling, room and the closed flag allow; each error only for its own reason |
| `Messages.ValidatesIff` | api/proto/message.go:74-82 | valid are commands 1 to 24, nine of which need a target |
| `Hub.Client.Send` | internal/gateway/client.go:67-80 | the message is appended exactly when Send succeeds; every failure leaves the channel alone |
| `Hub.Client.Close` | internal/gateway/client.go:83-88 | the client is closed, once or again |
| `Hub.ClientHub.SwapIn` | internal/gateway/hub.go:46-66 | the locked part: accepted unless the user is unknown and the hub full; reports whom to close; refines Registry.Step |
| `Hub.ClientHub.Finish` | internal/gateway/hub.go:53-76 | the unlocked part: the right kick message at the end of the channel if it can be sent, then closed |
| `Hub.ClientHub.Register` | internal/gateway/hub.go:46-77 | the newcomer is in the map and the old client kicked and closed, or the newcomer is kicked and closed and the map unchanged; an accepted newcomer keeps its channel and stays open |
| `Hub.Notices` | internal/gateway/hub.go:53-76 | the two kick messages and the end-of-offline marker, field by field |
| `Hub.ClientHub.Unregister` | internal/gateway/hub.go:81-87 | removes the entry only if it is this very client; refines Registry.Step |
| `Hub.ClientHub.Get` | internal/gateway/hub.go:90-94 | the user's latest accepted client not unregistered since, over every interleaving so far; nil exactly when there is none |
| `Hub.ClientHub.Count` | internal/gateway/hub.go:138-142 | the number of connected users, never above a positive maximum |
| `Hub.ClientHub.StoreOffline` | internal/gateway/hub.go:106-115 | append and cut the oldest; no queue exceeds the limit, other users' queues unchanged |
| `Hub.ClientHub.DrainOffline` | internal/gateway/hub.go:118-124 | returns the whole queue and leaves it empty, others unchanged |
| `Hub.HandleOffline` | internal/gateway/router.go:695-721 | a prefix goes to the channel in order, the rest is back in the queue in order and untruncated from the first failed send on; an empty queue is answered with a marker carrying a new ID; equals OfflineQueue.HandleOffline, so the conservation over many requests is about this method |
| `Hub.Requeue` | internal/gateway/router.go:709-712 | storing a suffix again gives back exactly that suffix |
| `Registry.StepHolds` | internal/gateway/hub.go:46-87 | one event makes a client its user's holder, or ends its tenure, exactly by an accepted swap or its own Unregister |
| `Registry.HolderIff` | internal/gateway/hub.go:46-87 | over every interleaving a user maps to c if and only if c is its latest accepted client not unregistered since |
| `Registry.OwedStaysOwed` | internal/gateway/hub.go:68-76 | whoever must be closed stays so until closed, and closed for good |
| `Registry.DisplacedIsOwed` | internal/gateway/hub.go:50-76 | every displaced or rejected client is closed or has its close pending ever after |
| `Registry.NeverOverfull` | internal/gateway/hub.go:50-61 | the map never exceeds a positive maximum |
| `Registry.HoldersApart` | internal/gateway/hub.go:63-76 | a holder is never among the clients owed a close, over every interleaving |
| `Registry.HolderIsOpen` | internal/gateway/hub.go:63-76 | a late close never hits the user's current client: it is open unless its own connection hung up |
| `OfflineQueue.BoundedFifo` | internal/gateway/hub.go:106-124 | after any run of stores and drains both backends hold the last min(max, n) messages since the drain, in order; only Redis with limit 0 holds them all |
| `OfflineQueue.RedisAgreesIff` | internal/gateway/redis_store.go:56-74 | the Redis list agrees with the Hub slice on every run if and only if the limit is at least 1 |
| `OfflineQueue.PutKeepsHeld` | internal/gateway/redis_store.go:57-62 | RPUSH and LTRIM, like append and cut, turn what is kept of s into what is kept of s + [m], for every limit |
| `OfflineQueue.StoreIsLast` | internal/gateway/hub.go:106-115 | one store leaves the last max of the old queue and the message, in either backend |
| `OfflineQueue.DrainConserves` | internal/gateway/router.go:706-718 | sent prefix plus re-stored suffix is the drained queue |
| `OfflineQueue.RequestsConserve` | internal/gateway/router.go:695-721 | over any number of requests with any room the queue goes out in order, each message once |
| `OfflineQueue.ReachableDrainConserves` | internal/gateway/router.go:695-721 | the same for the queue of any user after any run, in either backend and with any limit |
| `OfflineQueue.HandleOfflineIs` | internal/gateway/router.go:706-718 | a request sends up to the first failing send and puts back exactly the rest |
| `OfflineQueue.DecodedMarshalled` | internal/gateway/redis_store.go:117-124 | a drained list decodes to exactly the messages stored, if marshalling round-trips |
| `OfflineQueue.DecodedSplit` | internal/gateway/redis_store.go:117-124 | a payload that does not decode is passed over, and those behind it are not |
| `OfflineQueue.RedisDrainReturns` | internal/gateway/redis_store.go:100-124 | after any run draining the Redis list gives back the last max messages stored since the last drain, in order, or all of them with limit 0 |
| `OfflineQueue.RedisStore.StoreOffline` | internal/gateway/redis_store.go:78-96 | the message is on the Redis list if the script takes effect, and in the fallback if marshalling fails or the script reports an error, in both if only its answer is lost |
| `OfflineQueue.RedisStore.DrainOffline` | internal/gateway/redis_store.go:100-124 | a working drain returns what Redis holds since the last drain that took effect there, a failing one what the fallback holds since the last failing drain |
| `RateLimiter.AllowSpendsCredit` | internal/gateway/rate_limiter.go:77-102 | Allow passes exactly when the user's credit is at least 1, spends one token, keeps tokens in [0, burst] and touches no other user |
| `RateLimiter.SweepKeepsCredit` | internal/gateway/rate_limiter.go:55-63 | with rate × interval ≥ burst a sweep changes nobody's credit from then on |
| `RateLimiter.SimilarStep` | internal/gateway/rate_limiter.go:48-102 | one step of the bisimulation between a sweeping and a never sweeping limiter |
| `RateLimiter.SimilarRun` | internal/gateway/rate_limiter.go:48-102 | bisimilar limiters give the same answers over every run |
| `RateLimiter.EarlySweepShows` | internal/gateway/rate_limiter.go:55-63 | a sweep before the bucket is full again lets a second burst through |
| `RateLimiter.TransparentIff` | internal/gateway/rate_limiter.go:48-102 | sweeping at arbitrary moments never changes an answer if and only if rate × interval ≥ burst |
| `RateLimiter.SpendBound` | internal/gateway/rate_limiter.go:77-102 | from any state, what is allowed is paid for by credit at hand plus what time earns |
| `RateLimiter.RateBound` | internal/gateway/rate_limiter.go:77-102 | after any history, any window of length T passes at most burst + rate·T calls of a user, and tokens stay in [0, burst] |
| `RateLimiter.RateHoldsIff` | internal/gateway/rate_limiter.go:48-102 | that bound holds for every window of every run if and only if rate × interval ≥ burst |
| `RateLimiter.TwoBurstsPass` | internal/gateway/rate_limiter.go:55-63 | two bursts around a sweep pass in full, however little was earned in between |
| `RateLimiter.Limiter.constructor` | internal/gateway/rate_limiter.go:32-45 | no buckets; an interval of 0 or less becomes five minutes |
| `RateLimiter.Limiter.Allow` | internal/gateway/rate_limiter.go:77-102 | computes AllowStep and counts the answer |
| `RateLimiter.Limiter.Cleanup` | internal/gateway/rate_limiter.go:55-63 | in any map order deletes exactly the buckets idle for longer than the interval |
| `Dedup.KeyInjective` | internal/gateway/dedup.go:110-112 | two (sender, seq) pairs share a key if and only if they are equal, whatever the UID contains |
| `Dedup.KeyText` | internal/gateway/dedup.go:110-112 | the key is UID, colon and seq in decimal |
| `Dedup.StaysRemembered` | internal/gateway/dedup.go:152-199 | other marks and evictions up to TTL later leave a mark alone |
| `Dedup.OldMarkGoes` | internal/gateway/dedup.go:189-196 | after a tick a mark is gone exactly if it is older than TTL |
| `Dedup.RecallKeeps` | internal/gateway/dedup.go:132-145 | filling the cache from Redis overwrites no entry |
| `Dedup.DedupCache.IsDuplicate` | internal/gateway/dedup.go:123-148 | known pairs with their ID, before the first mark also those Redis knows, which are remembered from then on; (false, 0) for the others; after the first mark nothing changes |
| `Dedup.DedupCache.Mark` | internal/gateway/dedup.go:152-158 | the pair is known with this ID from now on |
| `Dedup.DedupCache.Evict` | internal/gateway/dedup.go:189-196 | in any map order removes exactly the marks older than TTL |
| `Snowflake.BitsAreSums` | internal/pkg/snowflake/snowflake.go:80-86 | on disjoint fields shift and OR are the sum, stay below 2^63 and shift back to the ticks |
| `Snowflake.PackFields` | internal/pkg/snowflake/snowflake.go:80-87 | an ID gives back the clock reading and the worker, and is positive |
| `Snowflake.PackOrder` | internal/pkg/snowflake/snowflake.go:80 | IDs of one worker are ordered as their (reading, sequence) pairs |
| `Snowflake.NextIncreases` | internal/pkg/snowflake/snowflake.go:49-87 | for any readings, backward jumps and sequence wrap included, an issued ID exceeds all before it, and ExtractTimestamp returns the reading used |
| `Snowflake.SevereIff` | internal/pkg/snowflake/snowflake.go:54-59 | a call gives up exactly when the clock has gone back by more than 10 ms |
| `Snowflake.WaitsForFirstUsable` | internal/pkg/snowflake/snowflake.go:60-74 | otherwise it uses the first reading that is later than the last one, or equal to it with numbers left, and waits exactly as long as there is none |
| `Snowflake.NumbersInTick` | internal/pkg/snowflake/snowflake.go:67-80 | numbers start at 0 in every millisecond and grow by 1 within it; the ID spells out reading, worker and number in 41, 10 and 12 bits |
| `Snowflake.ResultsIncrease` | internal/pkg/snowflake/snowflake.go:49-81 | the nonzero results of any run of calls strictly increase and name the worker |
| `Snowflake.WorkersDisjoint` | internal/pkg/snowflake/snowflake.go:40-81 | generators with different workers share no nonzero ID, whatever their clocks do |
| `Snowflake.New` | internal/pkg/snowflake/snowflake.go:40-45 | a generator exactly for workers 0 to 1023, fresh and below every ID |
| `Snowflake.Generator.NextId` | internal/pkg/snowflake/snowflake.go:49-81 | the two waiting loops compute Next: an ID, 0 without a state change after a severe rollback, or still waiting |
| `Framing.HeaderLength` | internal/gateway/transport_gnet.go:39-40 | reading a written header gives the length modulo 2^32 |
| `Framing.HeaderBytes` | internal/gateway/transport_gnet.go:39-40 | the length is big-endian, byte by byte, in both directions |
| `Framing.DrainAppend` | internal/gateway/gnet_handler.go:156-195 | for any bytes, decoding resumes after a cut as if there had been none |
| `Framing.ChunkingIsInvisible` | internal/gateway/gnet_handler.go:156-195 | every chunking of any byte stream hands out the same frames and closes alike |
| `Framing.DrainStream` | internal/gateway/gnet_handler.go:156-195 | written payloads within the limit come out first and in order, whatever follows |
| `Framing.StreamRoundTrip` | internal/gateway/gnet_handler.go:156-195 | for any payloads and any chunking: exactly those payloads in order, only an incomplete tail left; an oversize header closes with nothing later handed out |
| `Framing.StreamArrives` | internal/gateway/gnet_handler.go:156-195 | the same with the library's answer to Next(0) taken into account, when no empty payload is followed by anything |
| `Framing.StreamArrivesIff` | internal/gateway/gnet_handler.go:186 | every chunking of a stream arrives intact if and only if Next(0) returns nothing or nothing follows an empty payload |
| `Framing.FaultsOnlyCut` | internal/gateway/gnet_handler.go:159-190 | whatever read errors occur at whichever of the three reads and when, the frames handed out are those of the faultless run or a prefix of them before the close |
| `Framing.PeekErrorUnnoticedIff` | internal/gateway/gnet_handler.go:176-190 | an error of the second Peek makes no difference if and only if the frame is complete; otherwise the call ends there, closed, with the header gone |
| `Framing.Conn.OnTraffic` | internal/gateway/gnet_handler.go:156-195 | the peek, discard, next loop computes Arrive, read errors included |
| `Framing.Write` | internal/gateway/transport_gnet.go:37-50 | header then payload |
| `WireCodec.VarintRoundTrip` | web/src/lib/ws.ts:41-63 | a varint of any size is read back, with the position right behind it |
| `WireCodec.VarintBytes` | web/src/lib/ws.ts:41-50 | seven bits to a byte, the lowest group first, the top bit set on all bytes but the last |
| `WireCodec.TokensOfEncoding` | web/src/lib/ws.ts:147-193 | any list of fields with non-negative numbers, in any order, known or not, is read back as written |
| `WireCodec.ReadNumber` | web/src/lib/ws.ts:164-171 | one varint field in front of anything is read back |
| `WireCodec.ReadText` | web/src/lib/ws.ts:181-186 | one length-delimited field in front of anything is read back |
| `WireCodec.DecodeEncodeIff` | web/src/lib/ws.ts:80-199 | whenever BigInt reads its texts, decoding an encoded message normalises it if and only if none of its numbers is negative |
| `WireCodec.DecodeIsClean` | web/src/lib/ws.ts:147-199 | every byte string decodes to canonical decimals and non-negative numbers |
| `WireCodec.RoundTripIff` | web/src/lib/ws.ts:80-199 | any message at all comes back unchanged if and only if its decimals are canonical, no number is negative and its types are nonzero |
| `WireCodec.WireFormat` | web/src/lib/ws.ts:80-144 | the bytes of every message: its set fields in order behind the tag bytes 08, 10, 18, 22, 2A, 30, 38, 42, 48 and 50 |
| `WireCodec.TextAlone` | web/src/lib/ws.ts:95-126 | a message with only `from`, `to` or `content` set is that text behind 22, 2A or 42 and its length |
| `WireCodec.SeqTag` | web/src/lib/ws.ts:173 | tag 08 sets seq and nothing else, wherever it is met |
| `WireCodec.MsgIdTag` | web/src/lib/ws.ts:174 | tag 10 sets the message ID |
| `WireCodec.CmdTag` | web/src/lib/ws.ts:175 | tag 18 sets the command |
| `WireCodec.FromTag` | web/src/lib/ws.ts:188 | tag 22 sets `from` |
| `WireCodec.ToTag` | web/src/lib/ws.ts:189 | tag 2A sets `to` |
| `WireCodec.ChatTypeTag` | web/src/lib/ws.ts:176 | tag 30 sets the chat type |
| `WireCodec.MsgTypeTag` | web/src/lib/ws.ts:177 | tag 38 sets the message type |
| `WireCodec.ContentTag` | web/src/lib/ws.ts:190 | tag 42 sets the content |
| `WireCodec.TimestampTag` | web/src/lib/ws.ts:178 | tag 48 sets the timestamp |
| `WireCodec.NeedAckTag` | web/src/lib/ws.ts:179 | tag 50 sets need_ack, to true for 1 only |
| `WireCodec.UnknownFields` | web/src/lib/ws.ts:149-191 | every other field number is passed over, and without fields the defaults remain |
| `WireCodec.OtherWireTypes` | web/src/lib/ws.ts:169-192 | a tag of any other wire type is passed over by itself |
| `WireCodec.ReadOne` | web/src/lib/ws.ts:163-193 | every turn of the decoding loop consumes at least one byte of any input, so decoding ends |
| `WireCodec.AccumulateIsVarint` | web/src/lib/ws.ts:52-63 | the little-endian accumulation is the value defined from the back |
| `WireCodec.EncodeVarintLoop` | web/src/lib/ws.ts:41-50 | computes EncodeVarint |
| `WireCodec.DecodeVarintLoop` | web/src/lib/ws.ts:52-63 | value and end position at any offset of any bytes; a missing byte reads as 0 and ends the loop |
| `WireCodec.EncodeMessage` | web/src/lib/ws.ts:80-144 | fails exactly when BigInt throws; otherwise the pushed parts laid end to end are the encoding of the set fields |
| `WireCodec.ReadField` | web/src/lib/ws.ts:163-192 | one turn of the decoding loop in positions; it moves forward |
| `WireCodec.DecodeMessage` | web/src/lib/ws.ts:147-199 | computes Decode on every byte string |
| `Consumer.StepAccounts` | internal/mq/consumer.go:105-227 | one event keeps the books of one record balanced |
| `Consumer.ReachableInv` | internal/mq/consumer.go:105-227 | after every interleaving each fetched record is in exactly one place, every saved, malformed or dropped one has its one commit done or ahead, and the buffer holds at most 10000 |
| `Consumer.ReachablePlaces` | internal/mq/consumer.go:105-227 | what was passed to commit is saved, malformed or dropped; a record fetched once is in one place, committed at most once, and never when its save failed |
| `Consumer.QuiescentCommits` | internal/mq/consumer.go:186-227 | with no flush or drop under way exactly the malformed, saved and dropped records were passed to commit |
| `Consumer.BufferIsNewest` | internal/mq/consumer.go:121-141 | after every interleaving the buffer is the newest 10000 records fetched since the last swap, in fetch order: what is dropped is the oldest |
| `Consumer.LoopTurnIsSave` | internal/mq/consumer.go:208-215 | each turn of the save loop is one Save event of its flight |
| `Consumer.FlushEffect` | internal/mq/consumer.go:186-227 | a whole flush empties the buffer, commits exactly what the store kept, and accounts every record as saved or failed |
| `Consumer.BatchConsumer.SkipMalformed` | internal/mq/consumer.go:105-118 | a malformed record is one FetchMalformed event and is passed to commit |
| `Consumer.BatchConsumer.Add` | internal/mq/consumer.go:121-141 | one FetchGood event: at capacity the oldest makes room; a flush is due from 100 records on |
| `Consumer.BatchConsumer.SaveBatch` | internal/mq/consumer.go:200-216 | the loops are the Save events of one flight; without a store every record is taken as written |
| `Consumer.BatchConsumer.FlushAll` | internal/mq/consumer.go:186-227 | refines swap, saves and commit of the interleaved machine: the accounting is kept and exactly the records saved, in order, are passed to commit; without a store all of them |

## Left out

- Redis recovery of the dedup cache across restarts is best effort: it is modelled, and no claim about runs relies on it.
- Delivery.Router.HandleChat: leaves out metrics, unread counts and asynchronous persistence, which no delivery depends on. While the ID generator waits the call simply has no result.
- Delivery after a Redis failure: a later working drain does not read the fallback queue, and a drain whose answer is lost throws the Redis list away, as `RedisStore.DrainOffline` states, so no delivery guarantee follows.
- Kafka offset watermarks and redelivery: they belong to the library. Commits are per record.
- Exactly-once delivery across gateways: a forward that times out after the peer delivered is also stored locally; the model keeps that behaviour.
- Reconciles within a health check: the other claims about cluster runs are about atomic steps; `InterleavedInvIff` says what happens otherwise.
- Delivery.AcceptedOncePerWindow: is about chats handled one after the other, as one WebSocket read loop does; two worker-pool tasks that both pass the dedup check before either marks are not modelled.
- Delivery.Router.Forward: takes the gateway called to be the one the ring named; a stale cached connection, which `Cluster.GrpcForwarder.Forward` models, may lead elsewhere.
- Hub.ClientHub.constructor: fixes the connection maximum for the hub's lifetime and takes a non-negative offline limit; a negative one makes the first store panic.
- Snowflake.NextIncreases: is about readings strictly between the epoch and 2^41 ms later, the range the 41 timestamp bits cover.
- Framing.StreamRoundTrip: a payload of 2^32 bytes or more has its length truncated in the header and is outside every frame limit.
- WireCodec.DecodeMessage: numbers above 2^53 lose precision in JavaScript's Number, and text goes through UTF-8; the model has exact numbers and bytes.
- History, recall, edit, read receipts, friends, heartbeats and the other commands of the router: simple lookups and updates.
- SQL stores, the Logic service, HTTP handlers, JWT, metrics, object storage, configuration, generated protobuf code and the React UI.
