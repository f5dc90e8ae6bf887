# Bridge Packet: a verified model of the core server

Bridge Packet is a WebRTC selective forwarding server: clients join rooms over a WebSocket, and
the server keeps the room membership, forwards media through mediasoup routers, limits request
rates, and reports telemetry. This project models the core of that server in Dafny and proves
what its parts promise for every input, every run and every interleaving.

`dafny verify dfyconfig.toml` checks everything. Nothing here was executed.

## How the model is laid out

| file | what it holds |
|---|---|
| `Protocol.dfy` | the signaling and membership protocol as a step machine: one event is the code between two awaits |
| `ProtocolProofs.dfy` | the invariant of that machine and that every step keeps it |
| `ProtocolTheorems.dfy` | what follows for every run: views, membership, announcements, routers |
| `Delivery.dfy` | what every event adds to what each peer was sent, and that nothing else is sent |
| `Sessions.dfy` | when a session is live and which session a socket finds, told by the events alone |
| `MediaSessions.dfy` | which transports, producers and consumers a session holds, and that no waiting handler is lost |
| `Stranding.dfy` | which sessions can never leave, for every continuation of a run |
| `Server.dfy`, `Dispatcher.dfy` | the mutable services, the dispatcher, the close handler and the event loop, each method proved to take exactly one protocol step |
| `RateLimiting.dfy` | the sliding-window limiter against its full history, and the limiter classes |
| `Retention.dfy`, `MetricsStore.dfy` | rolling sample retention, and the peer metrics store with its room index |
| `WorkerPool.dfy` | `mapWithConcurrency` under every schedule |
| `Subnets.dfy` | IPv4 arithmetic on signed 32-bit numbers |
| `Labels.dfy`, `LabelShapes.dfy` | Prometheus label printing with a parser, the internal label keys, and the exact shape of printed and normalised labels |
| `Sorting.dfy`, `Jitter.dfy`, `PacketLoss.dfy`, `Throughput.dfy`, `Quality.dfy` | telemetry arithmetic over exact reals |
| `Measurements.dfy`, `Scoring.dfy` | what one more sample does to each measurement, and the exact values of scores |
| `Rooms.dfy`, `Snapshots.dfy`, `SnapshotContents.dfy` | room aggregation, telemetry snapshots, and which records they report and count |
| `Common.dfy`, `Text.dfy` | shared result types, filtering, splitting, joining and decimal text |

A handler that reaches an await parks a task; any parked task may resume next, so a sequence of
events is one interleaving, and the theorems of `ProtocolTheorems.dfy` quantify over all of them.
`Dispatcher.EventLoop` ties the mutable server to those theorems: its ghost run records the
events, and the objects are always in the state that the run reaches. The limiter, the metrics
store, the jitter calculator and the loss tracker carry ghost histories in the same way.

Where the code does not meet what one would expect of it, the model keeps the code's behaviour
and the exact condition is proved:

- Two overlapping router creations for one room displace a router that nothing closes any more,
  and a creation still pending when the last peer leaves maps a router for an empty room
  (`TwoRequestsDisplace`, `RouterOutlivesRoom`; exactly when, in `DisplacementNeedsOverlap` and
  `OrphansAriseExactlyWhen`).
- With a /0 mask the signed broadcast number is -1 and nothing is enumerated
  (`CoversUnlessSlashZero`).
- With a concurrency of zero or less nothing is mapped and the results stay holes
  (`CompletesExactlyWhen`).
- A label key reads back exactly when no value holds a comma and no label is named `__proto__`
  (`DeserializeUndoesSerialize`). A set shares its key with another set over the same names exactly
  when some value spells a comma and the next name with its equals sign, or a comma and its own
  name when it is not the first (`SharesKeyExactlyWhen`; `CommasCollide` is a witness).
- Normalising does not repair blank names, nor over-long names with a bad beginning
  (`NormalizedNameIsValid`).
- Two rate-limit keys can share a bucket when a namespace holds a colon (`KeysShareBucket`).
- Samples can be pruned for good by a clock that runs ahead of a later one (`OutOfOrderDiffers` is
  a witness). The held list is the batch result exactly when every record that the batch selects
  was recent, and among the last maxSamples recent all along, at every operation since; while
  the cap is not reached, exactly when no earlier cutoff exceeded a sample that the last cutoff
  admits (`HeldIsBatchExactlyWhen`, `UncappedHeldIsBatchExactlyWhen`).
- A socket that joins again is remembered with its newest session only: an older session can still
  leave exactly when a leave of it was already waiting, and otherwise stays live for good, also
  after its socket closed (`StrandsExactlyWhen`, `CanLeaveExactlyWhen`, `AfterCloseStrandedExactlyWhen`).
- An empty room id queries every record, so room metrics conserve peers exactly when the empty id
  is not used beside another (`RoomQueryIsNaive`, `AggregationConserves`). A built snapshot is
  balanced exactly when that holds, or stale peers are left out, or the filter allows no record's
  room (`BuildBalancesExactlyWhen`).
- The room aggregator shares one jitter calculator among all peers, so a reported jitter is a
  peer's own exactly when nothing is remembered or there are too few samples
  (`OwnJitterExactlyWhen`); a silent peer's zero counts as the room's least latency
  (`RoomMinimumCountsSilentPeers`).
- Validation tolerates one lost packet too many per sample, so a loss rate can exceed 1
  (`LossRateOfValid`, `ValidSampleAboveOne`); while no sample lost more than it sent, it does not in
  any time bucket (`BucketRates`).
- A peer whose measurements disappear can score better than before. Latency never; loss exactly
  when it counts and is above the fair threshold; a direction exactly when bandwidth counts, both
  directions are measured and the other one leads by enough points (`LosingLatencyNeverRaises`,
  `LosingLossRaisesExactlyWhen`, `LosingUploadRaisesExactlyWhen`, `LosingDownloadRaisesExactlyWhen`,
  each for the weighted and for the rounded score).

## Model

| member | source | states |
|---|---|---|
| ProtocolTheorems.ViewConvergence | apps/core/src/signaling/dispatcher.ts:39-87 | at every await point of every interleaving, folding the joined, peer-joined and peer-left messages of a live peer on an open socket gives exactly its room's peers, even when leave and disconnect race |
| ProtocolTheorems.MembershipIndices | apps/core/src/domain/room/room-service.ts:38-100 | in every reachable state the session map's keys are the disjoint union of the rooms' peers, each session names the room that lists it, and a socket finds only its own session |
| ProtocolTheorems.NotInRoomIsUnreachable | apps/core/src/signaling/dispatcher.ts:69-73 | no run reaches the "peer is not in a room" error of a handler that found its session |
| ProtocolTheorems.EmptyRoomsAreExplicit | apps/core/src/domain/room/room-store.ts:13-44 | a listed room without peers was created explicitly by the run and no join named it since |
| ProtocolTheorems.RoomsListedExactly | apps/core/src/domain/room/room-store.ts:13-44 | in every run a room is listed exactly when a live session names it, or it was created while missing and no join named it since; the latter are the empty ones |
| Delivery.EveryoneIsTold | apps/core/src/signaling/dispatcher.ts:39-166 | in every run each event adds to each peer's messages exactly what it is to be told, reply, announcement or nothing, stated per reader |
| Delivery.NewcomerIsWelcomed | apps/core/src/signaling/dispatcher.ts:39-66 | who joins on an open socket is sent one reply with its own id, its room and the room's peers with itself added, and its socket finds it in that room |
| Delivery.ClosedSockets | apps/core/src/domain/peer/peer-session.ts:19-23 | a socket counts as closed exactly when the run closed it |
| Sessions.LiveUntilDeparture | apps/core/src/domain/room/room-service.ts:38-84 | in every run a session is live exactly when it joined and no waiting leave of it, nor the close handler of the socket it joined last, resumed since |
| Sessions.LookupFindsLastJoin | apps/core/src/domain/room/room-service.ts:86-100 | a socket finds the session of its last join while that is live, with its room, and otherwise reports no peer |
| MediaSessions.HoldsExactlyCompleted | apps/core/src/media/sfu-service.ts:40-108 | in every run a session holds a transport, producer or consumer exactly when the call that makes it completed with that id for it and no leave or close handler of it started since |
| MediaSessions.ProduceWaitsExactlyWhen | apps/core/src/signaling/dispatcher.ts:134-145 | a produce request parks exactly when the socket's session was given that transport and its media were not closed since, and changes nothing else |
| MediaSessions.ConsumeWaitsExactlyWhen | apps/core/src/media/sfu-service.ts:77-106 | a consume request parks exactly when, besides, the room has a router that accepts |
| MediaSessions.HandlersAreConserved | apps/core/src/signaling/dispatcher.ts:35-201 | in every run the handlers left waiting are those resumed, each once, together with those that wait now |
| ProtocolTheorems.AnnouncementSafety | apps/core/src/signaling/dispatcher.ts:134-166 | a producer announcement is delivered only while producer and receiver are distinct live members of one room and the receiver's folded view holds the producer, although the producer may leave while `produce` is pending |
| ProtocolTheorems.AnnouncementReachesRoom | apps/core/src/signaling/dispatcher.ts:147-164 | a producer still in its room is announced exactly once to each other member that can receive |
| ProtocolTheorems.RouterAccounting | apps/core/src/media/router-manager.ts:10-32 | in every run routers created = mapped + closed + displaced, none counted twice |
| ProtocolTheorems.DisplacementNeedsOverlap | apps/core/src/media/router-manager.ts:10-20 | a router is displaced exactly when a creation for its room completes while it is mapped, and the two creations then overlapped |
| ProtocolTheorems.OrphansAriseExactlyWhen | apps/core/src/media/router-manager.ts:10-32 | a router starts to be mapped for a room without peers exactly when its creation completes while the room has none; no departure or other step leaves one |
| ProtocolTheorems.EmptyRoomRouterWasPending | apps/core/src/signaling/dispatcher.ts:75-80 | a router mapped for a room without peers began before the last peer left and was stored after |
| ProtocolTheorems.AtomicRunsCleanUp | apps/core/src/signaling/dispatcher.ts:68-122 | when handlers do not overlap, every mapped router's room has a peer and a session that left holds no media |
| ProtocolTheorems.TwoRequestsDisplace | apps/core/src/media/router-manager.ts:10-20 | a run in which one client's two router requests displace a router |
| ProtocolTheorems.RouterOutlivesRoom | apps/core/src/media/router-manager.ts:16-18 | a run in which a router is mapped for a room that is gone |
| Stranding.StrandsExactlyWhen | apps/core/src/domain/room/room-service.ts:38-49 | a live session that is not its socket's newest and has no leave waiting arises exactly by a further join of that socket, and no step ends that state |
| Stranding.CanLeaveExactlyWhen | apps/core/src/domain/room/room-service.ts:73-100 | in every reachable state some continuation makes a live session leave exactly when it is its socket's newest or a leave of it is waiting |
| Stranding.AfterCloseStrandedExactlyWhen | apps/core/src/server/websocket/signaling.ts:33-56 | once the close handler of a socket ran and the socket joined no more, a session of it that is still live can never leave exactly when no leave of it is waiting |
| ProtocolProofs.RunKeepsInv | apps/core/src/signaling/dispatcher.ts:35-201 | every event of every run keeps the protocol invariant on members, views, announcements, routers and parked handlers |
| ProtocolProofs.JoinKeepsViews | apps/core/src/signaling/dispatcher.ts:39-66 | a join keeps every client's view and knowledge of producers right, the joiner's included |
| ProtocolProofs.DepartKeepsViews | apps/core/src/signaling/dispatcher.ts:75-87 | the departure segment keeps every remaining client's view right, whether or not the peer had already left |
| ProtocolProofs.StaleLeftKeepsViews | apps/core/src/signaling/dispatcher.ts:82-86 | a late or duplicate peer-left message for someone who is gone changes no view |
| ProtocolProofs.LeaveKeepsMembers | apps/core/src/domain/room/room-service.ts:51-71 | leaving keeps the three membership maps consistent |
| Server.Network.Deliver | apps/core/src/domain/peer/peer-session.ts:19-23 | a message is handed over only to an open socket, at the end of the peer's log |
| Server.RoomStore.Create | apps/core/src/domain/room/room-store.ts:13-27 | creates an empty room, or fails and changes nothing when it exists |
| Server.RoomStore.GetOrCreate | apps/core/src/domain/room/room-store.ts:33-40 | returns the room, created empty when it was missing |
| Server.RoomStore.Delete | apps/core/src/domain/room/room-store.ts:42-44 | removes the room and no other |
| Server.RoomService.CreateRoom | apps/core/src/domain/room/room-service.ts:14-24 | acts on the membership state as the protocol's explicit creation, and fails exactly on an existing room |
| Server.RoomService.JoinRoom | apps/core/src/domain/room/room-service.ts:38-49 | acts on the membership state exactly as the protocol's join |
| Server.RoomService.LeavePeer | apps/core/src/domain/room/room-service.ts:51-71 | acts exactly as the protocol's leave and reports the room the peer was in with the peers that remain there, or nothing if it was in none |
| Server.RoomService.LeaveBySocket | apps/core/src/domain/room/room-service.ts:73-84 | leaves the socket's newest peer and reports it with its room, if it was in one |
| Server.RoomService.GetSessionBySocket | apps/core/src/domain/room/room-service.ts:86-100 | finds the live session most recently bound to the socket, or reports that there is none |
| Server.RoomService.GetPeersInRoom | apps/core/src/domain/room/room-service.ts:102-108 | the room's peers, none when there is no such room |
| Server.RoomService.Broadcast | apps/core/src/domain/room/room-service.ts:110-122 | the loop over the room's peers reaches exactly the listed, live, not excluded peers on open sockets, each once |
| Server.RouterManager.Existing | apps/core/src/media/router-manager.ts:10-14 | the mapped router of the room, if there is one |
| Server.RouterManager.StoreCreated | apps/core/src/media/router-manager.ts:17-19 | maps the new router without looking again, so a mapped one is displaced |
| Server.RouterManager.CloseRouter | apps/core/src/media/router-manager.ts:26-32 | closes and unmaps the room's router, or does nothing |
| Dispatcher.SignalingDispatcher.CreateRoom | apps/core/src/domain/room/room-service.ts:14-24 | is one protocol step |
| Dispatcher.SignalingDispatcher.RoomJoin | apps/core/src/signaling/dispatcher.ts:39-66 | join, reply and broadcast together are one protocol step |
| Dispatcher.SignalingDispatcher.RequireRoom | apps/core/src/signaling/dispatcher.ts:90-93 | finds the socket's session and room, with the error for each way to fail |
| Dispatcher.SignalingDispatcher.RoomLeave | apps/core/src/signaling/dispatcher.ts:68-75 | lookup and media close, then parks; fails exactly as the lookup does |
| Dispatcher.SignalingDispatcher.FinishDeparture | apps/core/src/signaling/dispatcher.ts:78-86 | closes the router of an emptied room and parks, or tells the others at once |
| Dispatcher.SignalingDispatcher.ResumeLeave | apps/core/src/signaling/dispatcher.ts:76-86 | the leave handler after its first await is one departure segment |
| Dispatcher.SignalingDispatcher.SocketClose | apps/core/src/server/websocket/signaling.ts:33-40 | the close handler up to its first await |
| Dispatcher.SignalingDispatcher.ResumeClose | apps/core/src/server/websocket/signaling.ts:42-54 | the close handler after its first await, which leaves by socket and may find nobody |
| Dispatcher.SignalingDispatcher.ResumeAnnounceLeft | apps/core/src/server/websocket/signaling.ts:51-54 | the announcement after the empty-room await |
| Dispatcher.SignalingDispatcher.RequestRouter | apps/core/src/signaling/dispatcher.ts:89-122 | the capabilities and transport handlers up to their first foreign await |
| Dispatcher.SignalingDispatcher.ResumeRouter | apps/core/src/media/router-manager.ts:16-19 | the completion of a router creation, and the transport handler's next await |
| Dispatcher.SignalingDispatcher.MediaProduce | apps/core/src/signaling/dispatcher.ts:134-145 | parks exactly when the session is found and owns the transport, otherwise fails with the error of the step that failed |
| Dispatcher.SignalingDispatcher.MediaConsume | apps/core/src/media/sfu-service.ts:77-106 | fails with the lookup's error, the media error without a router that accepts, or the transport error, in this order |
| Dispatcher.SignalingDispatcher.ResumeMedia | apps/core/src/media/sfu-service.ts:40-108 | a completed transport, producer or consumer is stored in the session, a failed one is not |
| Dispatcher.SignalingDispatcher.ResumeProducerReply | apps/core/src/signaling/dispatcher.ts:147-164 | the reply and the announcement to the room the session is in at that moment |
| Dispatcher.SignalingDispatcher.ResumeTask | apps/core/src/signaling/dispatcher.ts:35-201 | whichever parked handler resumes, the server takes exactly one protocol step |
| Dispatcher.EventLoop.Handle | apps/core/src/signaling/dispatcher.ts:35-201 | the server's objects are always in the state of the recorded run, and after every event each live peer's delivered messages fold to its room's peers |
| RateLimiting.StoredMatchesAdmitted | apps/core/src/policy/sliding-window-rate-limiter.ts:26-57 | over any run with a clock that never goes back, the stored times that are active are the active ones of all admitted times |
| RateLimiting.CheckStoresAdmitted | apps/core/src/policy/sliding-window-rate-limiter.ts:26-57 | right after a check a key's stored times are exactly its admitted times in (now - windowMs, now] |
| RateLimiting.CheckReportsHistory | apps/core/src/policy/sliding-window-rate-limiter.ts:26-57 | a check admits while the history has fewer than maxRequests admissions in the window, reports how many more it would admit, and resets when the oldest of them leaves the window |
| RateLimiting.PruneStoresRecent | apps/core/src/policy/sliding-window-rate-limiter.ts:103-116 | right after a prune the buckets are exactly those with admissions in the window, and hold exactly these |
| RateLimiting.WindowBound | apps/core/src/policy/sliding-window-rate-limiter.ts:26-57 | every half-open window of that length, wherever placed, holds at most maxRequests admissions |
| RateLimiting.DenialsAreExact | apps/core/src/policy/sliding-window-rate-limiter.ts:33-44 | after a denial with retryAfterMs = d, checks before now + d are denied and the first one from now + d on is admitted, whatever else happens in between |
| RateLimiting.PeekAgrees | apps/core/src/policy/sliding-window-rate-limiter.ts:63-85 | peek gives check's verdict and reset time, with one more remaining when allowed |
| RateLimiting.PrunesAndPeeksAreInvisible | apps/core/src/policy/sliding-window-rate-limiter.ts:63-116 | inserting prunes and peeks anywhere in a run changes no decision |
| RateLimiting.KeysShareBucket | apps/core/src/policy/types.ts:125-127 | two keys share a bucket exactly when they are equal or one namespace reaches past a colon of the other key |
| RateLimiters.SlidingWindowRateLimiter.Create | apps/core/src/policy/sliding-window-rate-limiter.ts:16-24 | constructs exactly for a positive window and a positive limit |
| RateLimiters.SlidingWindowRateLimiter.Check | apps/core/src/policy/sliding-window-rate-limiter.ts:26-57 | decides as specified, extends the recorded run, and leaves the key with exactly its admitted times of the last window |
| RateLimiters.SlidingWindowRateLimiter.Peek | apps/core/src/policy/sliding-window-rate-limiter.ts:63-85 | decides as specified and changes nothing |
| RateLimiters.SlidingWindowRateLimiter.Prune | apps/core/src/policy/sliding-window-rate-limiter.ts:103-116 | the deleting loop drops every expired time and every emptied bucket, and counts the buckets |
| RateLimiters.MultiRateLimiter.Register | apps/core/src/policy/sliding-window-rate-limiter.ts:126-130 | a namespace gets a limiter object of its own, or an invalid configuration changes nothing |
| RateLimiters.MultiRateLimiter.Check | apps/core/src/policy/sliding-window-rate-limiter.ts:132-138 | routes to the namespace's limiter, touches no other, and always allows an unknown namespace |
| RateLimiters.MultiRateLimiter.Reset | apps/core/src/policy/sliding-window-rate-limiter.ts:140-142 | resets the key in its namespace's limiter and touches no other |
| RateLimiters.RoutedKeysAreDistinct | apps/core/src/policy/sliding-window-rate-limiter.ts:132-138 | within one namespace different identifiers never share a bucket |
| Retention.PruneEqualsRetain | apps/core/src/telemetry/peer-metrics-store.ts:40-70 | the two pruning functions agree on every input, so windowMs never drops a sample |
| Retention.IncrementalIsBatch | apps/core/src/telemetry/peer-metrics-store.ts:57-70 | after any run of records and prunes with times that never go back, the held list is the last maxSamples of the full history within the retention time |
| Retention.HeldIsBatchExactlyWhen | apps/core/src/telemetry/peer-metrics-store.ts:57-70 | for any run with any times and any cap, the held list is the batch result exactly when every record the batch selects was recent, and among the last maxSamples of those recent all along, at each operation since it was recorded |
| Retention.UncappedHeldIsBatchExactlyWhen | apps/core/src/telemetry/peer-metrics-store.ts:57-70 | with at most maxSamples records, exactly when no cutoff after a record was later than a sample that the last cutoff still admits |
| Retention.OutOfOrderDiffers | apps/core/src/telemetry/peer-metrics-store.ts:57-70 | a witness: a run of three records out of order whose held list and batch result differ |
| MetricsStore.CountsAddUp | apps/core/src/telemetry/peer-metrics-store.ts:306-312 | the rooms' counts add up to the number of peers |
| MetricsStore.RoomQueryIsNaive | apps/core/src/telemetry/peer-metrics-store.ts:155-174 | a room query that includes stale peers equals the naive filter exactly for a non-empty id, or when every peer is in the room with the empty id |
| MetricsStore.QueryListsExactly | apps/core/src/telemetry/peer-metrics-store.ts:155-174 | a query lists in insertion order the records of the room it names, if any, that were updated within its threshold or else the retention time |
| MetricsStore.PeerMetricsStore.Create | apps/core/src/telemetry/peer-metrics-store.ts:81-90 | adds and indexes an empty record, or fails on an existing peer |
| MetricsStore.PeerMetricsStore.Update | apps/core/src/telemetry/peer-metrics-store.ts:112-127 | changes only the given fields and the time, and moves the peer in the index |
| MetricsStore.PeerMetricsStore.Delete | apps/core/src/telemetry/peer-metrics-store.ts:129-138 | removes the peer from map and index, and says whether it was there |
| MetricsStore.PeerMetricsStore.DeleteByRoom | apps/core/src/telemetry/peer-metrics-store.ts:140-153 | removes and counts exactly the peers of the room, and the others stay in their insertion order |
| MetricsStore.PeerMetricsStore.List | apps/core/src/telemetry/peer-metrics-store.ts:155-174 | what comes through the index is what the query's plain condition selects, in insertion order |
| MetricsStore.PeerMetricsStore.RecordLatency | apps/core/src/telemetry/peer-metrics-store.ts:181-201 | rejects unknown peers and invalid samples; otherwise the list is the retained part of everything recorded, if times never went back |
| MetricsStore.PeerMetricsStore.RecordBandwidth | apps/core/src/telemetry/peer-metrics-store.ts:203-224 | likewise for bandwidth samples |
| MetricsStore.PeerMetricsStore.RecordPacketLoss | apps/core/src/telemetry/peer-metrics-store.ts:226-248 | likewise for loss samples, with the missing loss count filled in |
| MetricsStore.PeerMetricsStore.PrunePeer | apps/core/src/telemetry/peer-metrics-store.ts:350-362 | prunes the three lists by retention and counts what went |
| MetricsStore.PeerMetricsStore.Clear | apps/core/src/telemetry/peer-metrics-store.ts:281-284 | forgets every peer and the whole index |
| MetricsStore.PeerMetricsStore.CountByRoom | apps/core/src/telemetry/peer-metrics-store.ts:310-312 | the number of peers whose record names the room |
| WorkerPool.BoundedAndOrdered | apps/core/src/discovery/ping-probe.ts:41-60 | under every schedule indices are claimed once each and in order, at most min(concurrency, n) calls are in flight, no schedule exceeds n, and each stored result belongs to its item |
| WorkerPool.WorkersStayBusy | apps/core/src/discovery/ping-probe.ts:41-60 | under every schedule exactly min(concurrency, n) calls are in flight while items are left to call, and each completion brings at most one more call |
| WorkerPool.StopsAfterAll | apps/core/src/discovery/ping-probe.ts:49-55 | with a worker the run never gets stuck before n completions and stops after exactly n |
| WorkerPool.CompletesExactlyWhen | apps/core/src/discovery/ping-probe.ts:57-59 | a stopped run has every result in place exactly when concurrency is at least 1 or there is nothing to map |
| WorkerPool.MapWithConcurrency | apps/core/src/discovery/ping-probe.ts:41-60 | whichever pending call completes at each turn, the results are the mapper's in item order, and it is called once per index |
| Subnets.IpToLongIs | apps/core/src/discovery/network-interfaces.ts:4-6 | whatever sign the shifts give in between, the result is the base-256 number of the octets |
| Subnets.LongToIpReadsBack | apps/core/src/discovery/network-interfaces.ts:8-10 | the text of any number, negative ones included, is an address that reads back as the number modulo 2^32 |
| Subnets.AddressReadsBack | apps/core/src/discovery/network-interfaces.ts:4-10 | writing an address's number gives its text back exactly when no octet has superfluous zeros |
| Subnets.EnumerateHostAddresses | apps/core/src/discovery/network-interfaces.ts:58-77 | the signed loop collects the texts of the candidates between its bounds that are not excluded; for every mask /1 to /32 that is the ascending list of exactly the wanted addresses |
| Subnets.SignedBounds | apps/core/src/discovery/network-interfaces.ts:63-65 | for a prefix mask the signed operators give the first and last address of the block as signed numbers |
| Subnets.SubnetHosts | apps/core/src/discovery/network-interfaces.ts:58-77 | for every mask /1 to /32 the output is strictly ascending, free of duplicates, exactly the non-excluded addresses strictly between network and broadcast, and has 2^(32-p) - 2 - excluded elements (none for /31 and /32) |
| Subnets.SlashZeroIsEmpty | apps/core/src/discovery/network-interfaces.ts:63-69 | for /0 nothing is enumerated |
| Subnets.CoversUnlessSlashZero | apps/core/src/discovery/network-interfaces.ts:58-77 | all addresses strictly between network and broadcast are enumerated exactly when the prefix is at least 1 |
| Subnets.CidrOfPrefixMask | apps/core/src/discovery/network-interfaces.ts:12-17 | counting the ones in the octets' binary text gives the prefix length (section 3.1 of RFC 4632) |
| Subnets.PrivateBlocks | apps/core/src/discovery/network-interfaces.ts:19-31 | the octet tests hold exactly for the addresses of 10/8, 172.16/12 and 192.168/16 (section 3 of RFC 1918) |
| Labels.ParseUndoesFormat | apps/core/src/metrics/metric-labels.ts:93-105 | a Prometheus label parser recovers every printed set with pattern-valid names, whatever the values |
| Labels.FormatIsInjective | apps/core/src/metrics/metric-labels.ts:98-105 | two sets with pattern-valid names print the same only when they are equal |
| Labels.ParseValueOf | apps/core/src/metrics/metric-labels.ts:93-95 | reading an escaped value up to its quote undoes the escaping, whatever follows |
| LabelShapes.PrintedLast | apps/core/src/metrics/metric-labels.ts:98-105 | a label whose name comes after all others is printed last: a comma unless it is the only one, its name, its escaped value in quotes, and the brace; likewise in the internal key |
| LabelShapes.BeforeIsPrecedes | apps/core/src/metrics/metric-labels.ts:99-99 | the order of names is that of their first different code unit, a beginning coming first |
| LabelShapes.KeysAscend | apps/core/src/metrics/metric-labels.ts:99-99 | the sorted names are in that order |
| Labels.DeserializeLabels | apps/core/src/metrics/types.ts:181-196 | the loop computes the record of the pairs, splitting at the first equals sign |
| Labels.DeserializeUndoesSerialize | apps/core/src/metrics/types.ts:173-196 | a key reads back as its set exactly when no value holds a comma and no label is named `__proto__` |
| Labels.CommaFreeKeysAreDistinct | apps/core/src/metrics/types.ts:173-178 | comma-free sets share a key only when they are equal |
| Labels.SharesKeyExactlyWhen | apps/core/src/metrics/types.ts:173-178 | some other set over the same names has the same key exactly when a value holds a comma, the next name and an equals sign, or, not being the first, a comma, its own name and an equals sign |
| Labels.CommasCollide | apps/core/src/metrics/types.ts:173-178 | a witness: two different sets over the same names that share a key |
| Labels.LabelsEqualIsEquality | apps/core/src/metrics/types.ts:163-170 | comparing sorted names and values decides equality of the sets |
| Labels.SanitizeLabelName | apps/core/src/metrics/metric-labels.ts:69-81 | the result always matches the label name pattern and fits the length limit |
| LabelShapes.LabelNameIs | apps/core/src/metrics/types.ts:91-91 | a name matches the pattern exactly when it is not empty, does not begin with a digit, and has only letters, digits and underscores |
| LabelShapes.SanitizedNameIs | apps/core/src/metrics/metric-labels.ts:69-81 | every character of a sanitised name: kept or an underscore, one more underscore before a digit, 128 characters at most, "label" for a blank name |
| LabelShapes.NormalizedNameIs | apps/core/src/metrics/metric-labels.ts:26-54 | normalising trims, cuts a long name, keeps a reserved or valid one and sanitises any other |
| LabelShapes.SanitizedValueIs | apps/core/src/metrics/metric-labels.ts:84-90 | a value is trimmed and then cut to its first 256 characters |
| LabelShapes.TrimTakesBlanks | apps/core/src/metrics/metric-labels.ts:84-90 | trimming takes blanks, and only blanks, off both ends |
| LabelShapes.LastEntryCounts | apps/core/src/metrics/metric-labels.ts:235-243 | of the entries whose names normalise alike the last gives the value, and `__proto__` is never a label |
| Labels.NormalizeLabelSet | apps/core/src/metrics/metric-labels.ts:235-243 | the loop computes the record of normalised names and values, later ones overriding |
| Labels.NormalizedNameIsValid | apps/core/src/metrics/metric-labels.ts:26-54 | normalising gives a pattern-valid name exactly when the trimmed name is not blank and, if too long, begins validly; valid short names stay |
| Labels.NormalizedHasLabelNames | apps/core/src/metrics/metric-labels.ts:235-243 | a normalised set has only pattern-valid names exactly when every name was repairable, and its values fit the length limit |
| Labels.NormalizedPrintsBack | apps/core/src/metrics/metric-labels.ts:235-243 | arbitrary input with repairable names is normalised to a set that its printed form determines |
| Labels.BlankNameStays | apps/core/src/metrics/metric-labels.ts:26-30 | a blank name is normalised to the empty name |
| Jitter.ClosedForm | apps/core/src/telemetry/jitter-calculator.ts:124-140 | the recurrence of section 6.4.1 of RFC 3550 equals the decayed start plus the sum of abs(delta_i)/16 * (15/16)^(n-i) |
| Jitter.FreshJitter | apps/core/src/telemetry/jitter-calculator.ts:176-188 | from fresh state the jitter is that sum and lies between 0 and greatest minus least latency |
| Jitter.JitterNeverExceedsSpread | apps/core/src/telemetry/jitter-calculator.ts:33-57 | over any run of calls sharing the remembered jitter, no result exceeds the largest spread fed so far |
| Jitter.OwnJitterExactlyWhen | apps/core/src/telemetry/jitter-calculator.ts:124-140 | a call reports its own samples' jitter exactly when there are fewer than two or nothing but zero is remembered |
| Jitter.JitterCalculator.Compute | apps/core/src/telemetry/jitter-calculator.ts:33-57 | the statistics of the filtered latencies and the new remembered jitter; the reported jitter never exceeds the largest spread seen since the last reset |
| Measurements.LatencyCountsSample | apps/core/src/telemetry/jitter-calculator.ts:33-57 | one more sample changes nothing if it is older than the window or of another kind than asked for; otherwise it adds its round trip to count, mean and extremes, whenever it arrives |
| Measurements.OldestFirst | apps/core/src/telemetry/jitter-calculator.ts:158-173 | the samples used are exactly those that pass, oldest first, equally old ones in order of arrival |
| Measurements.RemembersLastResult | apps/core/src/telemetry/jitter-calculator.ts:124-140 | the calculator remembers what the last call with at least two samples returned |
| Jitter.JitterCalculator.ComputeRfc3550Jitter | apps/core/src/telemetry/jitter-calculator.ts:124-140 | the loop computes the recurrence; fewer than two samples give 0 and change nothing |
| Jitter.JitterCalculator.ComputePercentiles | apps/core/src/telemetry/jitter-calculator.ts:59-73 | the four percentiles of the latencies in the window |
| Jitter.JitterCalculator.ResetRfcState | apps/core/src/telemetry/jitter-calculator.ts:120-122 | forgets the remembered jitter |
| Jitter.PercentilesAreNearestRanks | apps/core/src/telemetry/jitter-calculator.ts:59-73 | p50, p90, p95 and p99 are nearest ranks, rise in that order, and do not depend on the order of the samples |
| Jitter.RoomLatencyIsPooled | apps/core/src/telemetry/jitter-calculator.ts:99-118 | aggregating what compute returns for each peer's raw samples gives the sample count and mean latency that compute gives for all raw samples pooled, window, kind filter and sort included |
| Measurements.RoomCountsPeer | apps/core/src/telemetry/jitter-calculator.ts:99-118 | one more peer enters the room's mean and jitter weighted by its samples, and its extremes as they are |
| Jitter.RoomJitterBounded | apps/core/src/telemetry/jitter-calculator.ts:104-108 | the room's weighted jitter stays within any bound on its peers' jitters |
| Jitter.RoomMinimumCountsSilentPeers | apps/core/src/telemetry/jitter-calculator.ts:110-113 | the room's least latency is the pooled least one, or 0 when some peer is silent and all latencies are positive |
| Sorting.SortIsStable | apps/core/src/telemetry/jitter-calculator.ts:163-172 | sorting keeps elements with equal keys in order |
| Sorting.SortAscends | apps/core/src/telemetry/jitter-calculator.ts:163-172 | sorting yields the same elements with ascending keys |
| Sorting.SortedIgnoresOrder | apps/core/src/telemetry/jitter-calculator.ts:65-65 | the sorted numbers do not depend on the order of the input |
| Sorting.PercentileIsNearestRank | apps/core/src/telemetry/jitter-calculator.ts:153-156 | for 0 < p <= 100 the result is the least sample v with 100 * #{x <= v} >= p * n |
| Sorting.PercentileMonotone | apps/core/src/telemetry/jitter-calculator.ts:153-156 | percentiles rise with the percentage, whatever the percentages are |
| PacketLoss.PacketLossTracker.Compute | apps/core/src/telemetry/packet-loss-tracker.ts:37-64 | the totals and loss rate of the samples in the window, and the empty statistics without any |
| Measurements.LossCountsSample | apps/core/src/telemetry/packet-loss-tracker.ts:37-64 | one more sample changes nothing if it is older than the window or of another kind than asked for; otherwise it adds its three counts, and the rate is what is lost of what is sent; no samples give the empty statistics |
| Measurements.SmoothingDecays | apps/core/src/telemetry/packet-loss-tracker.ts:66-84 | feeding one rate n times more leaves (1 - alpha)^n of the smoothed rate's distance to it |
| PacketLoss.PacketLossTracker.ComputeSmoothed | apps/core/src/telemetry/packet-loss-tracker.ts:66-84 | a non-empty window moves the smoothed rate, which stays within the rates fed since the last reset; an empty one changes nothing |
| PacketLoss.PacketLossTracker.ResetSmoothing | apps/core/src/telemetry/packet-loss-tracker.ts:183-185 | forgets the smoothed rate |
| PacketLoss.PacketLossTracker.ComputeWindows | apps/core/src/telemetry/packet-loss-tracker.ts:86-127 | the loop yields one window per bucket with that bucket's totals |
| PacketLoss.BucketsConserve | apps/core/src/telemetry/packet-loss-tracker.ts:86-127 | for any bucket count the windows' totals add up to the totals of the samples from the cutoff up to, not including, now - exactly when there is a bucket or nothing to count |
| Measurements.BucketCountsSample | apps/core/src/telemetry/packet-loss-tracker.ts:86-127 | bucket b of n spans its n-th share of the window, and one more sample counts in it exactly when it falls into that span |
| PacketLoss.LossRateOfValid | apps/core/src/telemetry/packet-loss-tracker.ts:44-53 | the loss rate of valid samples is the lost share of what was sent, and is at most 1 exactly when no more was lost than sent |
| PacketLoss.BucketRates | apps/core/src/telemetry/packet-loss-tracker.ts:86-127 | while no sample lost more than it sent every time bucket has a rate of at most 1; a sample that did, and sent something, is beyond 1 alone |
| PacketLoss.ValidSampleAboveOne | apps/core/src/telemetry/types.ts:278-289 | a sample that passes validation has a loss rate of 2 |
| PacketLoss.SmoothedWithin | apps/core/src/telemetry/packet-loss-tracker.ts:66-84 | over any run the smoothed rate stays between the least and the greatest rate fed |
| PacketLoss.RoomLossIsPooled | apps/core/src/telemetry/packet-loss-tracker.ts:154-177 | aggregating what compute returns for each peer's raw samples equals computing over all raw samples pooled, window and kind filter included |
| Throughput.BandwidthEstimator.EstimateRate | apps/core/src/telemetry/bandwidth-estimator.ts:73-94 | mean, peak, count and trend of the direction's rates in the window |
| Throughput.BandwidthEstimator.WeightedEstimate | apps/core/src/telemetry/bandwidth-estimator.ts:137-168 | the loop computes the recency-weighted mean, with peak, count and trend |
| Measurements.EstimateCountsSample | apps/core/src/telemetry/bandwidth-estimator.ts:73-94 | one more sample changes nothing if it is older than the window or serves another direction; otherwise it adds its bytes per second (0 without a positive interval) to count, mean and peak, and bits are 8 times bytes |
| Measurements.TrendExactlyWhen | apps/core/src/telemetry/bandwidth-estimator.ts:26-58 | with a threshold of at least 0 and enough rates the trend rises, or falls, exactly when the later half's mean is above, or below, the earlier one's by more than that share of it |
| Measurements.WeightOfEachRate | apps/core/src/telemetry/bandwidth-estimator.ts:137-168 | raising the i-th of n rates by d raises the weighted rate by d times 2 (i + 1) / (n (n + 1)) |
| Throughput.TrendHasWitness | apps/core/src/telemetry/bandwidth-estimator.ts:26-58 | with a threshold of at least 0, a rising trend has a later-half rate above an earlier-half one, and a falling trend one below, so rates that never fall are not reported as falling |
| Throughput.BandwidthEstimator.PercentileRate | apps/core/src/telemetry/bandwidth-estimator.ts:170-180 | the percentile of the direction's rates; the unclamped upper index never runs past the end |
| Throughput.PercentileRateIsNearestRank | apps/core/src/telemetry/bandwidth-estimator.ts:170-180 | for every percentage: the nearest rank after clamping to 100, the least rate at or below 0, rising with the percentage, and independent of sample order |
| Throughput.MeanRateBetween | apps/core/src/telemetry/bandwidth-estimator.ts:80-82 | the plain rate lies between the least and the peak rate |
| Throughput.WeightedRateBetween | apps/core/src/telemetry/bandwidth-estimator.ts:144-157 | the weights add up to (n + 1) / 2 and the weighted rate lies between the least and the peak rate |
| Quality.NormalizedWeightsSumToOne | apps/core/src/telemetry/types.ts:221-240 | normalised weights always add up to 1 and keep being non-negative |
| Scoring.WeightsAreShares | apps/core/src/telemetry/types.ts:221-240 | missing weights are the defaults, each weight becomes its share of their total, and a total not above 0 gives the defaults |
| Scoring.ComponentsAreExact | apps/core/src/telemetry/connection-quality-scorer.ts:120-166 | on ordered bounds the latency, jitter and loss scores have each of their five values on exactly its band; without samples they are 0, 0 and 50 |
| Scoring.DirectionIsOnLine | apps/core/src/telemetry/connection-quality-scorer.ts:193-204 | a direction scores 0 without a rate, 100 from its target, and otherwise the whole number nearest to the line through 30 at the minimum |
| Scoring.BandwidthIsExact | apps/core/src/telemetry/connection-quality-scorer.ts:168-191 | the bandwidth score is 0, the measured direction's, or the whole number nearest to 0.4 upload + 0.6 download |
| Scoring.ScoreIsExact | apps/core/src/telemetry/connection-quality-scorer.ts:64-109 | the score is the whole number nearest to the weighted sum of its components, cut to 0 and 100, and the grades begin at 90, 75, 55 and 30 |
| Quality.ClampNeverMatters | apps/core/src/telemetry/connection-quality-scorer.ts:88-109 | with non-negative weights the weighted score is a percentage already, so the clamp changes nothing |
| Quality.ScoreIsMonotone | apps/core/src/telemetry/connection-quality-scorer.ts:64-204 | with the same statistics present, more latency, jitter or loss or less bandwidth never raises score or grade, for all thresholds and through all rounding |
| Quality.DirectionRises | apps/core/src/telemetry/connection-quality-scorer.ts:193-204 | the direction score is a percentage and rises with the bitrate, whatever the two thresholds are |
| Quality.LosingLatencyNeverRaises | apps/core/src/telemetry/connection-quality-scorer.ts:120-150 | without latency measurements neither the weighted nor the rounded score is higher |
| Quality.LosingLossRaisesExactlyWhen | apps/core/src/telemetry/connection-quality-scorer.ts:152-166 | losing the loss measurements raises the weighted score exactly when the loss weight is positive and the loss above the fair threshold, and the rounded score exactly when the points gained reach the next rounding boundary |
| Quality.LosingUploadRaisesExactlyWhen | apps/core/src/telemetry/connection-quality-scorer.ts:168-191 | losing the upload raises the weighted score exactly when bandwidth counts, both directions are measured and the download scores at least two points more; likewise for the rounded score and the next boundary |
| Quality.LosingDownloadRaisesExactlyWhen | apps/core/src/telemetry/connection-quality-scorer.ts:168-191 | losing the download raises it exactly when bandwidth counts, both directions are measured and the upload scores at least one point more; likewise for the rounded score |
| Quality.WorstGrade | apps/core/src/telemetry/connection-quality-scorer.ts:214-226 | the least grade of the list, excellent for none |
| Quality.AverageBetween | apps/core/src/telemetry/connection-quality-scorer.ts:228-234 | the rounded average lies between any bounds on the scores |
| Scoring.AverageIsExact | apps/core/src/telemetry/connection-quality-scorer.ts:228-234 | the average is the whole number nearest to the sum of the scores over their number |
| Quality.MedianBetween | apps/core/src/telemetry/connection-quality-scorer.ts:236-246 | the rounded median lies between any bounds on the scores |
| Scoring.MedianIsMiddle | apps/core/src/telemetry/connection-quality-scorer.ts:236-246 | in ascending order the median is the middle score, or the mean of the two middle ones rounded half up |
| Quality.WorstIsLowest | apps/core/src/telemetry/room-metrics-aggregator.ts:183-185 | the worst score is at most the median and the average |
| Rooms.RoomIsConsistent | apps/core/src/telemetry/room-metrics-aggregator.ts:165-202 | in every aggregated room the grades add up to the peer count and worst is at most median and average |
| Rooms.RoomMetricsAggregator.BuildPeerMetrics | apps/core/src/telemetry/room-metrics-aggregator.ts:134-163 | one peer's metrics, computed with the jitter the shared calculator remembers, and never a jitter above the largest spread that calculator has seen |
| SnapshotContents.PeerCountsLatency | apps/core/src/telemetry/room-metrics-aggregator.ts:134-163 | one more latency sample of a record counts in its peer's latency if it is recent, and the jitter is that of the recent samples, oldest first, after what is remembered |
| SnapshotContents.PeerCountsBandwidth | apps/core/src/telemetry/room-metrics-aggregator.ts:134-163 | one more bandwidth sample counts in the peer's upload and download as it serves them, if it is recent, and changes nothing else but the score |
| SnapshotContents.PeerCountsLoss | apps/core/src/telemetry/room-metrics-aggregator.ts:134-163 | one more loss sample counts in the peer's loss if it is recent, and changes nothing else but the score |
| Rooms.RoomMetricsAggregator.AggregateRoom | apps/core/src/telemetry/room-metrics-aggregator.ts:63-69 | the metrics of the records that the store lists for the room, one calculator threaded through |
| Rooms.RoomMetricsAggregator.ComputeRoomMetrics | apps/core/src/telemetry/room-metrics-aggregator.ts:165-202 | the counting loop gives how many peers have each grade |
| SnapshotContents.RoomCountsMember | apps/core/src/telemetry/room-metrics-aggregator.ts:165-202 | one more peer adds itself, its bitrates and its grade to the room, to the active ones unless stale, and its latency and jitter weighted by its samples |
| SnapshotContents.RoomScoresAreExact | apps/core/src/telemetry/room-metrics-aggregator.ts:165-202 | a room's average, median and worst score are those of its peers, and its loss is what all of them lost of what all of them sent |
| SnapshotContents.RoomIdsInOrder | apps/core/src/telemetry/room-metrics-aggregator.ts:71-87 | room ids are distinct and stand in order of first appearance |
| Rooms.RoomMetricsAggregator.AggregateAllRooms | apps/core/src/telemetry/room-metrics-aggregator.ts:71-87 | one aggregation per distinct room id, in order of first appearance |
| Snapshots.AggregationConserves | apps/core/src/telemetry/room-metrics-aggregator.ts:71-106 | rooms are distinct, every peer's room is listed and each room counts its listed peers - exactly when the empty room id is not used beside another |
| Snapshots.AggregationListsAll | apps/core/src/telemetry/room-metrics-aggregator.ts:71-87 | with non-empty room ids the aggregation lists as many peers as the store holds records |
| Snapshots.CountsSumUp | apps/core/src/telemetry/snapshot-builder.ts:198-211 | if rooms are distinct and count their listed peers, the counts add up to the number of peers |
| Snapshots.BuildBalancesExactlyWhen | apps/core/src/telemetry/snapshot-builder.ts:41-80 | a built snapshot is balanced exactly when stale peers are left out, or the empty room id is not used beside another, or the room filter allows no record's room |
| SnapshotContents.SnapshotReports | apps/core/src/telemetry/snapshot-builder.ts:41-80 | a snapshot reports one by one and in order the records of the permitted rooms, and without stale peers only those updated within the threshold, each flagged as stale exactly when it was not |
| SnapshotContents.SnapshotCounts | apps/core/src/telemetry/snapshot-builder.ts:41-80 | with non-empty room ids the permitted rooms are listed in order of first appearance, each counting its fresh records as active and, unless stale peers are included, as all |
| SnapshotContents.SnapshotKeepsRooms | apps/core/src/telemetry/snapshot-builder.ts:58-73 | recounting touches nothing else of a room, and the snapshot carries its time and id |
| SnapshotContents.TotalsCountMember | apps/core/src/telemetry/snapshot-builder.ts:198-211 | the totals count rooms and peers, add up bitrates and average the scores |
| SnapshotContents.FilteredRoomsAreExact | apps/core/src/telemetry/snapshot-builder.ts:147-184 | filtering keeps the peers of at least the given score and the rooms that have one, counted and averaged by them |
| Snapshots.FilterBalances | apps/core/src/telemetry/snapshot-builder.ts:147-184 | filtering by quality yields a balanced snapshot, whatever the rooms counted before |
| Snapshots.SnapshotBuilder.Build | apps/core/src/telemetry/snapshot-builder.ts:41-80 | the counting loop and the filters build that snapshot, which is remembered, and is balanced under exactly that condition |
| Snapshots.SnapshotBuilder.FilterByMinimumQuality | apps/core/src/telemetry/snapshot-builder.ts:147-184 | the grouping loop keeps exactly the rooms that still have a peer |

## Left out

- mediasoup, Fastify, `ws`, Bonjour, DNS and `ping`: foreign. Router, transport, producer and consumer creation end in any order with a fresh id or a failure; `canConsume` answers arbitrarily.
- Sockets, peer ids, router ids and media ids are integers; peer ids and router ids are fresh, room ids of a join are non-empty as the message schema demands, and a closed socket never reopens.
- Wall clock and randomness: times and new ids are parameters; where a theorem needs a clock that never goes back it says so.
- Floating point: telemetry uses exact reals, and `Math.round` is the floor of x + 0.5.
- A room's peers are a map from peer id to display name, so the order of peer lists and of a broadcast over one room is not captured.
- A session object is an entry under its peer id in the service's tables, live or departed; aliasing of the object by a parked handler is what the departed table stands for.
- Error replies and replies other than `room.joined` and `media.produced` are not logged; message parsing is not modelled.
- The microtask between a mapped router's lookup and its use, in which no state is read, is not a step of its own.
- `media.connectWebRtcTransport` and `media.resumeConsumer`: they change no state of the model.
- `closeAll` and shutdown order: a run ends before shutdown.
- ProtocolTheorems.AtomicRunsCleanUp: media cleanup is stated for runs without overlapping handlers only, because a transport can be stored after `closeMedia` ran.
- MetricsStore.PeerMetricsStore.List: returns the stored values; that the source returns copies is not captured.
- MetricsStore.PeerMetricsStore.PrunePeer: pruning all peers at once is this method in a loop and is not modelled.
- RateLimiters.MultiRateLimiter.Check: namespaces are registered one by one; building the registry from a record of configurations is not modelled.
- WorkerPool.MapWithConcurrency: a mapper that rejects is not modelled; the mapper's result may depend on the call.
- Subnets.EnumerateHostAddresses: an address is four dot-separated decimal numbers below 256, as the operating system gives it; what the arithmetic makes of other text is not modelled.
- Labels.FormatIsInjective: strings are sequences of code points of the basic plane, each one code unit, so the sort order and the length limits are those of the source for such strings.
- Labels.NormalizeLabelSet: entries are given in the record's own order; `validateLabelSet` and its schema checks are not modelled.
- Jitter.JitterCalculator.Compute: the standard-deviation variant of the jitter and `computeTrend` are not modelled.
- Throughput.BandwidthEstimator.EstimateRate: the vote over trends in `aggregateEstimates` is not modelled.
- Dispatcher.SignalingDispatcher.RequestRouter: the capabilities and transport replies go to the requesting socket alone, no view depends on them, and they are not logged.
- Snapshots.SnapshotBuilder.Build: the rooms' quality distribution keeps counting stale peers, as in the source, so only the peer counts are conserved; `buildForRoom` keeps stale counts and is not modelled.
- `getLocalIPv4Networks`: it filters the operating system's interfaces with the modelled private-address test.
- Histogram export: it sums counts that are cumulative already, so the intended counts are not what it computes.
- Token signing, HMAC, JSON, audit log, event bus, webhooks, counters, gauges, registry, admin routes, policies, environment parsing and codecs: easy members or plumbing.
