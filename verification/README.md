# Towing platform: realtime fan-out and its neighbours, in Dafny

The backend runs as any number of identical API nodes. Every node subscribes to the same
Redis channels; every console socket is attached to exactly one node and sits in rooms
there. Positions, booking events and metrics travel over Redis and are relayed by each node
to its own sockets only. This project models that fan-out, proves what each operation, each
node and the whole cluster keep, and follows a position to the marker on a fleet console.
Beside it stand the smaller protocols the same code base depends on.

| file | what it models |
|---|---|
| `Coalesce`, `Batcher` | newest-wins buffering between two flushes; the nested-map batcher refines it |
| `FleetRelay`, `Positions`, `Console`, `FleetCluster` | the fleet path: batch, local relay, REST snapshot, cache patch, end to end, and N nodes reading two channels and redeeming tickets |
| `AdminNamespace`, `AdminRelay`, `AdminBridge`, `AdminCluster` | the `/admin` namespace: rooms, zone routing, event bridge, and N nodes reading three channels and redeeming tickets |
| `ActivityFeed` | the 50-row activity list shared by all nodes |
| `TokenRefresh`, `ProxyPath` | single-flight token refresh, the proxy's response, its path guard against the URL parser's reading |
| `Migration` | stepwise against one-shot migration |
| `BookingAdvance`, `Tickets`, `Broadcasters`, `QueryTiming` | optimistic booking advance, single-use tickets, debounced broadcasters, once-only query timing |
| `Address`, `Clock` | the two text cores of the customer app |
| `Options`, `Slices`, `FirstOccurrence`, `JsMap`, `JsText` | shared vocabulary: order of first occurrence, a map that iterates in it, `split`/`trim`/`join` |

`dafny verify dfyconfig.toml` checks the whole project.

## How to read it

Objects with mutable fields are classes (`LocationBatcher`, `RealtimeRelay`, `AdminGateway`,
`AdminLocationRelay`, `AdminBridgeService`); each method equates the new state with a
specification function and says, field by field, what that function means; the lemmas prove
more about it. A protocol that runs
across awaits is a state machine: code between two awaits is one step, `After(steps)` is the
state after an arbitrary run, and a theorem about `After(steps)` holds in every reachable
state under every interleaving. The steps of `AdminCluster` and `FleetCluster` are the
specification functions the class methods were proved against; redeeming a ticket at the
handshake and handling the connection are two steps, as they are in the gateways.

## What turned out to be false, and when it holds

- *A marker never moves backwards.* The batcher forgets its timestamps when it drains, so a
  late ping is dropped within a window only. `Console.AMarkerStepsBack` shows the step back;
  `Console.StepsBackIff` says exactly when the next flush causes one: the truck pinged in
  that window, and only with timestamps older than the one shown.
- *Nothing is published after destroy.* The admin broadcaster issues its second publish
  after an await without looking again. `Broadcasters.LateIff` says exactly which runs
  publish late: those that resume a recompute which still has a publish to issue after the
  destroy of its node. `Broadcasters.LateRunIsLate` is such a run of the admin broadcaster;
  the fleet one has none (`Broadcasters.FleetIsNeverLate`).
- *The proxy's guard keeps a request under its prefix.* The guard splits at `/`; `fetch`
  reads the joined text by the URL Standard, where `\` separates too, `%2e` is a dot, tabs
  and newlines vanish and spaces at the end are dropped. `ProxyPath.ABackslashClimbs` is an
  input that passes and leaves the prefix. `ProxyPath.StaysUnderIff` and
  `ProxyPath.StaysUnderEveryPrefixIff` say exactly which requests that pass stay inside, by
  counting double dots against names in the parser's pieces, and `ProxyPath.PlainRequestsAreExact` gives the
  characters on which the guard is enough.
- *A revoked admin is out.* A revoke drops sockets; it does not touch tickets, and the
  handshake does not ask about it. `AdminCluster.ARevokedAdminComesBack` is a run in which the
  admin comes in again; `AdminCluster.ComesInIff` says exactly when: the ticket shown is live
  and was issued to that admin, whatever revokes have been read.
- *A rotated session reaches the browser.* `TokenRefresh.ProxyOutcome`: a rotation obtained is
  lost if and only if the second send meets a network error; `TokenRefresh.ARotationIsLost` is
  the run.
- *An activity row is appended once cluster-wide.* The marker lives 60 s.
  `ActivityFeed.PushedOnceIff`: one winner if and only if every node asks within 60 s of the
  first; `ActivityFeed.ASlowNodePushesAgain` is the run in which one does not.
- *One-shot migration ends where stepwise migration does.* `Migration.OneShotIff`: it
  succeeds if and only if stepwise migration does and no pending entry uses an enum value
  that an earlier pending entry adds anew. `Migration.OneShotRefusesLockout` is the pair of
  entries the source itself names.
- *Rejoining the two lines of an address keeps its parts.* `Address.RejoinKeepsPartsIff`: if
  and only if the only part is not the lone dash that means "missing"; `Address.TheDashIsLost`
  is the text for which it fails. With the separator always written there is no exception.

Where comments and code disagree the code is followed. `admin-bridge.service.ts:44` speaks of
two kinds of event in the activity list; the code appends SOS alerts as well.
`migrate-stepwise.ts:20` says each call finds exactly one pending migration; on a database
that is already part of the way it finds none for the entries already applied, so the bound
proved is "at most one". With an empty truck list the snapshot is not `degraded` even when
Redis is down, because nothing is read.

## Assumptions

- Redis executes one command at a time. `SET NX PX ttl` at time t holds until t + ttl.
  A published message reaches every subscribed node once and in channel order; a node may
  lag behind by any amount. Messages lost while a subscriber reconnects are not modelled.
- Socket.io: `.local` reaches the node's own sockets, chained `.to()` is a union, `.except()`
  removes a room's members, a disconnected socket leaves its rooms. Socket ids are fresh: a
  socket is known by its seat at the handshake, and its connection is handled at most once.
- Nodes and Redis share one clock; a timer fires no sooner than it is due.
- Zod schemas are well-formedness: an input is given as `Some(parsed)` or `None`.
  `JSON.parse` inverts `JSON.stringify`. Ticket strings are fresh. SHA-1 of an activity id is
  taken to be injective, so markers are keyed by the id itself: kind, subject and time, which
  the text `kind:subject:at` tells apart because the subjects are UUIDs.
- The proxy's prefix (`<base path>/v1/<realm>`) has no query and no fragment; the browser's
  query is empty or starts with `?`, where `ProxyPath.PlainRequestsAreExact` needs it.
- Timestamps are integer milliseconds; ISO text is not modelled, nor an invalid one, whose
  comparison would be false. `emittedAt` and every other clock reading is a parameter.
- Drizzle's `migrate` is taken as `migrate-stepwise.ts:13-23` describes it: all pending
  entries of the given journal in one transaction. Postgres refuses an enum value in the
  transaction that added it.
- In `BookingAdvance` the other actors write a history row with each status and verify the
  code when they start a trip; which moves they make is a parameter.
- Lower-casing is any function applied character by character; minute shifts are integers.

## Model

| member | source | states |
|---|---|---|
| `Coalesce.WindowHoldsNewest` | apps/backend/src/realtime/location-batcher.ts:42-52 | For every arrival sequence the buffer holds exactly the keys that pinged, each with a ping no other of its key beats: greatest timestamp, latest arrival on ties |
| `Coalesce.WindowIsNewest` | apps/backend/src/realtime/location-batcher.ts:46-51 | Conversely the newest ping of a key is what is buffered, so the buffer is determined by the window |
| `Coalesce.WindowOrder` | apps/backend/src/realtime/location-batcher.ts:63-70 | Iteration is in order of first ping, whatever was replaced later |
| `Coalesce.WindowBag` | apps/backend/src/realtime/location-batcher.ts:51-70 | A drained window holds no more copies of a ping than arrived |
| `Coalesce.WindowCounts` | apps/backend/src/realtime/location-batcher.ts:42-70 | A window hands out each newest ping once, and nothing else |
| `Coalesce.Fate` | apps/backend/src/realtime/location-batcher.ts:42-52 | Whether an arrival is dropped, replaces or opens an entry is decided by the arrival history alone |
| `Coalesce.Conservation` | apps/backend/src/realtime/admin-location-relay.service.ts:95-100 | Over one key space, as the admin relay buffers: arrivals = buffered entries + superseded pings + pings dropped as late |
| `Batcher.AcceptRefines` | apps/backend/src/realtime/location-batcher.ts:36-52 | One accept on the nested map keeps it the per-fleet coalesced history, for every fleet at once; nothing lands under another fleet and no inner map is empty |
| `Batcher.LocationBatcher.Accept` | apps/backend/src/realtime/location-batcher.ts:27-53 | Accepts exactly the well-formed pings, extends the window by them, and counts exactly those a strictly newer ping of the same truck and fleet preceded; a malformed one changes nothing |
| `Batcher.LocationBatcher.TakeDroppedCount` | apps/backend/src/realtime/location-batcher.ts:56-60 | Returns the late count since the last read and resets it, leaving the buffer alone |
| `Batcher.LocationBatcher.Drain` | apps/backend/src/realtime/location-batcher.ts:63-70 | One batch for exactly the fleets that pinged, in the order in which they first did, each the coalesced window of that fleet's own pings; a new window starts |
| `Batcher.BatchesAreConserved` | apps/backend/src/realtime/location-batcher.ts:36-52 | All fleets at once, for every buffer the batcher can hold: accepted pings = entries over all inner maps + replaced + dropped as late |
| `Batcher.LocationBatcher.Store` | apps/backend/src/realtime/location-batcher.ts:36-52 | Creating the inner map on demand and setting into it is one coalescing step on that fleet's map, listing a new fleet last; the counter moves exactly when a newer ping is buffered |
| `FleetRelay.RealtimeRelay.OnLocationPing` | apps/backend/src/realtime/realtime-relay.service.ts:57-64 | A ping either joins the window or counts as malformed |
| `FleetRelay.RealtimeRelay.OnFleetEvent` | apps/backend/src/realtime/realtime-relay.service.ts:81-95 | Each local socket gains one frame with the event's booking id, status and time if it is a well-formed `booking_status` for its fleet, otherwise nothing |
| `FleetRelay.RealtimeRelay.Flush` | apps/backend/src/realtime/realtime-relay.service.ts:97-120 | Every local socket gains one frame of this flush, with each of its own fleet's trucks' newest pings once, or nothing when its fleet did not ping; the window is emptied; the count reported is that of the late pings of this very window, and window size = pinging trucks + replaced + reported; after destroy nothing happens |
| `FleetRelay.RealtimeRelay.EmitBatches` | apps/backend/src/realtime/realtime-relay.service.ts:108-114 | The loop, skipping rooms nobody sits in, delivers each fleet's batch to that fleet's sockets, each socket once |
| `FleetRelay.RealtimeRelay.RelayLocal` | apps/backend/src/realtime/fleet.gateway.ts:112-118 | Each local socket's inbox grows by one frame if it is of the fleet and by none otherwise |
| `FleetRelay.RealtimeRelay.LocalRoomSize` | apps/backend/src/realtime/fleet.gateway.ts:99-101 | The number of local sockets of the fleet, zero exactly when there is none |
| `FleetRelay.RealtimeRelay.HandleConnection` | apps/backend/src/realtime/fleet.gateway.ts:77-92 | A socket with a tenant sits in that tenant's room and is greeted; one without is not there; no other socket changes |
| `FleetRelay.LocalCopies` | apps/backend/src/realtime/fleet.gateway.ts:112-118 | With `.local`, a socket of the fleet has one copy per time its own node handled the message |
| `FleetRelay.AcrossCopies` | apps/backend/src/realtime/fleet.gateway.ts:127-133 | Without it, one copy per time any node handled it |
| `FleetRelay.OneCopyPerSocket` | apps/backend/src/realtime/fleet.gateway.ts:103-133 | N nodes, any placement, any handling order: exactly one copy for each socket of the fleet with `.local`, N without, none for other fleets |
| `Positions.TrucksFor` | apps/backend/src/realtime/positions.repo.ts:81-100 | One row per truck in first-occurrence order: the first row with an active booking, else the last row; no truck left out |
| `Positions.ReadHot` | apps/backend/src/realtime/positions.service.ts:56-96 | The result has exactly the listed trucks whose hash has a timestamp and both coordinates, each with that hash's own fields, and `expired` is exactly the listed trucks without a timestamp |
| `Positions.TakeSnapshot` | apps/backend/src/realtime/positions.service.ts:24-50 | For every join result and every Redis state, reachable or not, one marker per deduplicated truck in their order: identity and leg from its row, position field by field from its hash where that is hot and from its row, standing still, elsewhere; with the zones and the time; degraded exactly when Redis fails and there was a truck to read |
| `Positions.OtherKeysDoNotMatter` | apps/backend/src/realtime/positions.service.ts:52-61 | Two Redis states that agree on the listed trucks give the same positions, and no Redis state changes an identity field |
| `Console.OnLocationUpdate` | deploy-output/src/features/realtime/RealtimeProvider.tsx:63-88 | On one marker per truck, a marker no ping of the batch mentions is untouched and any other shows, field by field, the last ping that does, under the same identity; the rest of the snapshot is left alone; without a snapshot the batch is dropped |
| `Console.PatchIsPointwise` | deploy-output/src/features/realtime/RealtimeProvider.tsx:70-86 | On one marker per truck the map-based patch keeps trucks, order and identities, and shows field by field the last ping of the batch for each truck it mentions |
| `Console.BatchCarriesNewest` | apps/backend/src/realtime/location-batcher.ts:42-70 | A drained batch says of a truck its newest ping of the window, or nothing |
| `Console.EndToEnd` | apps/backend/src/realtime/realtime-relay.service.ts:97-114 | Over any number of windows every marker keeps its place and identity, an unmentioned truck is untouched, every other shows latitude, longitude, heading, speed and time of the newest ping of the last window that mentioned it |
| `Console.InboxGrows` | apps/backend/src/realtime/realtime-relay.service.ts:108-114 | Flush by flush a socket receives its own fleet's frames, in order, and nothing else |
| `Console.FramesShow` | deploy-output/src/features/realtime/RealtimeProvider.tsx:63-88 | Applying the received frames in order gives what the windows owe the console |
| `Console.SnapshotIsPatchable` | apps/backend/src/realtime/positions.service.ts:44-49 | A snapshot has one marker per truck whatever Redis holds, which the patch relies on |
| `Console.EveryConsole` | apps/backend/src/realtime/realtime-relay.service.ts:97-114 | The whole path: join rows, snapshot, any run of windows, relay, patch; every console of every fleet shows for each listed truck what those windows owe it |
| `FleetCluster.Reachable` | apps/backend/src/realtime/fleet.gateway.ts:55-118 | The invariant of the fleet side holds after every run of publishes, reads, flushes, ticket issues and redemptions, connects and disconnects on any number of nodes |
| `FleetCluster.EveryFleetSocket` | apps/backend/src/realtime/fleet.gateway.ts:103-118 | In every reachable state each console is on one node, let in by a ticket of its own tenant that nobody else used; its inbox is its greeting and then, in order, one frame for each event its node read since it connected that is for its fleet and one for each flush in which its fleet pinged, and nothing else; the flushed windows are successive stretches of what was published |
| `FleetCluster.LeavesIff` | apps/backend/src/realtime/fleet.gateway.ts:94-96 | In every reachable state nothing but its own disconnect ends a console's socket |
| `FleetCluster.ReplayShows` | deploy-output/src/features/realtime/RealtimeProvider.tsx:63-88 | Applying what a socket received to any snapshot, booking frames among it, shows what the flushed windows show |
| `FleetCluster.EveryConsoleShowsPublished` | apps/backend/src/realtime/realtime-relay.service.ts:57-120 | In every reachable state a console that loaded a snapshot at any point since it connected shows, for every listed truck, the newest ping of the last flushed stretch of the published pings in which that truck pinged its fleet, and the snapshot where there is none |
| `Console.StepsBackIff` | apps/backend/src/realtime/location-batcher.ts:43-70 | A flush moves a marker back in time if and only if its truck pinged in that window and only with older timestamps |
| `Console.AMarkerStepsBack` | apps/backend/src/realtime/location-batcher.ts:63-70 | Two one-ping windows in the wrong order do move it back |
| `AdminNamespace.NamesAreInjective` | packages/api-contracts/src/admin/realtime.ts:23-30 | Different rooms have different names for all ids, the gateway's own room included |
| `AdminNamespace.SubscribedInPlace` | apps/backend/src/realtime/admin.gateway.ts:121-156 | Any subscribe, malformed or not, leaves the socket in exactly its handshake rooms, its recorded filter rooms, and the zone-filtered room if and only if one of those is a zone |
| `AdminNamespace.Resubscribed` | apps/backend/src/realtime/admin.gateway.ts:130-153 | Leaving the recorded rooms and joining the new ones loses no handshake room and keeps no room of the old filter |
| `AdminNamespace.RoomsAre` | apps/backend/src/realtime/admin.gateway.ts:99-153 | Room by room: ops and its own room always, the room of exactly the zones its filter names, of the booking it names by a non-empty id, and the zone-filtered room if and only if it names a zone |
| `AdminNamespace.AdminGateway.HandleConnection` | apps/backend/src/realtime/admin.gateway.ts:92-110 | A socket with an admin id sits in exactly the ops room and its own room and is greeted with id, sub-role and time; one without is not there; no other socket changes |
| `AdminNamespace.AdminGateway.HandleSubscribe` | apps/backend/src/realtime/admin.gateway.ts:121-156 | The leave and join loops put the one socket in exactly the rooms its new filter names, room by room, and touch no other; a malformed payload changes nothing and is answered with false |
| `AdminNamespace.AdminGateway.HandleDisconnect` | apps/backend/src/realtime/admin.gateway.ts:112-114 | Every room loses exactly this socket; the other sockets keep rooms and inbox |
| `AdminNamespace.AdminGateway.LocalOpsSize` | apps/backend/src/realtime/admin.gateway.ts:159-161 | The number of local sockets in the ops room, zero exactly when there is none |
| `AdminNamespace.AdminGateway.LocalFilteredSize` | apps/backend/src/realtime/admin.gateway.ts:164-166 | The number of local sockets that filter by zone, zero exactly when there is none |
| `AdminNamespace.AdminGateway.EmitOps` | apps/backend/src/realtime/admin.gateway.ts:169-176 | Each socket's inbox grows by one copy if it is in the ops room and by none otherwise |
| `AdminNamespace.AdminGateway.EmitOpsUnfiltered` | apps/backend/src/realtime/admin.gateway.ts:184-192 | Each socket's inbox grows by one copy if it is in the ops room and not zone-filtered, and by none otherwise |
| `AdminNamespace.AdminGateway.EmitZone` | apps/backend/src/realtime/admin.gateway.ts:195-203 | Each socket's inbox grows by one copy if it is in the zone's room and by none otherwise |
| `AdminNamespace.AdminGateway.EmitRooms` | apps/backend/src/realtime/admin.gateway.ts:211-221 | Each socket's inbox grows by one copy if it is in at least one of the rooms, however many, and by none otherwise |
| `AdminNamespace.AdminGateway.DropLocalAdmin` | apps/backend/src/realtime/admin.gateway.ts:229-234 | Exactly the sockets of that admin id are dropped, the others unchanged, and their number is returned |
| `AdminNamespace.Evicted` | apps/backend/src/realtime/admin.gateway.ts:230-232 | Dropping the members of the admin's room leaves exactly the other sockets, and nothing changes when the room is empty |
| `AdminRelay.ChunksCarry` | apps/backend/src/realtime/admin-location-relay.service.ts:124-129 | Chunking loses, repeats and reorders nothing; frames are non-empty and at most 500 |
| `AdminRelay.GroupByZone` | apps/backend/src/realtime/admin-location-relay.service.ts:143-149 | There is a group for exactly the non-empty zone ids the batch names, in first-seen order, and it holds exactly the positions that name it, as often as listed |
| `AdminRelay.ZoneFramesCarry` | apps/backend/src/realtime/admin-location-relay.service.ts:151-158 | The zone frames carry each position that names one of the joined zones by a non-empty id as often as it is listed, and no other |
| `AdminRelay.FlushIsExact` | apps/backend/src/realtime/admin-location-relay.service.ts:133-165 | Exactly-once: for any socket in its proper rooms the frames of one flush carry a position as often as it was buffered if the socket is in no zone room or in that of the position's own non-empty zone id, and not at all otherwise; in frames of 1 to 500 |
| `AdminRelay.FastPathRefines` | apps/backend/src/realtime/admin-location-relay.service.ts:120-131 | With nobody filtering, the single broadcast equals the zone-routed flush, socket by socket |
| `AdminRelay.RouteThenBroadcast` | apps/backend/src/realtime/admin-location-relay.service.ts:151-165 | Routing all zone groups and then broadcasting except to the filtered is the specified flush |
| `AdminRelay.AdminLocationRelay.OnDriverPing` | apps/backend/src/realtime/admin-location-relay.service.ts:74-101 | Keeps the buffer equal to the coalesced window; a malformed ping only counts |
| `AdminRelay.AdminLocationRelay.EmitChunked` | apps/backend/src/realtime/admin-location-relay.service.ts:160-165 | The offset loop emits exactly the chunks of the group, in order, to its target |
| `AdminRelay.AdminLocationRelay.EmitRouted` | apps/backend/src/realtime/admin-location-relay.service.ts:143-165 | The grouping and both emit loops together give each socket exactly what its rooms and the positions' zone ids call for |
| `AdminRelay.AdminLocationRelay.EmitBatch` | apps/backend/src/realtime/admin-location-relay.service.ts:118-165 | Whichever path is taken, each socket gains exactly what its rooms and the positions' zone ids call for |
| `AdminRelay.AdminLocationRelay.Flush` | apps/backend/src/realtime/admin-location-relay.service.ts:103-171 | On all four paths (destroyed, nobody there, fast, routed): unless destroyed, each socket gains each driver's newest ping of the window once if its rooms admit it and nothing else, and the window is empty |
| `AdminBridge.UnionReachesAllOnce` | apps/backend/src/realtime/admin-bridge.service.ts:165-185 | Any union containing the ops room reaches every operator in place, exactly once, whatever its filters |
| `AdminBridge.AdminBridgeService.OnOpsEvent` | apps/backend/src/realtime/admin-bridge.service.ts:70-163 | Every well-formed event gives every local operator one frame that says, field by field, what the event says, a malformed one none; domain events and alerts, and only they, start an activity row with the event's own fields |
| `AdminBridge.AdminBridgeService.EmitBookingFrame` | apps/backend/src/realtime/admin-bridge.service.ts:166-185 | The union of ops, zone and booking rooms is one copy to every local operator |
| `AdminBridge.AdminBridgeService.OnAdminRevoke` | apps/backend/src/realtime/admin-bridge.service.ts:211-222 | A well-formed revoke drops exactly the sockets of that admin id and changes no other; anything else changes nothing |
| `AdminCluster.Reachable` | apps/backend/src/realtime/admin.gateway.ts:73-234 | The cluster invariant holds after every run of publishes, reads, flushes, ticket issues and redemptions, connects, subscribes, disconnects and revokes on any number of nodes |
| `AdminCluster.EveryOperator` | apps/backend/src/realtime/admin-bridge.service.ts:26-53 | In every reachable state each operator is on one node; its event frames report, one by one, in order and field by field, the well-formed events its node read since it connected; no revoke read since named it; and it holds each position exactly as often as there were flushes since it connected in whose pings it was its driver's newest and whose granted filter named its zone or none, over successive stretches of the published pings |
| `AdminCluster.OnlyEarnedRooms` | apps/backend/src/realtime/admin.gateway.ts:73-156 | In every reachable state each operator socket sits in exactly the rooms, room by room, that the admin its own ticket was issued to belongs in under the last filter the schema accepted from it, and no other socket in the cluster got in with that ticket |
| `AdminCluster.LeavesIff` | apps/backend/src/realtime/admin-bridge.service.ts:211-222 | In every reachable state exactly two things end an operator's socket: its own disconnect, and its node reading a revoke of its own admin |
| `AdminCluster.ComesInIff` | apps/backend/src/realtime/admin.gateway.ts:73-110 | After any run, and whatever revokes were read, showing a ticket and connecting puts a socket of an admin on the node if and only if the ticket is live, was issued to that admin, and the store answered |
| `AdminCluster.ARevokedAdminComesBack` | apps/backend/src/realtime/admin-bridge.service.ts:211-222 | An admin whose revoke has been read comes in with a ticket issued before it |
| `AdminCluster.FlushKeepsPromise` | apps/backend/src/realtime/admin-location-relay.service.ts:107-165 | A flush of a coalesced window appends to a socket's inbox each driver's newest position that the granted filter admits, once, and changes nothing else of it |
| `AdminCluster.FlushDeliversTheWindow` | apps/backend/src/realtime/admin-location-relay.service.ts:103-165 | In every reachable state a flush gives every operator of the node exactly the newest position of each driver heard since the last flush whose zone its granted filter names, or all of them without a zone filter, empties the buffer, and leaves all other nodes alone |
| `ActivityFeed.ListReachable` | apps/backend/src/realtime/admin-bridge.service.ts:200-203 | The list invariant survives every interleaving of pipelined pushes and trims, failures included |
| `ActivityFeed.FeedIsNewest` | apps/backend/src/realtime/admin-bridge.service.ts:200-203 | The list is always a prefix of the newest-first push history, shorter than 50 only when it is all of it, over 50 by at most the untrimmed pushes, and exactly the newest 50 when none is untrimmed |
| `ActivityFeed.OnceReachable` | apps/backend/src/realtime/admin-bridge.service.ts:194-203 | Every marker won is a push done, to come, or lost, in every reachable state |
| `ActivityFeed.OneWinIff` | apps/backend/src/realtime/admin-bridge.service.ts:196-198 | The first ask wins; it is the only win if and only if all asks fall within the marker's life |
| `ActivityFeed.PushedOnceIff` | apps/backend/src/realtime/admin-bridge.service.ts:187-203 | An event id is pushed at most once per win, and once no winner is between winning and pushing or lost there, exactly once if and only if all nodes asked within 60 s of the first |
| `ActivityFeed.ASlowNodePushesAgain` | apps/backend/src/realtime/admin-bridge.service.ts:197-197 | A node a minute late pushes the event a second time |
| `TokenRefresh.SingleFlight` | apps/towfleet-web/src/lib/refreshingUpstream.ts:23-56 | Under every interleaving at most one refresh per token is outstanding: when a second exists the first was answered and cleaned up |
| `TokenRefresh.RefreshesIff` | apps/towfleet-web/src/lib/refreshingUpstream.ts:29-50 | A request with a 401 goes upstream if and only if every earlier refresh with its token was cleaned up |
| `TokenRefresh.CleanupRemovesItsOwn` | apps/towfleet-web/src/lib/refreshingUpstream.ts:50-55 | The delete finds the initiator's own attempt in the map and removes that entry only; every other attempt not yet cleaned up is still found under its token |
| `TokenRefresh.JoinersShareTheResult` | apps/towfleet-web/src/lib/refreshingUpstream.ts:25-56 | Every finished request that joined an attempt ended as that attempt's result says, and the attempt was for its own token |
| `TokenRefresh.ProxyOutcome` | apps/towfleet-web/src/lib/createProxyHandler.ts:90-123 | For every finished request: at most two sends, each with the request's own url, method and body, the second with the rotated token; the response has the status of the last answered send, 401 when nothing was sent and 500 when a send was not answered; cookies cleared if and only if the first send drew a 401 and no rotation was obtained; rewritten only with the rotation obtained; a rotation obtained is not written if and only if the second send met a network error |
| `TokenRefresh.RotationIff` | apps/towfleet-web/src/lib/refreshingUpstream.ts:40-47 | An answer gives a rotation exactly when it is a success with both tokens non-empty, and then those tokens |
| `TokenRefresh.ARotationIsLost` | apps/towfleet-web/src/lib/refreshingUpstream.ts:106-112 | A 401, a rotation and then a network error leave the browser with the spent token |
| `ProxyPath.SplitOfPath` | apps/towfleet-web/src/lib/createProxyHandler.ts:54-63 | The joined path, split at "/", falls apart into the pieces of its segments |
| `ProxyPath.GuardSeesThePath` | apps/towfleet-web/src/lib/createProxyHandler.ts:54-63 | A request passes if and only if the joined path, split at "/", has no "..", "." or empty part; the empty list of segments passes |
| `ProxyPath.DotSegments` | apps/towfleet-web/src/lib/createProxyHandler.ts:45-53 | As the URL parser reads it, a piece goes up if and only if it is two dots, each plain or percent-encoded in either case, and stays if and only if it is one |
| `ProxyPath.StripsTheEnd` | apps/towfleet-web/src/lib/createProxyHandler.ts:45-53 | Exactly the control characters and spaces after the last other character are dropped from the end |
| `ProxyPath.TabsVanish` | apps/towfleet-web/src/lib/createProxyHandler.ts:45-53 | Tabs and newlines vanish wherever they stand, and nothing else does |
| `ProxyPath.EndsAtMark` | apps/towfleet-web/src/lib/createProxyHandler.ts:45-53 | The path has no query or fragment mark in it and ends early only before one |
| `ProxyPath.ResolveEnds` | apps/towfleet-web/src/lib/createProxyHandler.ts:45-53 | A path that ends in a dot segment ends in an empty name, any other in its last piece |
| `ProxyPath.WalkSplits` | apps/towfleet-web/src/lib/createProxyHandler.ts:45-53 | Reading pieces after a prefix drops as many of its names as the pieces climb and adds what they would leave on their own |
| `ProxyPath.ClimbIsMost` | apps/towfleet-web/src/lib/createProxyHandler.ts:45-53 | How far pieces climb is the greatest excess of double dots over names of any beginning of them |
| `ProxyPath.StaysUnderIff` | apps/towfleet-web/src/lib/createProxyHandler.ts:42-63 | A request that passes the guard stays under a given prefix, as the URL parser reads it, if and only if its path on its own begins with the very names of the prefix it climbs past |
| `ProxyPath.StaysUnderEveryPrefixIff` | apps/towfleet-web/src/lib/createProxyHandler.ts:42-63 | It stays under every prefix if and only if no beginning of the parser's pieces has more double dots, plain or encoded, than names |
| `ProxyPath.ABackslashClimbs` | apps/towfleet-web/src/lib/createProxyHandler.ts:54-63 | A segment with a backslash after ".." passes the guard and resolves one level above the prefix |
| `ProxyPath.PlainRequestsAreExact` | apps/towfleet-web/src/lib/refreshingUpstream.ts:91-95 | On segments without backslash, percent, query, fragment, space or control characters, what passes the guard is requested under the prefix exactly as joined, piece by piece |
| `Migration.MigrateStepwise` | apps/backend/src/db/migrate-stepwise.ts:25-48 | From any point of the journal the loop over growing prefixes is one-entry-per-transaction migration: it leaves a longer beginning of the journal applied, whole exactly when it succeeds, with the schema those entries' SQL makes and the enum values they add; no call's transaction holds more than one entry; it stops at the first failure |
| `Migration.LeavesBehind` | apps/backend/src/db/migrate-stepwise.ts:36-44 | What is left behind in the entries' own terms, and why it stopped there: the next entry uses an enum value that is not there, or its SQL fails |
| `Migration.TransactIff` | apps/backend/src/db/migrate-stepwise.ts:13-18 | One transaction succeeds if and only if the entries succeed one by one and none uses a value new to the transaction, and then leaves the same database |
| `Migration.OneShotIff` | apps/backend/src/db/migrate-stepwise.ts:10-24 | One-shot succeeds if and only if stepwise does and no pending entry uses an enum value an earlier pending one adds anew; then the databases are equal with the whole journal applied; on failure nothing changed |
| `Migration.OneShotRefusesLockout` | apps/backend/src/db/migrate-stepwise.ts:13-18 | With the entry that adds `lockout` and the one that uses it both pending, one-shot fails and changes nothing, stepwise applies both |
| `Migration.StepwiseResumes` | apps/backend/src/db/migrate-stepwise.ts:36-44 | A failure leaves exactly the entries before it applied, in order; a run after success changes nothing, and one after a failure stops at the same entry |
| `Migration.FirstFailure` | apps/backend/src/db/migrate-stepwise.ts:36-44 | The entry after the last applied one is the one that fails, on the database left behind |
| `BookingAdvance.HistoriesFollow` | apps/backend/src/scripts/simulate-locations.ts:401-465 | With any number of simulators among actors keeping a rule, every consecutive pair of every history keeps any rule covering both; the last row is the status; a code is verified exactly when the booking was ever in progress |
| `BookingAdvance.SimulatorsStayLegal` | apps/backend/src/modules/bookings/booking-state-machine.service.ts:122-160 | Among actors who obey the booking state machine, every booking stays on a legal path of it |
| `BookingAdvance.SimulatorsMoveForward` | apps/backend/src/scripts/simulate-locations.ts:91-99 | Among actors who only move forward, no booking's rank ever decreases |
| `BookingAdvance.HistoryIsAccounted` | apps/backend/src/scripts/simulate-locations.ts:416-444 | In every reachable state a history is the creation, one row per commit and one per actor's write, and its consecutive pairs are, pair by pair, exactly the moves of the commits and of the actors' writes |
| `BookingAdvance.CommitsAreAdvances` | apps/backend/src/scripts/simulate-locations.ts:91-96 | In every reachable state every commit moved its booking exactly one status up among assigned, en route, arrived, in progress and completed, never to `paid`, and its event names the booking, its fleet and that status |
| `BookingAdvance.LeftAloneItAdvances` | apps/backend/src/scripts/simulate-locations.ts:401-444 | A booking of a fleet that a simulator picks below completed and that keeps its status until the commit does advance, by one history row and one event to publish, whatever others do in between |
| `BookingAdvance.EventsMatchCommits` | apps/backend/src/scripts/simulate-locations.ts:446-464 | In every reachable state the published events are, as a multiset, among the commits: none without one, none twice |
| `Tickets.NarrowInverts` | apps/backend/src/realtime/ws-ticket.service.ts:132-164 | Narrowing inverts serialisation in all four realms if and only if no id is empty, and refuses otherwise |
| `Tickets.NarrowIsComplete` | apps/backend/src/realtime/ws-ticket.service.ts:132-164 | Of any stored value, only complete claims get through, and they survive another round |
| `Tickets.NarrowIff` | apps/backend/src/realtime/ws-ticket.service.ts:132-164 | Exactly which stored values narrow to which claims, field by field and realm by realm |
| `Tickets.ConsumeKeeps` | apps/backend/src/realtime/ws-ticket.service.ts:101-122 | A ticket that yields claims was in the store, is gone from it, and yields exactly the claims it was issued with |
| `Tickets.HandshakeAdmitsIff` | apps/backend/src/realtime/fleet.gateway.ts:55-75 | A handshake lets somebody in if and only if the command got its reply, the ticket shown is live, and it was issued with all its ids in the namespace's own realm; then as the tenant, or the admin and sub-role, it was issued to |
| `Tickets.IssuedIsLive` | apps/backend/src/realtime/ws-ticket.service.ts:87-93 | A fresh ticket can be redeemed for exactly as long as it was issued for |
| `Tickets.TicketsAreSingleUse` | apps/backend/src/realtime/ws-ticket.service.ts:87-122 | Over every interleaving of issues, expiries and handshakes, lost replies included, a ticket yields claims at most once and those it was issued with; it admits at most one socket, as the tenant or the admin with the sub-role it names, to that realm's namespace only |
| `Broadcasters.OneTimerPerKey` | apps/backend/src/realtime/metrics-broadcaster.service.ts:48-67 | In every reachable state a node has at most one live timer per key, and none once destroyed |
| `Broadcasters.NoFeedback` | apps/backend/src/realtime/admin-ops-broadcaster.service.ts:75-135 | In every reachable state the channel holds, as a bag, what others posted and every publish of every recompute; a node's attempts and live timers are at most the scheduling messages it read plus its ticks, and those are at most the posted ones |
| `Broadcasters.AdminAttemptsAreBounded` | apps/backend/src/realtime/admin-ops-broadcaster.service.ts:75-88 | However many of the broadcaster's own `ops_metrics` and `ops_badges` a node reads back, it attempts at most one recompute per `booking_status` or `booking_created` it read and per tick |
| `Broadcasters.AdminOutputs` | apps/backend/src/realtime/admin-ops-broadcaster.service.ts:116-127 | Each publish is one message, `ops_metrics` for the first of a recompute and `ops_badges` for the second |
| `Broadcasters.FleetHandlesItsFleets` | apps/backend/src/realtime/metrics-broadcaster.service.ts:48-67 | In every reachable state a live node of the fleet broadcaster has handled messages for exactly the fleets named in what it read, in order, and attempted at most one recompute per such message, having no tick |
| `Broadcasters.RecomputesAreSpaced` | apps/backend/src/realtime/metrics-broadcaster.service.ts:75-83 | However many nodes race, two recomputes that won the same lock are at least one debounce period apart |
| `Broadcasters.NoEventUnserved` | apps/backend/src/realtime/metrics-broadcaster.service.ts:48-83 | In every reachable state each scheduling message a node was alive to handle has a grant of its lock taken after it was read, or a timer or recompute that will still ask for one, unless the node was destroyed or the request for the lock failed; on a live node those messages are all the scheduling ones it read |
| `Broadcasters.LosersAreOvertaken` | apps/backend/src/realtime/metrics-broadcaster.service.ts:75-83 | A recompute refused the lock was overtaken by a grant later than the message that scheduled it |
| `Broadcasters.LateIff` | apps/backend/src/realtime/admin-ops-broadcaster.service.ts:90-143 | A run publishes after destroy if and only if it resumes a recompute that still has a publish to issue after its node's destroy |
| `Broadcasters.DestroyedIff` | apps/backend/src/realtime/admin-ops-broadcaster.service.ts:137-143 | A node is destroyed exactly once its destroy has run |
| `Broadcasters.FleetIsNeverLate` | apps/backend/src/realtime/metrics-broadcaster.service.ts:88-96 | No run of the fleet broadcaster publishes after destroy |
| `Broadcasters.LateRunIsLate` | apps/backend/src/realtime/admin-ops-broadcaster.service.ts:114-127 | A destroy between the two publishes leaves the second to be issued late |
| `Broadcasters.OnlyTheSecondIsLate` | apps/backend/src/realtime/admin-ops-broadcaster.service.ts:114-127 | Of the admin broadcaster only the second publish can be late |
| `QueryTiming.ReportedOnce` | apps/backend/src/db/query-timing.ts:81-123 | For any tree of transactions and any continuations in any order, a statement is reported exactly once if one of its continuations ran and otherwise never |
| `QueryTiming.ShadowIsTransparent` | apps/backend/src/db/query-timing.ts:106-119 | The shadowed handlers answer every outcome as the bare ones, missing handlers included |
| `QueryTiming.TimingIsTransparent` | apps/backend/src/db/query-timing.ts:26-67 | After the same steps every continuation of every statement has the answer it has without the wrapper |
| `Address.ShortPlaceIsFirstName` | apps/towgo/src/utils/address.ts:55-59 | The first part that is neither house number nor plus code; failing that the first part; none exactly without parts |
| `Address.HouseNumberIff` | apps/towgo/src/utils/address.ts:13-13 | A house number is one or more digits, white space, slashes or dashes and then at most one letter |
| `Address.CodeCharIff` | apps/towgo/src/utils/address.ts:12-12 | The alphabet of plus codes, in either case |
| `Address.PlusCodeIff` | apps/towgo/src/utils/address.ts:12-12 | A plus code is four to eight code characters, a plus and at most three more |
| `Address.PartsAreParts` | apps/towgo/src/utils/address.ts:15-22 | Every part is non-empty, trimmed and without a comma |
| `Address.PartsOfJoin` | apps/towgo/src/utils/address.ts:15-22 | Parsing any parts joined by ", " gives them back, except the lone dash |
| `Address.RejoinKeepsPartsIff` | apps/towgo/src/utils/address.ts:15-49 | Rejoining the lines and parsing again keeps the parts, and the short name, if and only if the only part is not the lone dash |
| `Address.TheDashIsLost` | apps/towgo/src/utils/address.ts:15-22 | The dash followed by a comma is such a text |
| `Address.RejoinWithSeparator` | apps/towgo/src/utils/address.ts:43-49 | With the separator written even after a lone part, the parts survive without exception |
| `Address.PlaceTextNamesThePlace` | apps/towgo/src/utils/address.ts:30-36 | The stored text starts with the place's name up to case, ends with the address, has nothing but a separator between them where the address does not already start with the name, and is trimmed |
| `Address.PlaceTextIsIdempotent` | apps/towgo/src/utils/address.ts:30-36 | Storing a stored text again under the same label changes nothing |
| `Clock.RemIsMod` | apps/towgo/src/utils/format.ts:29-29 | JavaScript's double remainder is the mathematical one, negative shifts included |
| `Clock.WriteSays` | apps/towgo/src/utils/format.ts:31-34 | A label says, character by character, the hour from 1 to 12 without padding, two digits of minutes, and AM exactly before noon |
| `Clock.ReadSays` | apps/towgo/src/utils/format.ts:23-28 | Reading a label gives hour modulo 12, twelve more in the afternoon, and the minutes as they stand, whatever the white space before the meridiem and its case |
| `Clock.ReadInvertsWrite` | apps/towgo/src/utils/format.ts:23-34 | Reading a printed label gives the same minute of day, for all 1440 |
| `Clock.ShiftMeaning` | apps/towgo/src/utils/format.ts:22-35 | On every label that reads, the shifted label names the minute that many minutes on, modulo the day |
| `Clock.ShiftsCompose` | apps/towgo/src/utils/format.ts:22-35 | For every text, shifting by a then b is shifting by a + b; by a then -a gives the canonical label |
| `Clock.ADayIsNothing` | apps/towgo/src/utils/format.ts:29-34 | Shifting by a whole day more is the same shift |

## Left out

- TokenRefresh.SingleFlight: says nothing about a caller that arrives after cleanup with a spent token; the backend's grace window for that is not modelled.
- The protocols across awaits (`TokenRefresh`, `ActivityFeed`, `Broadcasters`, `Tickets`, `BookingAdvance`, `QueryTiming`, `AdminCluster`, `FleetCluster`) are state machines on values, not classes on the heap, because a method cannot be interrupted at an await; update in place and aliasing are not captured there.
- `RealtimeSubscriberService`: that every handler registered for a channel is called once per message, in channel order, is assumed above and not derived from its list of handlers.
- Log lines and their cadence, the `try`/`catch` around flushes, the batcher's `size` getter, the fleet relay's metrics relay.
- The driver and customer gateways, and the fleet gateway beyond its handshake, rooms and relay; `REALTIME_ENABLED`.
- Read repair of the Redis geo set, the parsing of a zone's geometry, the key names of Redis.
- The proxy's header allow-lists and `X-Forwarded-For`; the URL parser's percent-encoding of the names in a path, and everything it does outside the path.
- The duration and text of a slow-query report; only that and how often a report is made is modelled.
- Which bookings a simulator picks: any advanceable booking with a fleet may be picked.
- Metrics and badges travel as opaque text, booking statuses other than `searching` and alert statuses by name.
- Dispatch, ledger, payments, the code that enforces the booking state machine, user interfaces, environment checks, infrastructure, and everything that rests on trigonometry.
