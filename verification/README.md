# NatForge, modelled and verified in Dafny

NatForge is a tunnelling service. A control plane hands out tunnels, subdomains and public ports; edge
nodes accept public traffic and carry it over a multiplexed session to an agent, which connects to a
local service. This project models the parts of it that are hard to get right and proves what they
are for. It has eight components, in the repository's own terms.

| component | modules | source |
|---|---|---|
| Control-plane allocator: tunnels, routes, port pool, nodes, devices | `Signature`, `PortPool`, `RouteRows`, `RouteEdit`, `Policy`, `Tables`, `Allocator`, `Lifecycle`, `Effects`, `Failover`, `ControlPlane`, `Handlers`, `Runs`, `Access`, `Counterexamples`, `ManyEdits` | `natforge-backend/src/db/queries.rs`, `natforge-backend/src/handlers/tunnels.rs` |
| Concurrent port claims with row locks | `PoolLocks` | `natforge-backend/src/db/queries.rs` |
| Tokens: route expansion, claims, bindings | `Claims`, `Tokens`, `Grants` | `natforge-backend/src/handlers/tunnels.rs`, `natforge-proto/src/lib.rs`, `natforge-agent/src/service_host.rs` |
| Node session registry | `Registry`, `RouteKeys`, `History` | `natforge-node/src/tunnel/mod.rs`, `natforge-node/src/api.rs` |
| Yamux driver | `Driver` | `natforge-node/src/tunnel/mux.rs` |
| SNI parser, peeking, replay, header rewriting | `Utf8`, `ClientHello`, `HelloFormat`, `Passthrough`, `Forwarded`, `HttpPaths`, `HostNames` | `natforge-node/src/tunnel/shared.rs` |
| Wire codecs | `Bytes`, `Preamble` (in `Codec.dfy`), `Datagrams` | `natforge-proto/src/lib.rs` |
| UDP flow table | `FlowTable`, `FlowClaims`, `History` | `natforge-node/src/tunnel/mod.rs` |
| Device codes, device tokens, rate limiter | `Enrollment`, `ForeignWins`, `Polls`, `History`, `Limiter` | `natforge-backend/src/db/connection.rs`, `natforge-backend/src/handlers/devices.rs`, `natforge-backend/src/jwt.rs` |

How the allocator is put together: `ControlPlane.Database` is a class with one field a table; each of
its methods is one transaction, which works on copies and assigns the fields where the source commits.
Each method is proved equal to a function on the tables (`Tables.Db`), and the theorems are about those
functions, one command at a time (`Allocator`, `Lifecycle`, `Failover`; column by column in `Effects`), then
over every run (`Runs`, `Access`).
Two invariants are kept apart: `Tables.Sound` (signatures, unique names and route sets, the route policy,
device endpoints, ownership) survives every command; `Tables.Agreement` (pool rows and dedicated routes
name each other one to one) survives exactly the harmless ones. `Registry`, `PoolLocks`, `FlowTable`,
`Enrollment` and `Limiter` are state machines whose steps are the source's critical sections, statements,
task turns or Redis commands, taken in any order.

## What turned out false, and when it holds

* Migrating a tunnel frees every port it holds and claims new ones for `tcp` and `udp` only
  (natforge-backend/src/db/queries.rs:377), so a `both` route loses its port. The agreement survives a
  migration exactly if the tunnel does not fit the target's free ports, and so is denied, or has no `both`
  route: `Lifecycle.MigrateKeepsIff`; it survives a failover sweep exactly if no pending tunnel that fits
  when its turn comes has one: `Failover.SweepKeepsIff`. What fits is read off the tables before the sweep:
  `Failover.MovedIffFits`. One state in which it is lost: `Counterexamples.MigrationLosesThePort`.
* Deleting a node drops its pool rows, held or not (natforge-backend/src/db/queries.rs:1833). The
  agreement survives exactly if none is held: `Lifecycle.DeleteNodeKeepsIff`,
  `Counterexamples.NodeDeletionLosesThePort`.
* The comment at natforge-backend/src/handlers/tunnels.rs:290 speaks of the device's *other* services, but
  the scan leaves none out, so a device that asks again for a dedicated route it already has is turned
  away. A reconnect gets its tunnel back exactly if it is on no device or has no dedicated route:
  `Handlers.ReconnectIff`, `Counterexamples.DeviceReconnectIsTurnedAway`. (`reserve_tunnel` itself always
  gives the tunnel back: `Allocator.ReuseAnyOrder`.)
* Registry entries are owned by tunnel, not by session: when a reconnect overlaps the old session, the old
  one's teardown removes the new one's entries, `Registry.ReconnectLosesRoutes`. A key that resolves to a
  session stops doing so at exactly the steps that take it (another session's insert under it, or a
  teardown or stop section of the session's tunnel that covers it): `Registry.StopsResolvingIff`. So over
  every run a key resolves to a session exactly if nothing has taken it since the session's last insert:
  `Registry.ResolvesIff`, `Registry.ResolvesSinceLastInsert`.
* A UDP close signal names only a peer and can take a newer flow out of the table: a run in which it does is
  `FlowTable.StaleSignalRemovesNewFlow`. It does so exactly if the table's entry for the peer is not the
  flow that sent it, `FlowTable.SignalTakesNewerIff`, and that is the case exactly if an unblocked datagram
  of the peer has opened a newer flow and the table has kept its entry since,
  `FlowTable.SignalTakesNewerWhen`.
* The preamble round trip loses an IPv6 flow label or scope and a replay beyond 65535 bytes, and nothing
  else: `Preamble.LosslessIff`.
* A cut datagram stream reads as a clean end exactly if fewer than two bytes follow the last whole frame, so
  also inside a length prefix, and as an error otherwise: `Datagrams.CutEnding`.
* A token's ids are unique exactly if no `both` route's udp half meets another route's id,
  `Tokens.TokenShapeIff`; 2498 edits of one tunnel never get there, `Tokens.MintedTokensAccepted`, and a
  run of 2499 edits reaches a token that is refused, `ManyEdits.TokenRefused`.
* A poll that wins a device code need not win it for the device's owner: a sign-in approval can replace the
  user of an enrolment approval, `Enrollment.WinnerNeedNotOwn`. It wins for someone else exactly if, when
  it read the hash of the user code, someone who does not own the device the hash named had made a sign-in
  approval of that user code, and the code had since been neither approved otherwise nor created anew, nor
  had its hash expired or been dropped: `ForeignWins.WinnerForeignIff`, from `ForeignWins.ForeignIff`.
* The header rewriting takes the server name of a TLS connection as it comes. The head is rewritten as
  intended exactly if that name holds no CRLF; a bare line feed breaks nothing: `Forwarded.RewritesIff`,
  `HttpPaths.HttpsReplay`. A Host header never holds one: `HttpPaths.HostIsInside`.
* When the first TLS record exceeds the peek cap, the verdict of the peek loop can depend on how the bytes
  arrive. It is that of a one-shot parse exactly if that finds no name or no read ends at or past the cap
  but before the end of the record: `Passthrough.PeekSni`.

## Model

| member | source | states |
|---|---|---|
| Signature.RouteSignature | natforge-backend/src/db/queries.rs:290-297 | formatting, sorting and joining compute the canonical signature |
| Signature.SignatureIff | natforge-backend/src/db/queries.rs:288-297 | two route lists have the same signature exactly if they hold the same (kind, port) pairs with the same multiplicities, in any order |
| Signature.EmptySignatureIff | natforge-backend/src/db/queries.rs:1554-1566 | the empty signature, which marks a parked tunnel, belongs to the empty list alone |
| PortPool.ClaimEffect | natforge-backend/src/db/queries.rs:16-23 | a claim takes one free port of the node, gives it to the tunnel and route, changes no other tunnel's rows, and fails exactly if the node has no free port |
| PortPool.FreeTunnelsEffect | natforge-backend/migrations/0001_init.sql:57-63 | freeing or orphaning the rows of some tunnels leaves them nothing and every other tunnel what it had, stale route ids notwithstanding |
| RouteRows.AgreesMeans | natforge-backend/migrations/0001_init.sql:41-63 | the agreement in plain terms: each held pool row names exactly one dedicated route with that public port, and each dedicated route has exactly one held row |
| RouteRows.AddRoutesAgree | natforge-backend/src/db/queries.rs:911-967 | inserting routes with claimed ports keeps the tunnel's pool rows and routes in agreement |
| RouteRows.AddRoutesOthers | natforge-backend/src/db/queries.rs:934-951 | inserting routes of one tunnel changes no other tunnel's pool rows |
| RouteRows.AddRoutesRows | natforge-backend/src/db/queries.rs:911-967 | the rows added are the requests in order, under dense ids, with a port exactly if the mode needs one |
| RouteRows.AddRoutesNeed | natforge-backend/src/db/queries.rs:934-948 | an insertion takes exactly as many free ports as it needs, and runs out only if the node has fewer |
| RouteRows.AddRoutesNoViolation | natforge-backend/migrations/0001_init.sql:49-53 | fresh ids and distinct host kinds never trip a unique index at any point of the insertion |
| RouteRows.ReclaimAgrees | natforge-backend/src/db/queries.rs:366-403 | while a migration claims ports again, what is held agrees with the routes done so far |
| RouteRows.MoveAgreesIff | natforge-backend/src/db/queries.rs:376-379 | after the claims of a migration the tunnel agrees with the pool exactly if it has no `both` route |
| RouteEdit.DropStale | natforge-backend/src/db/queries.rs:531-561 | the first loop frees the ports of exactly the routes no longer requested and drops exactly those |
| RouteEdit.FindMaxId | natforge-backend/src/db/queries.rs:565-578 | the loop finds the largest existing id, or 0 |
| RouteEdit.AddMissing | natforge-backend/src/db/queries.rs:579-643 | the second loop adds exactly the requests that no existing row serves, in order, or stops with the error of the whole list |
| RouteEdit.Reconcile | natforge-backend/src/db/queries.rs:525-643 | both steps together compute the specified reconciliation |
| RouteEdit.InsertAll | natforge-backend/src/db/queries.rs:911-967 | the insertion loop of a reservation, with the error of the whole list on failure |
| RouteEdit.ClaimAgain | natforge-backend/src/db/queries.rs:375-403 | the claiming loop of a migration |
| RouteEdit.ReconcileExact | natforge-backend/src/db/queries.rs:503-509 | an edit leaves exactly the requested pairs: every old row still wanted unchanged, every new row under an id above all old ones |
| RouteEdit.ReconciledSignature | natforge-backend/src/db/queries.rs:645-656 | after an edit the rows hold the requested pairs once each, so the stored signature is that of the rows and the policy holds of them |
| RouteEdit.ReconcileNeverViolates | natforge-backend/migrations/0001_init.sql:49-53 | a policy-valid edit never trips the id index or the one-http/one-https index mid-transaction |
| RouteEdit.ReconcileAgrees | natforge-backend/src/db/queries.rs:531-643 | an edit keeps the tunnel's pool rows and routes in agreement |
| RouteEdit.ReconcileOthers | natforge-backend/src/db/queries.rs:541-548 | an edit changes no other tunnel's pool rows |
| RouteEdit.ReconcileExhaustedIff | natforge-backend/src/db/queries.rs:623-626 | an edit runs out of ports exactly if the node, with the dropped ports given back, has fewer free ports than the new routes need |
| RouteEdit.ReconcileIdentity | natforge-backend/src/db/queries.rs:503-509 | a request for the pairs already there changes nothing |
| RouteEdit.ReconcileTwice | natforge-backend/src/db/queries.rs:503-509 | editing twice with one request is editing once |
| RouteEdit.ReconcileMaxId | natforge-backend/src/db/queries.rs:563-590 | one edit raises the largest id by at most six |
| RouteEdit.ReconcileNear | natforge-backend/src/db/queries.rs:563-590 | beside a `both` route an edit has room for four new ones, so it takes the largest id at most four further from that route's id |
| Policy.CheckRoutePolicy | natforge-backend/src/handlers/tunnels.rs:72-105 | accepts exactly the lists within 1 http, 1 https, 2 tcp, 2 udp (`both` counting as one of each) whose dedicated ports are used once; reports a doubled port, or too many routes, accordingly |
| Policy.PolicyPermutes | natforge-backend/src/handlers/tunnels.rs:72-105 | the policy depends only on the set of pairs, not on their order |
| Policy.AtMostSix | natforge-backend/src/handlers/tunnels.rs:101-103 | the policy allows at most six routes, and at most five if one of them is a `both` route |
| Policy.BitsMeetIff | natforge-backend/src/handlers/tunnels.rs:121-132 | two transport bitsets intersect exactly if the routes share a transport |
| Policy.FirstConflict | natforge-backend/src/handlers/tunnels.rs:308-323 | the scan finds the first wanted route that clashes with a taken endpoint, or that none does |
| Tables.SoundPut | natforge-backend/migrations/0016_tunnel_uniqueness_per_device.sql:1-8 | a write to one tunnel that is right in itself and compatible with every other tunnel keeps the tables sound |
| Tables.AgreementPutIff | natforge-backend/src/db/queries.rs:353-422 | a write to one tunnel breaks the agreement exactly if that tunnel stops agreeing |
| Tables.RemoveKeeps | natforge-backend/migrations/0001_init.sql:41-63 | deleting any set of tunnels, with their rows given up, keeps both invariants |
| Tables.HeldCount | natforge-backend/migrations/0001_init.sql:57-63 | as many pool rows are held as there are dedicated routes |
| Allocator.ReserveKeeps | natforge-backend/src/db/queries.rs:750-993 | a reservation keeps both invariants, whether it reuses, inserts or is denied |
| Allocator.ReuseAnyOrder | natforge-backend/src/db/queries.rs:771-819 | a request with the pairs of an existing tunnel of the owner and device, in any order, gets exactly that tunnel, its ids and ports, and no table changes |
| Allocator.CreateNewConflicts | natforge-backend/src/db/queries.rs:771-794 | asked for a new tunnel, the same request in any order is a conflict with the existing one |
| Allocator.ReserveCreates | natforge-backend/src/db/queries.rs:834-992 | a tunnel that is not reused has a new id, an unused name, exactly the requested pairs and labels, the node and host asked for, and waits for its agent; its ports come off that node; every other tunnel is as it was |
| Allocator.NameChosen | natforge-backend/src/db/queries.rs:838-909 | a chosen name is taken as it is, or turned down as malformed or in use; of at most ten drawn names the first not in use is taken |
| Allocator.ReserveOutcome | natforge-backend/src/db/queries.rs:750-993 | exactly when a reservation reuses, conflicts, meets the cap, has no name, runs out of ports, or makes a new tunnel |
| Allocator.ReuseOnlySameSet | natforge-backend/src/db/queries.rs:771-819 | a reused tunnel is the owner's, on that device, holds exactly the requested pairs, and the reply gives its subdomain, node, host, domain and rows |
| Allocator.ReserveThenReconnect | natforge-backend/src/db/queries.rs:742-749 | reserving and then presenting the same routes in any order gives the same tunnel, subdomain, ids and ports |
| Allocator.ReserveLimits | natforge-backend/src/db/queries.rs:821-832 | a new tunnel keeps the owner within the cap, and a denial changes no table |
| Allocator.FreshRows | natforge-backend/src/db/queries.rs:911-979 | a new tunnel's rows are the requests in order, numbered from 1 |
| Allocator.SetRoutesKeeps | natforge-backend/src/db/queries.rs:511-675 | an in-place edit keeps both invariants, whether it commits or rolls back |
| Allocator.SetRoutesDenials | natforge-backend/src/db/queries.rs:623-665 | an admissible edit is denied exactly for lack of ports, or because another tunnel of owner and device has the requested pairs, and a denial changes nothing |
| Allocator.SetRoutesExact | natforge-backend/src/db/queries.rs:503-510 | the tunnel ends with exactly the requested pairs, kept rows unchanged, new ids above the old ones, no column changed but the signature, and every other tunnel untouched |
| Allocator.SetRoutesTwice | natforge-backend/src/db/queries.rs:503-510 | the same edit again succeeds and changes no table |
| Lifecycle.MigrateEffect | natforge-backend/src/db/queries.rs:349-422 | a migration that succeeds puts one tunnel on the node, under the node's host, with new ports, without custom domain and failover note; its subdomain, owner, device, signature, status, time stamps, route ids and everything else stay; one that is denied changes nothing |
| Lifecycle.MigrateKeepsIff | natforge-backend/src/db/queries.rs:366-403 | migration keeps the agreement exactly if it does not fit the target, or the tunnel has no `both` route |
| Lifecycle.MigrateDeniedIff | natforge-backend/src/db/queries.rs:390-392 | migration is denied exactly if the target's free ports and those the tunnel itself holds there are fewer than it needs; otherwise it leaves exactly the difference free |
| Lifecycle.FreedPorts | natforge-backend/src/db/queries.rs:366-373 | freeing a tunnel's rows adds exactly the ports it held on a node to those free there |
| Lifecycle.DeleteKeeps | natforge-backend/src/db/queries.rs:1199-1212 | deletion, by request, by sweep or by cascade, keeps both invariants |
| Lifecycle.DeletedPortsAreFree | natforge-backend/migrations/0001_init.sql:57-63 | the ports of a deleted tunnel can be claimed again at once |
| Lifecycle.ParkKeeps | natforge-backend/src/db/queries.rs:1554-1588 | the idle sweep keeps both invariants |
| Lifecycle.DeleteDeviceKeeps | natforge-backend/src/db/queries.rs:173-180 | deleting a device with its tunnels keeps both invariants |
| Lifecycle.DeleteUserKeeps | natforge-backend/src/db/queries.rs:1367-1374 | deleting a user with devices and tunnels keeps both invariants |
| Lifecycle.SeedKeepsOwn | natforge-backend/src/db/queries.rs:1765-1774 | registration adds free rows for the missing ports of the range and touches no existing row |
| Lifecycle.RegisterKeeps | natforge-backend/src/db/queries.rs:1729-1777 | node registration and re-registration keep both invariants |
| Lifecycle.DeleteNodeKeepsIff | natforge-backend/src/db/queries.rs:1831-1843 | deleting a node keeps the agreement exactly if no tunnel holds one of its ports |
| Lifecycle.SignalKeeps | natforge-backend/src/db/queries.rs:1147-1427 | status changes, even one that rewrites the node, and the bandwidth report's time stamps keep both invariants |
| Effects.DeletedExactly | natforge-backend/src/db/queries.rs:1199-1212 | deleting tunnels, by request or by cascade, takes exactly them and their routes, and gives back exactly their ports |
| Effects.AbandonedExactly | natforge-backend/src/db/queries.rs:1524-1552 | the sweep deletes exactly the device-less tunnels that were online once and not seen for longer than the grace period |
| Effects.ParkedExactly | natforge-backend/src/db/queries.rs:1554-1588 | the idle sweep keeps every tunnel; exactly a device's tunnels with routes that were not active within the window lose routes, signature and ports, and nothing else |
| Effects.DeviceGoneExactly | natforge-backend/src/db/queries.rs:173-180 | only its owner can delete a device; exactly its tunnels go with it |
| Effects.UserGoneExactly | natforge-backend/src/db/queries.rs:1367-1374 | deleting a user takes exactly the user's tunnels and devices |
| Effects.StatusExactly | natforge-backend/src/db/queries.rs:1147-1427 | which columns each status signal changes: a stopped tunnel stays stopped when its session ends; only coming online changes the node; identity, host and domain never change |
| Effects.RegisteredExactly | natforge-backend/src/db/queries.rs:1729-1777 | registering refreshes host and heartbeat, leaves what an admin controls, makes a new node active, and adds exactly the missing ports of the range, free |
| Effects.NodeGoneExactly | natforge-backend/src/db/queries.rs:1831-1843 | deleting a node takes exactly its pool rows, held or not, and leaves every tunnel as it is |
| Failover.SweepOutcome | natforge-backend/src/db/queries.rs:469-499 | every tunnel is either untouched or moved to the target, under its old subdomain and the target's host, with the region it left noted, or the node's name if it had none; only pending ones are moved |
| Failover.SweepReports | natforge-backend/src/db/queries.rs:469-500 | the reported list is exactly the list of the tunnels moved |
| Failover.SweepMovesAll | natforge-backend/src/db/queries.rs:424-431 | if the target's free ports cover the need of all pending tunnels, every one is moved |
| Failover.MovedIffFits | natforge-backend/src/db/queries.rs:469-499 | the pending tunnels moved are exactly those that fit what the earlier ones leave of the target's ports, and the ports free in the end are what that budget says |
| Failover.SweepKeepsIff | natforge-backend/src/db/queries.rs:469-499 | the sweep keeps the agreement exactly if no pending tunnel that fits has a `both` route |
| Failover.FailoverExact | natforge-backend/src/db/queries.rs:432-501 | the target is an oldest healthy node, pending are exactly the tunnels of silent active nodes, in any order; the moved ones are exactly those that fit, and the report names subdomain, old and new node of exactly the moves |
| ControlPlane.Database.PickName | natforge-backend/src/db/queries.rs:838-909 | a chosen name must be valid, unreserved and free; otherwise the first usable of ten draws is taken |
| ControlPlane.Database.ReserveTunnel | natforge-backend/src/db/queries.rs:750-993 | the transaction computes the specified reservation and leaves the tables as they were when it refuses |
| ControlPlane.Database.InsertTunnel | natforge-backend/src/db/queries.rs:850-992 | the inserting half of it |
| ControlPlane.Database.SetServiceRoutes | natforge-backend/src/db/queries.rs:511-675 | the transaction computes the specified edit and leaves the tables as they were when it refuses |
| ControlPlane.Database.MigrateTunnel | natforge-backend/src/db/queries.rs:353-422 | the transaction computes the specified migration and leaves the tables as they were when it refuses |
| ControlPlane.Database.FailOverTunnel | natforge-backend/src/db/queries.rs:474-496 | one tunnel's migration and the note of where it came from |
| ControlPlane.Database.FailoverStaleNodes | natforge-backend/src/db/queries.rs:432-501 | the loop computes the specified sweep and its report; without a target nothing happens |
| ControlPlane.Database.DeleteTunnel | natforge-backend/src/db/queries.rs:1199-1212 | frees the rows, deletes the tunnel and counts it |
| ControlPlane.Database.ReconcileAbandoned | natforge-backend/src/db/queries.rs:1524-1552 | deletes exactly the device-less tunnels silent past the grace period, and counts them |
| ControlPlane.Database.ExpireIdleServiceHosts | natforge-backend/src/db/queries.rs:1559-1588 | parks exactly the idle device tunnels that have routes, and counts them |
| ControlPlane.Database.RegisterNodeRow | natforge-backend/src/db/queries.rs:1733-1777 | inserts or refreshes the node and seeds its pool |
| ControlPlane.Database.Cascade | natforge-backend/migrations/0001_init.sql:41-63 | a deleted owner's tunnels and routes go, and their pool rows become free |
| ControlPlane.Database.DeleteDeviceRow | natforge-backend/src/db/queries.rs:173-180 | only the owner can delete a device; its tunnels go with it |
| ControlPlane.Database.DeleteNodeRows | natforge-backend/src/db/queries.rs:1831-1843 | drops the node and its pool rows, held or not |
| ControlPlane.Database.SetStatus | natforge-backend/src/db/queries.rs:1147-1427 | the status updates and time stamps rewrite one row as specified; a stopped tunnel stays stopped when its session ends |
| Handlers.RequestTunnel | natforge-backend/src/handlers/tunnels.rs:213-380 | ban, emptiness, policy, region, device ownership and endpoint scan, in this order, then the reservation |
| Handlers.EditRoutes | natforge-backend/src/handlers/tunnels.rs:1195-1281 | authorization, policy and the scan of the device's other services, then the edit |
| Handlers.MoveTunnel | natforge-backend/src/handlers/tunnels.rs:786-840 | authorization, an active and different target, then the migration |
| Handlers.ScanDecides | natforge-backend/src/db/queries.rs:688-707 | the scanned endpoints are those of the device's tunnels, so the scan decides whether the request clashes with none |
| Handlers.RequestedKeeps | natforge-backend/src/handlers/tunnels.rs:213-380 | no request whatever can break either invariant; a rejected one changes nothing |
| Handlers.EditedKeeps | natforge-backend/src/handlers/tunnels.rs:1195-1281 | no edit request whatever can break either invariant; one that fails changes nothing |
| Handlers.MovedTunnelKeeps | natforge-backend/src/handlers/tunnels.rs:786-840 | a move request keeps the tables sound, and the agreement if the tunnel has no `both` route |
| Handlers.ReconnectIff | natforge-backend/src/handlers/tunnels.rs:290-334 | a repeated request gives the tunnel back unchanged exactly if it is on no device or has no dedicated route, and is turned away otherwise |
| Handlers.RequestRejected | natforge-backend/src/handlers/tunnels.rs:213-334 | a request is turned away, and changes nothing, exactly for a ban, an empty set, the policy, the region, somebody else's device, or a socket that a service of the device has, in this order |
| Handlers.RequestGranted | natforge-backend/src/handlers/tunnels.rs:213-380 | a request that is granted gives the caller a tunnel of its own: an existing one only if it did not insist on a new one, or a new one on the active node it chose, under that node's host, within its cap |
| Handlers.EditAnswers | natforge-backend/src/handlers/tunnels.rs:1195-1281 | a stranger's edit is rejected as such and changes nothing; anyone else's is rejected exactly for the policy or for a socket that another service of the device has |
| Handlers.MoveAnswers | natforge-backend/src/handlers/tunnels.rs:786-840 | a stranger's move is rejected as such and changes nothing; anyone else's is rejected exactly for an unknown, inactive or current node, fails exactly if it does not fit, and otherwise puts the tunnel on the node and its host |
| Runs.StepKeepsIff | natforge-backend/src/db/queries.rs:353-1843 | every command keeps the tables sound, and keeps the agreement exactly if it is harmless: if no tunnel that it is to move, and that fits, has a `both` route, and no node it drops holds a port |
| Runs.RunIsSound | natforge-backend/src/db/queries.rs:511-993 | in every reachable state each signature is that of the actual routes, names and route sets are unique, each tunnel obeys the policy, and the endpoints of a device's services are pairwise disjoint |
| Runs.RunAgrees | natforge-backend/src/db/queries.rs:353-1777 | in every state reached by harmless commands, held pool rows and dedicated routes name each other one to one and are equally many |
| Runs.RunMaxId | natforge-backend/src/db/queries.rs:563-590 | after k edits of a tunnel, in any run, its ids are at most 6(k + 1), and at most 4(k + 1) above that of a `both` route |
| Access.OnlyOwnersChange | natforge-backend/src/handlers/tunnels.rs:910-928 | in every reachable state an edit or move changes no tunnel but the one it names, and that one only for its owner or an admin |
| Access.IdentityStays | natforge-backend/src/db/queries.rs:353-1843 | in every run a tunnel keeps subdomain, owner, device and creation time for life, and its id is never given out again |
| Counterexamples.MigrationLosesThePort | natforge-backend/src/db/queries.rs:376-379 | a concrete state in which a successful migration loses the agreement |
| Counterexamples.NodeDeletionLosesThePort | natforge-backend/src/db/queries.rs:1831-1843 | a concrete state in which deleting a node loses the agreement |
| Counterexamples.DeviceReconnectIsTurnedAway | natforge-backend/src/handlers/tunnels.rs:305-334 | a concrete device whose repeated request is turned away |
| PoolLocks.NextKeeps | natforge-backend/src/db/queries.rs:12-23 | every statement of every transaction keeps the lock discipline and the agreement of committed and of in-flight state |
| PoolLocks.ConcurrentAgreement | natforge-backend/src/db/queries.rs:12-23 | with any number of transactions on distinct tunnels, in any interleaving and any order of commits and rollbacks, no pool row is locked twice and the committed tables agree at every moment |
| PoolLocks.NoDoubleClaim | natforge-backend/src/db/queries.rs:12-15 | in every such run no pool row is in the writes of two transactions in flight: a port claimed in one is out of reach of every other until it ends |
| PoolLocks.CommitKeepsIff | natforge-backend/src/db/queries.rs:981-983 | a commit keeps lock discipline and agreement exactly if the transaction leaves no dedicated route without its port |
| PoolLocks.MigrationCommitsIff | natforge-backend/src/db/queries.rs:366-403 | among any other transactions in flight, the statements of a migration leave no route without its port exactly if the tunnel has no `both` route |
| PoolLocks.ExhaustedIff | natforge-backend/src/db/queries.rs:14-23 | a claim finds no port exactly if every row of the node is held, or locked by another transaction |
| PoolLocks.CommitSpares | natforge-backend/src/db/queries.rs:981-983 | a commit changes nothing that another tunnel holds |
| PoolLocks.AloneInserts | natforge-backend/src/db/queries.rs:934-967 | with no other transaction in flight, an insertion is the sequential one of the allocator |
| PoolLocks.AloneDrops | natforge-backend/src/db/queries.rs:366-373 | and so are a deletion of routes and the release of all ports |
| PoolLocks.AloneRetakes | natforge-backend/src/db/queries.rs:380-392 | and so is the claim of a port again |
| Tokens.BuildReservation | natforge-backend/src/handlers/tunnels.rs:444-483 | the loop builds the expanded claims and views of every route |
| Tokens.TokenShapeIff | natforge-backend/src/handlers/tunnels.rs:117-211 | a minted token has the accepted shape exactly if no udp half of a `both` route takes another route's id |
| Tokens.MintedTokensAccepted | natforge-backend/src/handlers/tunnels.rs:139-211 | in every run, the token of a tunnel edited at most 2498 times has unique ids, no `both` and the fields each mode needs |
| Tokens.Bindings | natforge-agent/src/service_host.rs:289-302 | the agent's loops build its route map and bindings from the reservation |
| Tokens.Authorize | natforge-node/src/tunnel/mod.rs:126-141 | the node accepts a hello exactly if every binding is for a granted route, and otherwise names one that is not |
| Tokens.BindingsGranted | natforge-node/src/tunnel/mod.rs:126-141 | every binding of the agent's hello is granted by the token minted with its reservation |
| Tokens.StreamsReachTheirRoute | natforge-agent/src/service_host.rs:358-370 | a stream for any half of any route finds, in the agent's map, the mode and local port of that route |
| Grants.TokenGrants | natforge-backend/src/handlers/tunnels.rs:139-211 | the claims of a minted token are exactly the grants of the tunnel's routes: a host-routed one under subdomain and host, any other with the port of the pool row held for it, a `both` route as two halves; the token is the owner's |
| Grants.GrantsHeldPorts | natforge-backend/src/handlers/tunnels.rs:144-188 | the public ports a token grants are exactly the ports the tunnel holds |
| Grants.HalvesShareThePort | natforge-backend/src/handlers/tunnels.rs:139-176 | all claims of a route carry the one port held for it |
| Grants.ViewsShow | natforge-backend/src/handlers/tunnels.rs:158-211 | the agent is told of every route and half its id, mode, local port and label, and of nothing else |
| Grants.BindingsShow | natforge-agent/src/service_host.rs:289-302 | each binding of the agent's hello carries the id and the local port of one of the tunnel's routes |
| ManyEdits.EditsRun | natforge-backend/src/db/queries.rs:563-590 | a run of n edits, from empty tables, after which a tunnel with a `both` route of id 1 has a udp route with the id 4n + 5 |
| ManyEdits.TokenRefused | natforge-backend/src/handlers/tunnels.rs:117-174 | after 2499 of them its token is refused, so the bound of `Tokens.MintedTokensAccepted` is sharp |
| Claims.ValidateShape | natforge-proto/src/lib.rs:169-203 | accepts exactly the well-shaped claims, and otherwise reports the first route at fault |
| Registry.CoreState.RegisterRoutes | natforge-node/src/tunnel/mod.rs:269-415 | uninterrupted, a session inserts exactly its routes' keys and collects the ports for its teardown |
| Registry.CoreState.Teardown | natforge-node/src/tunnel/mod.rs:471-565 | uninterrupted, a teardown removes, map by map, exactly the entries under its keys that its tunnel owns |
| Registry.NoLeak | natforge-node/src/tunnel/mod.rs:269-565 | in every interleaving of any number of sessions and stop calls, each entry is held by the session whose handle it is |
| Registry.NothingLeft | natforge-node/src/tunnel/mod.rs:452-565 | once every session of a tunnel is gone, nothing resolves to it |
| Registry.TeardownSparesOthers | natforge-node/src/tunnel/mod.rs:471-565 | no teardown, of a session or of a stop call, touches another tunnel's entries |
| Registry.StopsResolvingIff | natforge-node/src/tunnel/mod.rs:471-565 | a key that resolves to a session stops doing so at exactly these steps: another session's insert under it, or a teardown or stop section of its tunnel that covers it |
| Registry.StartsResolvingIff | natforge-node/src/tunnel/mod.rs:269-415 | a key starts resolving to a session at exactly the session's own inserts under it |
| Registry.ResolvesIff | natforge-node/src/tunnel/mod.rs:269-565 | over every run, a key resolves to a session exactly if the session inserted under it and no step since has taken it |
| Registry.HeldHasLastInsert | natforge-node/src/tunnel/mod.rs:269-415 | a key that a session holds has a last insert by it |
| Registry.ResolvesSinceLastInsert | natforge-node/src/tunnel/mod.rs:269-565 | from that insert on, the key resolves to the session exactly if no step since has taken it |
| Registry.LookupIsExact | natforge-node/src/tunnel/mod.rs:269-565 | in particular, for a session alone on its tunnel and keys, a key resolves to it exactly while it holds it |
| Registry.ReconnectLosesRoutes | natforge-node/src/tunnel/mod.rs:471-565 | a run in which an old session's teardown takes the routes of its running successor |
| Registry.RegisterBurst | natforge-node/src/tunnel/mod.rs:269-415 | the uninterrupted registration is one schedule of the state machine |
| Registry.TeardownBurst | natforge-node/src/api.rs:79-120 | the uninterrupted teardown is one schedule of the state machine |
| RouteKeys.RegistersExactly | natforge-node/src/tunnel/mod.rs:269-360 | a registration points the subdomain's http and https entries, the public ports and the custom domain's entries, each exactly if a granted route calls for it, to the id of the last such route, and leaves all other keys alone |
| RouteKeys.TearsDownExactly | natforge-node/src/tunnel/mod.rs:471-565 | a teardown takes exactly the tunnel's own entries under the plan's names, ports and domain |
| RouteKeys.StopsExactly | natforge-node/src/api.rs:77-120 | an uninterrupted stop call for a name takes what the teardown of the session that installed it last would take |
| RouteKeys.FindsExactly | natforge-node/src/tunnel/mod.rs:269-565 | over every run, a lookup finds a running session that is alone on its tunnel and keys exactly if one of its granted routes is for that lookup, and finds the last such route |
| RouteKeys.CheckDecides | natforge-node/src/tunnel/mod.rs:147-169 | the pre-check lets a session in exactly if neither host entry of its name is another tunnel's |
| RouteKeys.AdmittedWhenFree | natforge-node/src/tunnel/mod.rs:147-169 | so over every run a session got in only after a moment at which no other tunnel had its name |
| Driver.RunDriver | natforge-node/src/tunnel/mux.rs:23-83 | over any finite script of poll answers, every request taken is answered once, in arrival order, by its own stream or by Closed after the connection ends; none is left when the driver finishes; every yield is listed; and it yields only when the latest poll of every source it still needs was Pending and no stream was handed out since it last serviced the inbound side |
| Driver.WakeChangesAtPauses | natforge-node/src/tunnel/mux.rs:70-78 | wherever two neighbouring polls belong to different wake-ups, a listed yield lies between them |
| Driver.ClientDriver.ServiceInbound | natforge-node/src/tunnel/mux.rs:33-44 | inbound frames are serviced until Pending; a connection end answers the whole queue with Closed |
| Driver.ClientDriver.DrainRequests | natforge-node/src/tunnel/mux.rs:46-55 | requests join the queue in order until the channel is Pending or closed |
| Driver.ClientDriver.OpenQueued | natforge-node/src/tunnel/mux.rs:57-68 | each stream opened goes to the request at the head of the queue |
| Driver.ClientDriver.Poll | natforge-node/src/tunnel/mux.rs:31-81 | one wake-up keeps replies, queue and channel flag consistent with the polls made and yields only when it is safe |
| ClientHello.ParseSni | natforge-node/src/tunnel/shared.rs:445-523 | in bounds on every byte string, it computes the specified verdict |
| ClientHello.ScanExtensions | natforge-node/src/tunnel/shared.rs:490-520 | the extension loop terminates and finds what the recursive scan of the block finds |
| ClientHello.NotTlsIff | natforge-node/src/tunnel/shared.rs:445-465 | a stream is not TLS exactly if its first two bytes say so, once five are there; a name comes only out of a complete record that holds a ClientHello |
| HelloFormat.ParsesRequested | natforge-node/src/tunnel/shared.rs:445-523 | parsing any single-record ClientHello, with any bytes after it, gives the host name of its first server_name extension |
| HelloFormat.FindsHostName | natforge-node/src/tunnel/shared.rs:445-523 | for any session id, ciphers, compression list and extensions before and after, that name comes back letter by letter |
| HelloFormat.FindsAsciiName | natforge-node/src/tunnel/shared.rs:445-523 | so every ASCII host name comes back |
| HelloFormat.NoExtensionsBlock | natforge-node/src/tunnel/shared.rs:487-490 | a hello that ends before the extensions block asks for no name |
| HelloFormat.PrefixNeedsMore | natforge-node/src/tunnel/shared.rs:445-458 | every strict prefix of a hello makes the parser wait |
| HelloFormat.FoundIsServerName | natforge-node/src/tunnel/shared.rs:490-520 | a name is only ever found in a server_name extension, behind extensions of other kinds read whole: it is that extension's first entry, a host name in UTF-8 |
| Utf8.ValidIff | natforge-node/src/tunnel/shared.rs:235-239 | bytes pass the UTF-8 check exactly if they are the encoding of some sequence of scalar values |
| Passthrough.VerdictStable | natforge-node/src/tunnel/shared.rs:366-402 | a verdict other than "need more" never changes as more bytes arrive |
| Passthrough.PeekSni | natforge-node/src/tunnel/shared.rs:366-402 | under any chunking, the peek loop reaches the verdict of a one-shot parse exactly if that finds no name or no read ends at or past the cap but before the end of the first record; always if the record fits the cap |
| Passthrough.SpliceToRoute | natforge-node/src/tunnel/shared.rs:529-590 | the stream to the agent is the preamble with the peeked bytes, then every byte read; the counter counts each byte once |
| Passthrough.HandleStream | natforge-agent/src/service_host.rs:358-394 | the agent delivers the replay and then the rest of the stream to the named local port, relays udp, and drops what it does not know |
| Passthrough.OtherDeliveries | natforge-agent/src/service_host.rs:358-394 | of a udp stream the agent relays datagrams; a stream for an unknown route, or one cut inside the preamble, it drops |
| Passthrough.SpliceExactIff | natforge-agent/src/service_host.rs:358-394 | the local service receives exactly the peeked and copied bytes exactly if the peeked ones fit the replay field |
| Passthrough.PassThrough | natforge-node/src/tunnel/shared.rs:366-440 | end to end under any chunking, the local service receives exactly the client's stream and the counter grows by its length |
| Passthrough.PrefixedStream.ReadMany | natforge-node/src/tunnel/shared.rs:62-98 | any sequence of reads sees the prefix and then the inner stream, without loss or repetition |
| Forwarded.FindSubsequence | natforge-node/src/tunnel/shared.rs:50-60 | the first occurrence, or none |
| Forwarded.RewriteHead | natforge-node/src/tunnel/shared.rs:238-257 | the loop emits the kept lines, the three new ones, the blank line and the unchanged rest |
| Forwarded.RewrittenBlock | natforge-node/src/tunnel/shared.rs:210-216 | the output's first blank line ends a block of the original lines minus every `X-Forwarded-*`, in order, then exactly ours; the bytes after it are unchanged |
| Forwarded.RewritesIff | natforge-node/src/tunnel/shared.rs:210-257 | the output is the head with its forwarding lines replaced by exactly ours, ended by its first blank line, exactly if the host holds no CRLF |
| Forwarded.RewriteSettles | natforge-node/src/tunnel/shared.rs:212-214 | no client-supplied line survives, and rewriting the result again with the same values changes nothing |
| Forwarded.ReadHead | natforge-node/src/tunnel/shared.rs:225-234 | the read loop stops once the head is complete, too long, or the stream is over |
| Forwarded.WithForwardedHeaders | natforge-node/src/tunnel/shared.rs:217-258 | a complete UTF-8 head is rewritten and any other replayed as it is; the replay grows by the three lines at most |
| HttpPaths.ParseHost | natforge-node/src/tunnel/shared.rs:280-300 | the loop finds the value of the first Host line, terminated or not |
| HttpPaths.HostIsInside | natforge-node/src/tunnel/shared.rs:280-300 | a host is shorter than the bytes it was found in and has no line feed |
| HostNames.LooksUp | natforge-node/src/tunnel/shared.rs:166-174 | a plain name is looked up as it is, whatever its case, trailing dots and port |
| HostNames.FindsHost | natforge-node/src/tunnel/shared.rs:280-300 | the first Host line's value is found, whatever lines stand before it and whatever follows |
| HostNames.RequestLooksUp | natforge-node/src/tunnel/shared.rs:135-201 | so a request that names a plain host, in any case, with or without port and trailing dots, has exactly that name looked up |
| HostNames.ChallengeIff | natforge-node/src/tunnel/shared.rs:304-316 | a complete request line is for a certificate challenge exactly if its path starts with the challenge prefix and goes on in UTF-8 |
| HttpPaths.PeekHost | natforge-node/src/tunnel/shared.rs:135-163 | the loop stops at the first read after which the bytes ask for a challenge, name a host, or are complete or too long without either; what it has read exceeds the limit by at most one read |
| HttpPaths.HttpReplay | natforge-node/src/tunnel/shared.rs:135-201 | on the plain-HTTP port the replay is the head read, rewritten with the name looked up; with a head limit of at most 16384 it is never clipped |
| HttpPaths.HttpsReplay | natforge-node/src/tunnel/shared.rs:366-434 | on a terminated TLS connection the replay is the decrypted head, rewritten as intended exactly if the server name holds no CRLF; with a head limit of at most 16384 it is never clipped |
| Forwarded.LinesOfJoin | natforge-node/src/tunnel/shared.rs:239-245 | splitting a join of lines gives the lines back |
| Preamble.EncodePreamble | natforge-proto/src/lib.rs:228-259 | the appends produce the wire layout |
| Preamble.WireBytes | natforge-proto/src/lib.rs:206-259 | byte by byte, the encoding is the layout table: magic, version, route id, kind, address, port, length, replay, big-endian |
| Preamble.ReadPreamble | natforge-proto/src/lib.rs:263-324 | reading field by field decodes the stream and leaves exactly the bytes after the preamble |
| Preamble.ErrorsExactly | natforge-proto/src/lib.rs:263-324 | which streams are refused for the magic, the version and the address kind |
| Preamble.RoundTrip | natforge-proto/src/lib.rs:228-324 | decoding an encoding followed by any bytes returns the inputs and leaves exactly those bytes |
| Preamble.LosslessIff | natforge-proto/src/lib.rs:228-324 | nothing is lost exactly if the replay is at most 65535 bytes and an IPv6 peer has no flow label or scope |
| Preamble.TruncationIsEof | natforge-proto/src/lib.rs:263-324 | every strict prefix of an encoding is an incomplete stream, never a shorter preamble |
| Preamble.CanonicalIff | natforge-proto/src/lib.rs:263-324 | a stream that decodes is the encoding of its value and the rest, except that a preamble without a peer may carry any port |
| Datagrams.WriteAll | natforge-proto/src/lib.rs:329-335 | writing a list appends its frames |
| Datagrams.FrameBytes | natforge-proto/src/lib.rs:329-335 | a frame is the length, big-endian, and then the datagram |
| Datagrams.ReadDatagram | natforge-proto/src/lib.rs:338-351 | one read returns the next datagram and leaves the rest, a clean end, or an error inside a payload |
| Datagrams.DrainDatagrams | natforge-node/src/tunnel/mod.rs:783-788 | the relay loop returns every whole datagram of the stream and then how it ended |
| Datagrams.TruncatedList | natforge-proto/src/lib.rs:329-351 | a stream cut anywhere yields exactly the datagrams whose frames lie within the cut |
| Datagrams.CutEnding | natforge-proto/src/lib.rs:337-351 | a cut stream of fitting datagrams ends cleanly exactly if fewer than two bytes follow the last whole frame, and with an error otherwise |
| Datagrams.ListRoundTrip | natforge-proto/src/lib.rs:329-351 | a list of framed datagrams comes back and the stream then ends cleanly |
| Datagrams.RoundTripIff | natforge-proto/src/lib.rs:329-335 | it comes back unchanged exactly if every datagram fits the length prefix |
| Datagrams.StreamPartition | natforge-proto/src/lib.rs:338-351 | no byte is lost or read twice: a stream is the frames of what was read, then what was left |
| FlowTable.Listener.OnDatagram | natforge-node/src/tunnel/mod.rs:670-736 | one datagram is queued to its peer's flow, dropped, or opens a flow, as specified |
| FlowTable.Listener.OnClosed | natforge-node/src/tunnel/mod.rs:667-669 | one close signal removes its peer's entry |
| FlowTable.Listener.RelayOne | natforge-node/src/tunnel/mod.rs:773-778 | one datagram is taken off the queue, counted, then written |
| FlowTable.Listener.Finish | natforge-node/src/tunnel/mod.rs:794-809 | a finished flow adds its counters to the totals and then signals |
| FlowClaims.ArrivalExactly | natforge-node/src/tunnel/mod.rs:670-736 | a datagram goes to the end of the queue of its peer's receiving flow if that has room, or opens a flow, or to no flow; no other flow changes |
| FlowClaims.ClaimedIff | natforge-node/src/tunnel/mod.rs:670-736 | over every run, a datagram is among the claims of a flow exactly if, when it arrived, its peer's flow was receiving with fewer than 256 waiting, or it opened a flow |
| FlowClaims.NothingLost | natforge-node/src/tunnel/mod.rs:769-779 | until a flow ends, every datagram it claimed is written or still waits, in order |
| FlowClaims.MovesExactly | natforge-node/src/tunnel/mod.rs:757-796 | what each move of a flow does to its phase, queue, writes and returned bytes |
| FlowClaims.TurnsExactly | natforge-node/src/tunnel/mod.rs:794-809 | a turn moves its flow alone; only a report adds to the totals, only a signal goes into the channel, and it waits while 64 are there |
| FlowClaims.TotalsOfFinished | natforge-node/src/tunnel/mod.rs:794-809 | over every run the totals are the byte counts of all flows that have finished, and of no other |
| FlowTable.IsolationAndOrder | natforge-node/src/tunnel/mod.rs:655-810 | in every interleaving: at most 4096 entries, at most one flow a peer in the table, no datagram in two flows, and totals equal to the exact byte counts of the finished flows |
| FlowTable.WritesInOrder | natforge-node/src/tunnel/mod.rs:769-779 | what a flow writes is an order-preserving subsequence of the datagrams received from its peer |
| FlowTable.SignalTakesNewerIff | natforge-node/src/tunnel/mod.rs:667-669 | in every reachable state the first close signal takes out no flow older than its sender, and a newer one exactly if the table's entry for the peer is not the sender |
| FlowTable.EntryIff | natforge-node/src/tunnel/mod.rs:667-728 | over every run, the table's entry for a peer is newer than a given flow exactly if a newer flow was opened and nothing has taken the entry out since |
| FlowTable.SignalTakesNewerWhen | natforge-node/src/tunnel/mod.rs:667-728 | so the first close signal takes out a newer flow exactly if an unblocked datagram of the peer opened one after the sender's flow and the table has kept it |
| FlowTable.StaleSignalRemovesNewFlow | natforge-node/src/tunnel/mod.rs:667-669 | a concrete run in which a left-over close signal takes a newer, receiving flow out of the table |
| Enrollment.RunOk | natforge-backend/src/db/connection.rs:115-248 | in every interleaving, approvals, codes and tokens keep their invariants |
| Enrollment.AtMostOneWinner | natforge-backend/src/db/connection.rs:234-248 | at most one poll wins a device code: without a device, for a user whose sign-in approval of the code is on record; with one, on an enrolment approval by its owner, for the owner or for a user whose sign-in approval is on record |
| Enrollment.WinnerNeedNotOwn | natforge-backend/src/db/connection.rs:146-186 | a concrete run in which a poll wins for a user and a device the user does not own |
| Polls.AloneWinsIff | natforge-backend/src/db/connection.rs:188-248 | an uninterrupted poll wins exactly if the code is indexed and its hash stands for it and names an approving user and, if it enrols, a device; it wins for these and uses the code up, and otherwise changes nothing |
| Polls.TokensFromWins | natforge-backend/src/handlers/devices.rs:180-215 | over every run, every device token was issued to the user and for the device of a win, and an enrolling poll never wins without a device |
| Polls.IssuedAuthenticates | natforge-backend/src/handlers/devices.rs:202-205 | a token just issued authenticates, if its device still exists |
| Polls.AloneApproves | natforge-backend/src/db/connection.rs:146-186 | an uninterrupted approval is written exactly if the code exists and the device it names is the user's, and otherwise changes no hash |
| Polls.OwnersRevoke | natforge-backend/src/db/queries.rs:147-180 | only its owner can disconnect or delete a device; afterwards no token of it authenticates, and those of other devices do as before |
| ForeignWins.ForeignStep | natforge-backend/src/db/connection.rs:115-248 | one command makes the hash of a user code stand for a device and a user who does not own it exactly by a sign-in approval of someone else's device code, and ends that exactly by another approval, a new code, an expiry or a poll's clean-up |
| ForeignWins.ForeignIff | natforge-backend/src/db/connection.rs:115-248 | so over every run it does exactly if such an approval was made and none of these has happened since |
| ForeignWins.NamesIff | natforge-backend/src/db/connection.rs:163-186 | over every run the hash names a device exactly if an enrolment approval for it was written and since then none for another device, and no new code, expiry or clean-up |
| ForeignWins.TakesForeignIff | natforge-backend/src/db/connection.rs:188-248 | a poll that reads the hash takes the approval of someone other than the device's owner exactly if that holds at that moment |
| ForeignWins.WinnerForeignIff | natforge-backend/src/db/connection.rs:188-248 | every poll that wins a device code for a device took the approval at some command, and wins for someone other than the owner exactly if it held at that command |
| Enrollment.SupersededForGood | natforge-backend/src/jwt.rs:177-213 | a token issued before a later enrolment, a disconnection or a deletion of its device never authenticates again, whatever happens afterwards |
| Enrollment.OneTokenADevice | natforge-backend/src/jwt.rs:177-213 | at every moment at most one token of a device authenticates, and no revoked one |
| Enrollment.RevokesEarlier | natforge-backend/src/handlers/devices.rs:193-204 | a later enrolment, a disconnection and a deletion each revoke every token the device was issued before |
| Enrollment.RevokedForGood | natforge-backend/src/jwt.rs:206-208 | a revoked token never authenticates again |
| Limiter.Redis.RateLimitHit | natforge-backend/src/db/connection.rs:100-112 | uninterrupted, a hit is let through exactly if the window's hits, itself included, are at most `limit`; the first of a window makes the key expire `secs` later, any other leaves the expiry alone |
| Limiter.RunOk | natforge-backend/src/db/connection.rs:97-112 | in every interleaving of increments and expiries, windows start at least their length apart |
| Limiter.RunCounted | natforge-backend/src/db/connection.rs:100-112 | over every interleaving the key's count is the number of hits of its window |
| Limiter.WindowBound | natforge-backend/src/db/connection.rs:97-112 | each window admits at most `limit` hits |
| Limiter.IntervalBound | natforge-backend/src/db/connection.rs:97-112 | any stretch of `window_secs` seconds, ends included, admits at most twice `limit` |

## Left out

Simplifications inside what is modelled:

- Handlers.RequestTunnel: a handler's checks and its write are one atomic step, which the source does not guarantee; races between handlers are modelled for port claims only, in PoolLocks
- Allocator.ReserveThenReconnect: trimming and lower-casing of subdomains and labels happen before the model's inputs; a drawn subdomain is an input
- ControlPlane.Database.PickName: a name collision inside a transaction is modelled as the source's text has it, with the next draw tried; PostgreSQL would abort the transaction at the first collision
- ControlPlane.Database.ReserveTunnel: identity numbers lost by rolled-back inserts are not modelled; `tunnels.node_id` is never NULL
- ControlPlane.Database.FailoverStaleNodes: the answers to its two queries (target, pending tunnels) are inputs required to be answers; the sweep runs as one step although each of its moves is its own transaction
- Handlers.EditRoutes: routes are assumed to belong to a tunnel with a node; the node signal after a commit is not modelled
- RouteEdit.FindMaxId: ids are unbounded, not SMALLINT; the wrap at 32767 needs over 5000 edits of one tunnel
- PoolLocks.ConcurrentAgreement: one transaction a tunnel; concurrent transactions on the same tunnel are not modelled
- Registry.NoLeak: says nothing about the `tunnels` map or listener handles, which teardown removes unconditionally
- HttpPaths.PeekHost: read timeouts and errors appear as the end of the chunks; looking the name up, the dashboard and the 404 reply are left out
- HttpPaths.HttpsReplay: the TLS handshake is left out: the decrypted stream is an input
- FlowTable.IsolationAndOrder: idle timeouts and stream failures are events that may happen at any time; country blocking and the result of opening a stream are inputs
- Enrollment.AtMostOneWinner: device codes and nonces are drawn at most once, instead of with negligible probability twice
- Limiter.IntervalBound: the window length is at least one second; Redis errors, on which the caller lets the hit through, are not modelled
- Driver.RunDriver: polls are answered by a finite script; yamux internals are not modelled

Not modelled:

- the ACME responder and the dashboard proxy: glue; when a Host line is cut by a read, what is found depends on the chunking, and nothing is claimed
- the agent's UDP relay
- bandwidth and connection logs, metrics, Redis mirroring, GeoIP policy, SRV records and DNS
- JWT signing, password hashing, certificate loading, TLS itself
- the handlers of deletion, stopping and starting, which make the same ownership check as those of edits and moves
- subdomain changes, labels, custom domains and service names: single-row updates with a uniqueness check
- users, sessions and admin pages, the frontend, configuration, deployment
- `valid_custom_domain`, `srv_name`, `is_country_blocked` and similar single checks: easy members
