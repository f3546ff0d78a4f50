# l8tunnel in Dafny

A model of l8tunnel, a self-hosted reverse tunnel with a cluster registry, and proofs of what it promises. It covers:

- **the claims engine** of the cluster registry: who holds which tunnel name, public port and custom domain, while relays claim, park, release, announce and report from several machines and messages of dead sessions arrive late;
- **the standalone relay's name registry**, its expiry timers, its port search and its all-or-none registration, and that it decides claims as the engine does, call after call;
- **the edge**: smooth weighted round robin, also while members come and go, source hashing, least connections, retried dials, health, the rate limiter, domain validation, routes and listeners;
- **routing**: the closest wildcard and the cached copy of the live tables;
- **the package download's tar reader and writer**.

`dafny verify dfyconfig.toml` checks everything.

## How it is laid out

Code that changes things step by step is a class, or a method with loops; each method is proved against a function of its inputs or of the old state, and the theorems are about those functions.

| files | what they hold |
|---|---|
| `Wrappers`, `Records`, `Rules`, `Names` | options and results, the records of `proto/tun.proto`, the claim rules both deployments share, labels and wildcards |
| `Claims` | the engine as a function: the events a call reports, and what an event does to the five maps; runs are sequences of calls, each with its clock and management data |
| `ClaimTraces` | every event of every call is legal: a guard that says which record may be replaced by what, and on whose behalf |
| `GrantTheorems`, `Outcomes` | what each call must answer and leave in the tables, said of the records and the request and not of the call |
| `IndexTheorems`, `AnnounceTheorems`, `ReplayTheorems`, `DomainReaders`, `ClaimTheorems`, `SweepTheorems`, `HoldTheorems`, `LossTheorems`, `PortTheorems` | the engine's theorems over whole runs |
| `Engine`, `Directory`, `DirectoryOutcomes`, `RegistryRuns`, `RegistryExamples`, `Reconcile` | the engine class, the reservation writer, runs of the engine with its reservations, failing writes and restarts, and the live tables |
| `Standalone`, `StandaloneOutcomes`, `StandaloneTheorems`, `NameRegistry`, `OpenTunnel` | the single-relay deployment |
| `Alike`, `AlikeRuns`, `AlikeExamples` | the single relay beside the engine |
| `RoundRobin`, `FairShares`, `SourceHash`, `Health`, `Pool`, `RateLimit`, `RateOutcomes` | load balancing and rate limiting |
| `LiveView`, `LiveOutcomes`, `EdgeConf`, `EdgeRoutes`, `Edge`, `EdgeOutcomes` | resolution, stored domains, routes and listeners |
| `Tar`, `TarFields` | the package archive |

Iteration over a Go map is modelled as iteration in an arbitrary order that the call reports, so a theorem about a call holds for every order. The clock, the management data a claim is checked against, bind and dial outcomes, hashes and what the registry answers are parameters.

## What turned out not to hold

- An announced tunnel is stored without a port or domain check, so two tunnels can share a port: two relays that report to a new engine are enough (`AnnounceTheorems.TwoRelaysShareAPort`). An announcement of distinct names keeps ports and domains exclusive exactly when what it stores clashes neither with itself nor with a tunnel it does not replace (`AnnounceTheorems.AnnounceKeepsCompleteIff`).
- A port is permanent across restarts only when the restarted registry could load the reservations (`RegistryRuns.RestartNeedsTheReservations`), and exactly until a write moves it to another port its own token got or announced (`RegistryRuns.ReservationStays`, `RegistryExamples.OwnerMovesItsPort`). It begins exactly when nothing relays were told before is against it (`RegistryRuns.PermanenceBegins`): a relay that was cut off can announce an older holder of the port (`RegistryExamples.CutOffRelayTakesThePort`).
- A change of domains alone is reported as an update, which is not pushed. A reader that listens only to pushes is right about relay, state and port (`ReplayTheorems.PushedReaderIsRight`), and about domains exactly as long as no update changes them (`DomainReaders.DomainReaderIsRightIff`, for a claim `DomainReaders.ClaimIsHeardIff`); an agent that comes back over the same relay with a new domain is missed (`DomainReaders.ReopenedDomainIsMissed`).
- With a grace period under one second, the sweep that declares a relay lost can also free its tunnels: exactly when the period ends within the clock's current second (`HoldTheorems.LostRelayIsHeldIff`).
- The standalone registry's sections break its bookkeeping when the reservation was released between them; `StandaloneTheorems` gives the exact condition for each, and runs that reach it: a port taken by nobody (`StandaloneTheorems.SetPortCanLeakAPort`), a domain of nobody's (`StandaloneTheorems.SetDomainsCanDangle`), a port of another tunnel freed (`StandaloneTheorems.RollbackCanFreeAnothersPort`). An expiry that was waiting for the lock can end a later grace period early (`StandaloneTheorems.LateExpiryCanCutGraceShort`).
- A failed registration does not restore what it touched: a reclaimed tunnel can lose a domain (`OpenTunnels.FailedReopenCanLoseADomain`) or its port (`OpenTunnels.FailedRegistrationCanMoveAPort`). `OpenTunnels.FailedAttemptRestoresIff` and `OpenTunnels.UndoneTunnelRestoredIff` say exactly when a reservation is as before, `OpenTunnels.UndoneKeeps` what always stays.
- A reservation given up, or a token revoked, frees a parked name at once on a standalone relay; the engine holds it for the rest of the grace period. After a registration that failed on a reclaimed name it is the other way round. `AlikeRuns.UnreserveKeepsAlikeIff`, `AlikeRuns.RevokeKeepsAlikeIff` and `AlikeRuns.UndoKeepsAlikeIff` say exactly when the two stay alike; `AlikeExamples` has the runs in which another token is answered differently.
- The live view passes over a parked owner of a domain where a relay does not (`LiveViews.LiveServesAlike` says exactly when they serve alike).
- Two forwards of a site may share an id; then the first one's pool is not stored and its health is forgotten whenever the domains are applied (`EdgeServer.SharedIdForgetsHealth`, `EdgeServer.RoutesUseStoredPoolsIff`).
- While the live tables are reconciled the engine goes on, and the loop can make a right row wrong in three ways: a record created meanwhile loses its row (`LiveTables.NewRowCanBeDropped`) and gets no update either (`LiveTables.MissingStays`), a record changed meanwhile gets its older row back (`LiveTables.NewerRowCanBeOverwritten`), and the row of a deleted record comes back (`LiveTables.DeletedRowCanComeBack`). `LiveTables.LoopRightIff` says exactly when a key stays right.
- The package download reads a template that was cut short, and the package made from it reads back exactly when the cut entry is not kept (`Tar.PackageRoundTrip`, `Tar.CutTemplate`).

## Model

| member | source | states |
|---|---|---|
| `ClaimRules.TunnelNameRoundTrip` | go/tunnel/registry/rules.go:97-105 | the tunnel name of a host is `name` exactly when `name` is a DNS label and the host is `name.<base>` |
| `ClaimTraces.EventsLegal` | go/tunnel/claims/engine.go:110-225 | every event of every call, in the state it is reported in, is one the guard allows: created, updated, moved and deleted as the tables have it, and a stored record only replaces what its sender may replace |
| `IndexTheorems.IndexesAlwaysSound` | go/tunnel/claims/engine.go:169-207 | in every run, announces included, each port or domain index entry points at a stored tunnel that has that port or domain |
| `IndexTheorems.StoreKeepsComplete` | go/tunnel/claims/engine.go:169-186 | storing a record keeps every tunnel's port and domains indexed to it exactly when they are held by no other name |
| `AnnounceTheorems.AnnounceKeepsComplete` | go/tunnel/claims/lifecycle.go:38-85 | an announcement whose stored tunnels clash neither with each other nor with tunnels it does not replace keeps the indexes complete, in any order of the map |
| `AnnounceTheorems.UncleanAnnounceShares` | go/tunnel/claims/lifecycle.go:51-66 | any other announcement of distinct names leaves two tunnels with one port or domain |
| `AnnounceTheorems.AnnounceKeepsCompleteIff` | go/tunnel/claims/lifecycle.go:38-85 | so an announcement of distinct names keeps the indexes complete exactly when it is clean; tunnels it skips do not count |
| `AnnounceTheorems.IndexesComplete` | go/tunnel/claims/engine.go:1-7 | every step of every run whose announcements are clean keeps the indexes complete |
| `AnnounceTheorems.NoTwoTunnelsShare` | go/tunnel/claims/engine.go:1-7 | after every such run from the start, no two tunnels share a name, a port or a domain |
| `AnnounceTheorems.AnnounceCanShareAPort` | go/tunnel/claims/lifecycle.go:51-66 | announcing a new tunnel on a port another tunnel holds leaves both with it, in every order of the map |
| `AnnounceTheorems.TwoRelaysShareAPort` | go/tunnel/claims/lifecycle.go:38-85 | the run: two relays announce one port to a new engine |
| `ClaimTheorems.ClaimAllOrNothing` | go/tunnel/claims/claim.go:12-59 | a claim changes and reports nothing, or stores one connected record of the session per requested tunnel, in order, and touches no other record |
| `ClaimTheorems.ClaimStores` | go/tunnel/claims/claim.go:35-57 | a granted claim's state is exactly its records stored one after the other; its commands change nothing |
| `ClaimTheorems.FirstFreeIsLowest` | go/tunnel/claims/claim.go:168-179 | the port search finds the lowest free port of the range, and none exactly when none is free |
| `ClaimTheorems.PortChoice` | go/tunnel/claims/claim.go:126-179 | the assigned port is the first of requested, reserved, held, previous if free, lowest free in range; "no free port" exactly when nothing was asked for and the range has none |
| `ClaimTheorems.OneCommandPerTakeover` | go/tunnel/claims/claim.go:35-57 | a granted claim sends exactly one TAKEN_OVER command per tunnel that was still connected through another relay, addressed to that relay and tunnel, and no other command |
| `ClaimTheorems.ClaimRespectsCap` | go/tunnel/claims/claim.go:114-124 | after an accepted claim with cap m > 0, for any number of tunnels, the token has at most m connected tunnels |
| `ClaimTheorems.CapsHoldInEveryRun` | go/tunnel/claims/claim.go:114-124 | with fixed caps no token exceeds its own in any run without announces |
| `GrantTheorems.HolderGrantsIff` | go/tunnel/registry/rules.go:166-186 | the holder and the cap let a tunnel of a claim through exactly when the name is free or may be replaced, and the token's connected tunnels, the staged ones and this one together are within the cap |
| `GrantTheorems.NameGrantsIff` | go/tunnel/claims/claim.go:61-112 | the checks of a name pass exactly when it is a label that is not the deployment's own, no other token has it reserved, nobody else is in the way and the cap has room; otherwise the first of these that fails is the answer |
| `GrantTheorems.DomainsOpenMeans` | go/tunnel/claims/claim.go:84-97 | the domain check passes exactly when no other tunnel and no staged one has one of the domains, whenever the indexes are sound and complete |
| `GrantTheorems.PortIs` | go/tunnel/claims/claim.go:126-179 | the port a tunnel gets: the one asked for (the request's, else the reserved one, else the held one) if no other tunnel has it and no other name has it reserved; else the agent's previous one, else the lowest open one of the token's range; and why there is none |
| `GrantTheorems.CheckGrantsIff` | go/tunnel/claims/claim.go:61-112 | one tunnel's checks give it a record exactly when, beside the ones staged, all these conditions hold and that is its record, field by field |
| `GrantTheorems.ClaimGrantsExactly` | go/tunnel/claims/claim.go:12-59 | a claim of any number of tunnels is granted with given records exactly when it names its agent, token and session and each tunnel in turn is to be granted its record |
| `GrantTheorems.ClaimRefusedFor` | go/tunnel/claims/claim.go:12-59 | a refused claim is invalid, or its first tunnels could be granted and the next one fails for exactly the reason answered |
| `Outcomes.AnnounceOutcome` | go/tunnel/claims/lifecycle.go:38-85 | in any order of the map that covers it: a taken tunnel is recorded as announced, the last one of a name counting; every other tunnel the relay had connected is held for the grace period; every other record is as before; the agents are the relay's; the relay is seen if it reports itself; a simulated relay where none are allowed changes nothing |
| `Outcomes.AnnounceAnswers` | go/tunnel/claims/lifecycle.go:51-66 | the answer lists, in order, exactly the announced names another relay serves for a different agent at that point |
| `Outcomes.HeartbeatOutcome` | go/tunnel/claims/lifecycle.go:87-131 | the relay is seen, the counters of the tunnels it has connected and the load of its agents' sessions are the last reported ones, and nothing else changes |
| `Outcomes.AgentUpOutcome` | go/tunnel/claims/lifecycle.go:133-152 | the agent is online through the relay from now on, exactly when it names itself and its session and is not a simulation where none are allowed |
| `Outcomes.AgentDownOutcome` | go/tunnel/claims/lifecycle.go:154-173 | only the agent's own relay and session take it down: for the grace period, or for good when its token was revoked |
| `Outcomes.CommandOutcome` | go/tunnel/claims/sweep.go:73-116 | draining and resuming need a relay that is up and change only its state; a disconnection needs the agent online or the tunnel connected; a reannouncement needs nothing; anything else is refused, and changes nothing |
| `Outcomes.CommandIsSent` | go/tunnel/claims/sweep.go:73-116 | a command is sent, to the relay that has the agent or tunnel or to all, exactly when it is answered with one |
| `LossTheorems.ReportIsSeen` | go/tunnel/claims/lifecycle.go:115-131 | a relay that reports itself is up and last seen at that moment |
| `LossTheorems.SilentRelay` | go/tunnel/claims/sweep.go:11-49 | through every run in which a relay is silent it is up until the first sweep at which its last report is older than the timeout, and down, then forgotten, from that sweep on |
| `LossTheorems.DownExactlyWhenSilent` | go/tunnel/claims/sweep.go:11-71 | after a report at one time and any run without another, a sweep takes the relay down exactly when the report is older than the timeout and no sweep took it down before; then each tunnel it has connected is held for the grace period, or freed if that is over at once, and otherwise keeps its record |
| `ReplayTheorems.ReplayGivesTheTables` | go/tunnel/claims/engine.go:169-225 | replaying a run's events over the tables gives exactly the engine's tunnels, agents and relays; every create finds its row missing, every other change finds it |
| `ReplayTheorems.ExecFollowsLog` | go/tunnel/claims/engine.go:164-225 | the engine's state, indexes included, is what its event log makes of the starting state |
| `ReplayTheorems.PushedExactlyWhen` | go/tunnel/claims/engine.go:169-186 | a change is pushed exactly when it changes where some tunnel's traffic goes |
| `ReplayTheorems.PushedReaderIsRight` | go/tun/live/sink.go:17-25 | a reader that hears only the pushed changes is right about each tunnel's relay, state and port after every run |
| `DomainReaders.ChangeIsHeardIff` | go/tun/live/sink.go:17-25 | a reader that keeps domains and hears only pushes stays right over a change exactly when it is not an update with other domains |
| `DomainReaders.OnlyNewRecordsAreSilent` | go/tunnel/claims/engine.go:169-186 | only a claim or an announcement can be such an update |
| `DomainReaders.DomainReaderIsRightIff` | go/tun/live/sink.go:17-25 | through every run it is right after each change exactly when there was no such update |
| `DomainReaders.ClaimIsHeardIff` | go/tunnel/claims/claim.go:12-59 | it is right after a granted claim exactly when no record of it replaces one of the same relay, state and port with other domains |
| `DomainReaders.ReopenedDomainIsMissed` | go/tunnel/claims/claim.go:12-59 | a run from the start: the agent claims its name again over the same relay with a domain, and the reader does not have it |
| `SweepTheorems.SweepOutcome` | go/tunnel/claims/sweep.go:11-71 | whatever order the maps are visited in, a sweep takes down the relays last seen more than the timeout ago, parks what they served, drops expired tunnels, ages agents and forgets relays down past the retention: one closed form for the three tables, in the times themselves |
| `SweepTheorems.SweepIsOrderIndependent` | go/tunnel/claims/sweep.go:11-71 | two sweeps in different orders leave the same state, indexes included |
| `SweepTheorems.SweepKeepsIndexes` | go/tunnel/claims/sweep.go:11-71 | a sweep keeps the indexes sound and complete |
| `HoldTheorems.ConnectedTunnelUndisturbed` | go/tunnel/claims/lifecycle.go:9-115 | a connected tunnel's record survives every run of calls that are not its own session's and do not lose its relay |
| `HoldTheorems.LateMessagesAreHarmless` | go/tunnel/claims/lifecycle.go:11-36 | after a session claims, any sequence, order or repetition of PARK, RELEASE and AGENT_DOWN of other sessions and of other relays' heartbeats leaves its records unchanged |
| `HoldTheorems.SweepTouchesLostOnly` | go/tunnel/claims/sweep.go:13-32 | a sweep touches a connected tunnel exactly when it finds its relay lost |
| `HoldTheorems.GraceHold` | go/tunnel/claims/lifecycle.go:9-25 | until its deadline a parked tunnel that shares nothing keeps its name, port and domains in every run without a matching release, a park with an earlier deadline, an announcement of the name or of what it holds, or a claim of the name by its own token |
| `HoldTheorems.SweepKeepsHold` | go/tunnel/claims/sweep.go:33-38 | a sweep before the deadline leaves the hold, in any order; one at or after it frees the name |
| `HoldTheorems.HoldKeepsOthersOff` | go/tunnel/claims/claim.go:61-112 | while it lasts no other token's claim gets the name, and no claim gets the port or a domain for another name |
| `HoldTheorems.OwnerReclaimsItsPort` | go/tunnel/claims/claim.go:126-179 | a claim of the held name that asks for no port is never refused for its port, and when granted its record has the held one, unless another is reserved |
| `HoldTheorems.LostRelayIsHeld` | go/tunnel/claims/sweep.go:51-71 | a tunnel whose relay a sweep declares lost is held from then on exactly when the clock's second changes within the grace period |
| `HoldTheorems.LostRelayIsHeldIff` | go/tunnel/claims/sweep.go:51-71 | in nanoseconds: held until the second the grace ends in, exactly when the clock's fraction and the grace make a second |
| `HoldTheorems.ParkOutcome` | go/tunnel/claims/lifecycle.go:9-25 | PARK parks exactly the named tunnels the sending relay and session serve, in any order and with repetitions |
| `HoldTheorems.ParkHolds` | go/tunnel/claims/lifecycle.go:9-25 | a parked tunnel is held until the deadline the request carries, or for the grace period |
| `HoldTheorems.ReleaseOutcome` | go/tunnel/claims/lifecycle.go:27-36 | RELEASE frees exactly the named tunnels the sending relay and session serve |
| `PortTheorems.PortIsPermanent` | go/tunnel/claims/claim.go:72-80 | while a reservation is stored, in every run no other name gets its port and no other token its name |
| `PortTheorems.OwnerGetsTheReservedPort` | go/tunnel/claims/claim.go:130-179 | a claim of a reserved name that asks for no port is never refused for its port, and when granted its record has the reserved one, whatever else the request stages |
| `PortTheorems.AcceptedClaimsRespect` | go/tunnel/claims/claim.go:61-112 | every record of an accepted claim respects the reservation: name, token and port |
| `RegistryRuns.ReservationStays` | go/tun/live/directory.go:87-150 | in every run of calls, background reservations whose writes may fail, reloads and restarts that may fail, a stored reservation is there all the time exactly when no write that gets through moves it to another port of its own token; its name stays its token's |
| `RegistryExamples.OwnerMovesItsPort` | go/tun/live/directory.go:121-150 | a run from the start in which one does |
| `RegistryRuns.PortSurvivesRestarts` | README.md:111-120 | in every run of claims, parks, releases, sweeps, announcements of what the engine once said, failing writes, reloads, operators' changes and restarts that reload, no other name gets the port and no other token the name |
| `RegistryRuns.ClaimsGetThePort` | go/tunnel/claims/claim.go:61-112 | at any point of such a run a granted claim of the name gets the port, or none if its kind has none |
| `RegistryRuns.RestartNeedsTheReservations` | go/tun/live/registry.go:26-43 | after a restart no claim can take the port or the name exactly when the reservations were reloaded |
| `RegistryRuns.PermanenceBegins` | go/tun/live/actions.go:19-39 | after a claim, its background writes and a reload, every assigned port whose write got through is in the state those runs start from exactly when no fact relays were told before is against it |
| `RegistryExamples.CutOffRelayTakesThePort` | go/tunnel/claims/lifecycle.go:38-85 | a run from the start in which one is: a restart forgets a port, another tunnel gets it reserved, and the first one's relay announces it |
| `PortDirectory.Directory.ReserveAssigned` | go/tun/live/directory.go:87-150 | reserves every port a claim assigned or an announcement reported without conflict, moves the token's own reservation to it and leaves another token's alone; writes may fail |
| `PortDirectory.ReserveKeepsUnique` | go/tun/live/directory.go:87-150 | it keeps one reservation per name and one name per port, whichever writes fail |
| `PortDirectory.ClaimIsReservable` | go/tunnel/claims/claim.go:12-112 | every port a granted claim assigned can be reserved for its name and token |
| `PortDirectory.AssignedPortsAreReserved` | go/tun/live/directory.go:87-150 | each assigned port whose write got through is reserved for its name and token, whichever other writes failed |
| `DirectoryOutcomes.DueExactly` | go/tun/live/directory.go:92-123 | the ports to reserve are exactly those of a claim's granted tunnels, or of the announced ones without conflict that are no simulation, each for its own token or else the request's |
| `DirectoryOutcomes.OneReserved` | go/tun/live/directory.go:111-144 | a write gets through exactly when the backend answers, the name can be a tunnel's, the port is in the range and no other name's, and the name is new or the token's own with another port; then exactly that reservation is the name's, and otherwise nothing changes |
| `ClaimsEngine.Engine.SetTunnel` | go/tunnel/claims/engine.go:164-186 | the record and its port and domains replace the name's old ones in the maps and indexes, and one event of the right kind is reported |
| `ClaimsEngine.Engine.DeleteTunnel` | go/tunnel/claims/engine.go:188-196 | the record and its index entries are gone and a deletion is reported; nothing happens when there is no record |
| `ClaimsEngine.Engine.Unindex` | go/tunnel/claims/engine.go:198-207 | only index entries of the record that still point at its name are dropped |
| `ClaimsEngine.Engine.SetAgent` | go/tunnel/claims/engine.go:209-216 | stores the agent and reports it created or updated |
| `ClaimsEngine.Engine.SetRelay` | go/tunnel/claims/engine.go:218-225 | stores the relay and reports it created or updated |
| `ClaimsEngine.Engine.Active` | go/tunnel/claims/claim.go:114-124 | the count is the size of a set: the token's other connected tunnels, plus the staged ones counted once |
| `ClaimsEngine.Engine.Port` | go/tunnel/claims/claim.go:126-179 | the scan chooses the port the rules choose |
| `ClaimsEngine.Engine.CheckSpec` | go/tunnel/claims/claim.go:61-112 | one tunnel's checks against the maps and the staging maps agree with the rules on records |
| `ClaimsEngine.Engine.Claim` | go/tunnel/claims/claim.go:12-59 | staging in three maps and committing afterwards answers, stores, reports and commands what the rules say |
| `ClaimsEngine.Engine.Park` | go/tunnel/claims/lifecycle.go:9-25 | the loop reports and stores the PARK events of the named tunnels |
| `ClaimsEngine.Engine.Release` | go/tunnel/claims/lifecycle.go:27-36 | the loop reports and removes the RELEASE events of the named tunnels |
| `ClaimsEngine.Engine.Announce` | go/tunnel/claims/lifecycle.go:38-85 | stores what it may, reports the conflicting names, parks what the relay no longer serves and brings its agents up, in some order of the map that covers it |
| `ClaimsEngine.Engine.Heartbeat` | go/tunnel/claims/lifecycle.go:87-113 | only counters of tunnels and agents the sender serves change, and the relay is seen |
| `ClaimsEngine.Engine.TouchRelay` | go/tunnel/claims/lifecycle.go:115-131 | the relay is stored as reported, up, seen now and with its old start time |
| `ClaimsEngine.Engine.AgentUp` | go/tunnel/claims/lifecycle.go:133-152 | the agent is online through the sender, or the request is refused |
| `ClaimsEngine.Engine.AgentDown` | go/tunnel/claims/lifecycle.go:154-173 | the agent goes into its grace period only for the session that holds it |
| `ClaimsEngine.Engine.LostRelay` | go/tunnel/claims/sweep.go:51-71 | the relay is down and what it served is parked, visiting the maps in some order |
| `ClaimsEngine.Engine.Sweep` | go/tunnel/claims/sweep.go:11-49 | the three loops over the maps do a sweep in some order that visits everything |
| `ClaimsEngine.Engine.Execute` | go/tunnel/claims/sweep.go:73-116 | an operator command is filled in, refused or sent; a tunnel that is connected is always found |
| `ClaimsEngine.Engine.Handle` | go/tunnel/claims/engine.go:108-135 | every request kind runs its call and answers as it does: granted records, conflicting names, refusals; one without a relay or a kind changes nothing |
| `LiveTables.View.Apply` | go/tun/live/views.go:44-61 | a create needs a missing row, a replacement a present one, a deletion no row at all; a refused write changes nothing |
| `LiveTables.View.Reconcile` | go/tun/live/registry.go:63-116 | whatever the rows were, they are the snapshot's afterwards, and every write was accepted, while the engine rests |
| `LiveTables.EventIsReported` | go/tun/live/sink.go:17-33 | every event of the engine is a change of its table that the sink mirrors: a creation of a missing record, anything else of one it has |
| `LiveTables.SinkRightIff` | go/tun/live/views.go:44-61 | whatever the row was, a creation makes the key right unless another row is there, an update exactly when one is, a deletion always |
| `LiveTables.ChangesKeepRight` | go/tun/live/sink.go:17-33 | any number of the engine's changes, among the loop's writes of other keys, keep a right key right |
| `LiveTables.LoopRightIff` | go/tun/live/registry.go:66-109 | after any changes since the snapshot, the loop's write leaves a right key right exactly when the engine has what the snapshot has, or the patch is refused because the key came or went since the keys were read |
| `LiveTables.ReconcileAll` | go/tun/live/registry.go:63-109 | the three tables are the resting engine's afterwards |
| `LiveTables.UntouchedKeyIsRight` | go/tun/live/registry.go:63-116 | with the engine's own changes in between, every key they do not touch is right once the loop came to it, whatever the table had |
| `LiveTables.MissingStays` | go/tun/live/views.go:44-61 | a row that is missing stays missing through all the engine's changes but a deletion |
| `LiveTables.NewRowCanBeDropped` | go/tun/live/registry.go:84-88 | from right tables: a record created after the snapshot loses its row |
| `LiveTables.NewerRowCanBeOverwritten` | go/tun/live/registry.go:79-83 | from right tables: a record changed after the snapshot gets its older row back |
| `LiveTables.DeletedRowCanComeBack` | go/tun/live/registry.go:79-83 | from right tables: the row of a record deleted after the snapshot comes back |
| `StandaloneTheorems.StepKeeps` | go/tunnel/relay/registry.go:47-376 | every locked section keeps the bookkeeping consistent |
| `StandaloneTheorems.AlwaysConsistent` | go/tunnel/relay/registry.go:47-376 | so does every interleaving of claim, activate, setDomains, setPort, reservePort, releasePort, park, rollback, expire, reserve, unreserve, releaseToken and close |
| `StandaloneTheorems.ConsistentMeans` | go/tunnel/relay/registry.go:16-41 | consistent means: the port set is exactly the registered reservations' distinct ports and the ports being bound, no domain has two holders, and every reservation is connected, permanent or has its expiry armed |
| `StandaloneOutcomes.ClaimAnswers` | go/tunnel/relay/registry.go:47-98 | a claim is granted exactly when the name is free, or its reservation is the token's, not the session's own and not connected to another agent, and the token's connected names with it are within the cap; as new, taken over or reclaimed |
| `StandaloneOutcomes.ClaimOutcome` | go/tunnel/relay/registry.go:47-87 | a refused claim changes nothing; a new reservation is connected and bare; a reclaimed one is connected to the session, with its expiry stopped and its port, domains and permanence as before |
| `StandaloneOutcomes.ParkOutcome` | go/tunnel/relay/registry.go:107-129 | nothing when the session moved on; a permanent reservation stays; on a closing or clustered relay it is freed; otherwise it expires after the grace period |
| `StandaloneOutcomes.ParkReleased` | go/tunnel/relay/registry.go:107-129 | a reservation released meanwhile only forgets its session |
| `StandaloneOutcomes.RollbackOutcome` | go/tunnel/relay/registry.go:131-143 | a failed open parks again what it reclaimed, frees what it made, and leaves what another session has by now |
| `StandaloneOutcomes.ExpireOutcome` | go/tunnel/relay/registry.go:145-169 | an expiry frees exactly a registered, parked, non-permanent reservation: its name, port and domains, and nothing else |
| `StandaloneOutcomes.SetDomainsOutcome` | go/tunnel/relay/registry.go:176-195 | refused exactly when another reservation has one of the domains; otherwise exactly they are the reservation's, in its list and in the index |
| `StandaloneOutcomes.ReserveRefusedIff` | go/tunnel/relay/registry.go:216-231 | refused for the name exactly when another token has it, for the port exactly when it is another name's or being bound |
| `StandaloneOutcomes.ReserveOutcome` | go/tunnel/relay/registry.go:216-248 | an accepted reservation leaves the name the token's for good, unarmed, on the port asked for or else the one it had, with everything else it had; its old port is free |
| `StandaloneOutcomes.ReserveTwice` | go/tunnel/relay/registry.go:216-248 | a refused one changes nothing; an accepted one repeated is accepted and changes nothing |
| `StandaloneOutcomes.UnreserveOutcome` | go/tunnel/relay/registry.go:250-263 | a reservation given up is no longer permanent, and is freed unless it is connected; one that is not permanent is left alone |
| `StandaloneOutcomes.ReleaseTokenOutcome` | go/tunnel/relay/registry.go:265-280 | exactly the token's reservations are freed, connected and permanent ones included |
| `StandaloneOutcomes.CloseOutcome` | go/tunnel/relay/registry.go:359-376 | exactly the parked, non-permanent reservations are freed, and no expiry is left |
| `StandaloneOutcomes.ReservePortOutcome` | go/tunnel/relay/registry.go:294-309 | a port is taken for binding exactly when nobody has it, and giving it back restores the state |
| `StandaloneOutcomes.SetPortOutcome` | go/tunnel/relay/registry.go:310-318 | the bound port is the reservation's, the one it had is free, and the port is no longer being bound |
| `StandaloneTheorems.LateExpiryIsHarmless` | go/tunnel/relay/registry.go:145-151 | an expiry, however late, does something exactly when its reservation's expiry is armed, and never removes a connected or permanent one or touches another |
| `StandaloneTheorems.SetPortKeepsIff` | go/tunnel/relay/registry.go:310-318 | setPort keeps the bookkeeping exactly when the reservation is still registered |
| `StandaloneTheorems.SetDomainsKeepsIff` | go/tunnel/relay/registry.go:176-195 | setDomains keeps it exactly when the reservation is still registered, the domains are refused or there are none |
| `StandaloneTheorems.RollbackKeepsIff` | go/tunnel/relay/registry.go:131-169 | rollback keeps it exactly when the reservation existed, is still registered or has moved on, or its port is nobody's |
| `StandaloneTheorems.SetPortCanLeakAPort` | go/tunnel/relay/registry.go:310-318 | a run in which it is not: the port stays taken with nobody holding it |
| `StandaloneTheorems.SetDomainsCanDangle` | go/tunnel/relay/registry.go:176-195 | a run in which a domain is left to a reservation that is gone |
| `StandaloneTheorems.RollbackCanFreeAnothersPort` | go/tunnel/relay/registry.go:131-169 | a run in which rollback breaks it: the port of another token's tunnel leaves the port set |
| `StandaloneTheorems.LateExpiryCanCutGraceShort` | go/tunnel/relay/registry.go:145-151 | a run in which an expiry of an earlier grace period ends a later one before its time |
| `StandaloneTheorems.DeleteOneMore` | go/tunnel/relay/registry.go:265-280 | deleting reservations one by one gives the same state in every order |
| `StandaloneTheorems.TakenDomainFinds` | go/tunnel/relay/registry.go:176-184 | the domains are refused exactly when another reservation holds one of them, and that one is named |
| `NameRegistries.NameRegistry.Active` | go/tunnel/relay/registry.go:89-98 | the count is the number of the token's connected names other than this one |
| `NameRegistries.NameRegistry.Claim` | go/tunnel/relay/registry.go:47-87 | the claim is decided by the shared rules; a new reservation, or the reclaimed one connected to the session with its expiry stopped |
| `NameRegistries.NameRegistry.Delete` | go/tunnel/relay/registry.go:153-169 | the name, the port and the domain entries that are the reservation's are gone |
| `NameRegistries.NameRegistry.Park` | go/tunnel/relay/registry.go:107-129 | parks for the grace period, keeps a permanent one, deletes on a closing or clustered relay, and does nothing after a takeover |
| `NameRegistries.NameRegistry.Rollback` | go/tunnel/relay/registry.go:131-143 | a reclaimed reservation is parked again, a new one deleted |
| `NameRegistries.NameRegistry.Expire` | go/tunnel/relay/registry.go:145-151 | deletes only a registered, parked, non-permanent reservation |
| `NameRegistries.NameRegistry.SetDomains` | go/tunnel/relay/registry.go:176-195 | replaces the reservation's domains all or nothing and names the first taken one |
| `NameRegistries.NameRegistry.Reserve` | go/tunnel/relay/registry.go:216-248 | makes the name permanent, moves its port, or refuses another token's name or a taken port |
| `NameRegistries.NameRegistry.Unreserve` | go/tunnel/relay/registry.go:250-263 | no longer permanent, and gone when parked |
| `NameRegistries.NameRegistry.ReleaseToken` | go/tunnel/relay/registry.go:265-280 | exactly the token's reservations are gone, in whatever order, and exactly their sessions are returned |
| `NameRegistries.NameRegistry.ReservePort` | go/tunnel/relay/registry.go:294-302 | takes the port for binding unless it is in the port set |
| `NameRegistries.NameRegistry.SetPort` | go/tunnel/relay/registry.go:310-318 | the reservation has the bound port and its old one is free |
| `NameRegistries.NameRegistry.Close` | go/tunnel/relay/registry.go:359-376 | exactly the parked, non-permanent reservations are gone |
| `NameRegistries.TryListen` | go/tunnel/relay/tunnel.go:255-266 | the port is reserved exactly when it was free and could be bound; otherwise the registry is as before |
| `NameRegistries.SearchPort` | go/tunnel/relay/tunnel.go:244-253 | finds the lowest port of the range that is free and binds, or none when every one is taken or fails |
| `NameRegistries.ListenTunnelPort` | go/tunnel/relay/tunnel.go:204-253 | the held port, else the requested one, else the previous one while free, else the lowest free one; refused exactly when the one wanted is taken or does not bind, or the range has none, and then nothing changed; the bookkeeping stays consistent |
| `OpenTunnels.OpenTunnel` | go/tunnel/relay/tunnel.go:44-138 | it succeeds exactly when the checks pass, the name may be claimed, its domains are free and its kind needs no port or finds one; then the name is connected to the session with the request's kind, agent and domains and the port it gets (held, asked, previous or lowest), a reclaimed one otherwise unchanged; else no name was added or lost, nothing else was touched and a reclaimed reservation is exactly the undone one |
| `OpenTunnels.Register` | go/tunnel/relay/session.go:220-266 | every requested tunnel is open as asked, with its own kind, domains and tunnel; or the one answered could not be opened after the ones before it were, no name was added or lost and every reservation is as it was or is exactly the undone one of a requested name |
| `OpenTunnels.UndoneKeeps` | go/tunnel/relay/registry.go:131-143 | an undone reservation keeps its name, token and permanence and is parked |
| `OpenTunnels.RestoredIff` | go/tunnel/relay/registry.go:107-143 | it is the old one exactly when that was parked, of the same kind and agent, the attempt left its domains and port, and it is permanent or its expiry falls on the same moment |
| `OpenTunnels.FailedAttemptRestoresIff` | go/tunnel/relay/tunnel.go:44-138 | a failed attempt restores the reservation exactly when, moreover, its domains were the held ones or were refused |
| `OpenTunnels.UndoneTunnelRestoredIff` | go/tunnel/relay/session.go:220-266 | one that was reopened before a later tunnel failed is restored exactly when its domains were the held ones and it asked for no other port |
| `OpenTunnels.FailedReopenCanLoseADomain` | go/tunnel/relay/tunnel.go:44-138 | a run in which a failed reopening frees the domain of a name that is still held |
| `OpenTunnels.FailedRegistrationCanMoveAPort` | go/tunnel/relay/session.go:220-266 | a run in which a failed registration leaves a parked tunnel with another port and its own free |
| `Alike.DecideAlike` | go/tunnel/relay/registry.go:47-98 | where both hold the names alike, a claim of one tunnel is accepted, refused as taken or refused for the cap by the standalone registry exactly when it is by the engine |
| `Alike.ClaimKeepsAlike` | go/tunnel/claims/claim.go:61-124 | they hold every name alike after a claim both grant |
| `AlikeRuns.ParkOne` | go/tunnel/relay/registry.go:107-129 | and after the session of a name ends in both, also when it no longer serves it |
| `AlikeRuns.SweepKeepsAlikeIff` | go/tunnel/claims/sweep.go:11-49 | expiries in the relay and the engine's sweep keep them alike exactly when the sweep takes no connected tunnel's relay for lost |
| `AlikeRuns.ReserveKeepsAlike` | go/tunnel/relay/registry.go:216-248 | so does a reservation both accept |
| `AlikeRuns.UnreserveKeepsAlikeIff` | go/tunnel/relay/registry.go:250-263 | giving a reservation up keeps them alike exactly when the engine does not hold the name for an agent that is away |
| `AlikeRuns.RevokeKeepsAlikeIff` | go/tunnel/relay/admin.go:48-68 | revoking a token, whose sessions release their names in the engine, keeps them alike exactly when the engine holds none of its names for an agent that is away |
| `AlikeRuns.UndoKeepsAlikeIff` | go/tunnel/relay/session.go:226-238 | undoing a tunnel of a failed registration, rolled back in the relay and released in the engine, keeps them alike exactly when the relay had the name before and it is permanent, or did not and it is not |
| `AlikeExamples.UnreservedParts` | go/tunnel/relay/registry.go:250-263 | a run from the start: a reserved name is given up while its agent is away; then the relay grants another token's claim and the engine refuses it |
| `AlikeExamples.RevokedParts` | go/tunnel/relay/admin.go:48-68 | the same with the token revoked |
| `AlikeExamples.UndoneParts` | go/tunnel/relay/session.go:226-238 | a run from the start: a registration fails after it reclaimed the name; then the relay refuses another token's claim and the engine grants it |
| `AlikeRuns.StayTogether` | go/tunnel/relay/registry.go:47-376 | in every run of such steps, of sections only the relay has and of calls only the engine has, they hold every name alike |
| `AlikeRuns.AlwaysAnswerAlike` | go/tunnel/registry/rules.go:166-186 | after every such run from the start, the next claim is accepted, refused as taken or refused for the cap by both or by neither |
| `RoundRobin.Balanced` | go/tunnel/edge/pool.go:169-185 | the counters always sum to zero |
| `RoundRobin.Accounts` | go/tunnel/edge/pool.go:169-185 | a member's counter is its weight times the picks minus the total weight times its own picks |
| `RoundRobin.NeverAhead` | go/tunnel/edge/pool.go:169-185 | after any n picks no member is a full turn ahead: picks * W < n * w + W |
| `RoundRobin.ExactlyFair` | go/tunnel/edge/pool.go:169-185 | every W picks choose each member exactly its weight times and return all counters to zero |
| `FairShares.AlwaysBounded` | go/tunnel/edge/pool.go:169-185 | with any candidates at each pick, any k of n counters add up to at most M * k (n - k) (2n + 2k + 3) / 6, M being the largest weight |
| `FairShares.SharesStayFair` | go/tunnel/edge/pool.go:169-185 | so, however members come and go and however many picks there are, a member is never owed more than M (n - 1)(2n + 5) / 6 nor ahead by more than M (n - 1)(4n + 1) / 6 |
| `FairShares.PoolTakesTurns` | go/tunnel/edge/pool.go:122-185 | each pick of the pool is such a turn of all its members |
| `BackendPool.Pool.SmoothRoundRobin` | go/tunnel/edge/pool.go:169-185 | the loop takes the first of the largest raised counters and charges it the total; other members are untouched |
| `BackendPool.NotBusierMeans` | go/tunnel/edge/pool.go:134-142 | the crosswise comparison of integers compares connections per unit of weight |
| `BackendPool.Pool.LeastConnections` | go/tunnel/edge/pool.go:134-142 | the first of the candidates with the fewest connections per unit of weight |
| `BackendPool.Pool.Choose` | go/tunnel/edge/pool.go:133-167 | the candidate the pool's algorithm says: the first least busy one, the first with the highest score, for RANDOM the less busy of the two drawn and the first on a tie, or smooth round robin's, whose counters alone change |
| `BackendPool.Pool.Pick` | go/tunnel/edge/pool.go:122-167 | none exactly when every healthy, enabled member was tried; else what the algorithm chooses from those that were not, in the order of the list |
| `BackendPool.Pool.DialFrom` | go/tunnel/edge/pool.go:205-227 | terminates, dials no member twice, connects to the last one dialed after every earlier one refused, and fails only after every member that was healthy and enabled refused; each one dialed but a given first is healthy, enabled and what the algorithm chooses from those not dialed before it, with the round robin counters as the earlier picks left them; exactly the refusals are recorded |
| `BackendPool.Pool.Fail` | go/tunnel/edge/pool.go:229-240 | one more failure in the member's history |
| `BackendPool.Pool.Pass` | go/tunnel/edge/pool.go:242-251 | one more pass in the member's history |
| `SourceHash.ScoreFits` | go/tunnel/edge/pool.go:150-153 | the score of a weight up to 100 fits 64 bits |
| `SourceHash.PickByHash` | go/tunnel/edge/pool.go:143-158 | the first of the members with the highest score |
| `SourceHash.InsertMovesFew` | go/tunnel/edge/pool.go:144-145 | inserting a member anywhere leaves every client where it was or on the new member |
| `SourceHash.MovesExactlyWhenOutscored` | go/tunnel/edge/pool.go:144-145 | it moves exactly when the new member outscores its old one, or ties from an earlier place |
| `Health.Counters` | go/tunnel/edge/pool.go:229-251 | after any history the counters are what the history says, and healthy exactly when fewer than three fails count |
| `Health.DownExactlyWhen` | go/tunnel/edge/pool.go:229-251 | a member is down exactly when its history has three failures in a row with no two passes in a row after them |
| `RateLimit.SweepingNeverShows` | go/tunnel/auth/ratelimit.go:66-74 | for every call sequence with a non-decreasing clock the limiter answers exactly as one that never drops a bucket |
| `RateLimit.Conserved` | go/tunnel/auth/ratelimit.go:29-64 | what was granted and what is left is at most what there was and what was added |
| `RateLimit.WindowBound` | go/tunnel/auth/ratelimit.go:23-39 | after any calls on a new limiter, a window of length d lets an address through at most burst + rate * d times |
| `RateOutcomes.AllowsExactly` | go/tunnel/auth/ratelimit.go:29-74 | after any calls on a new limiter, an address is let through exactly when that keeps every window that began with one of its calls within burst + rate * length, and is said to be exhausted exactly when it would not |
| `RateOutcomes.BurstIsAlwaysGranted` | go/tunnel/auth/ratelimit.go:29-39 | an address let through fewer times than the burst is let through |
| `RateLimit.IPLimiter.Sweep` | go/tunnel/auth/ratelimit.go:66-74 | exactly the buckets that have not refilled are kept |
| `RateLimit.IPLimiter.Allow` | go/tunnel/auth/ratelimit.go:29-39 | sweeps when due, refills up to the burst, and takes a token exactly when it says so |
| `RateLimit.IPLimiter.Exhausted` | go/tunnel/auth/ratelimit.go:41-46 | says whether a token is left and takes none |
| `Names.JoinSplit` | go/tunnel/protocol/names.go:102-109 | joining a host's labels gives the host |
| `Names.LabelMeans` | go/tunnel/protocol/names.go:57-62 | a label is one letter or digit, or two with up to 61 letters, digits and hyphens between |
| `Names.WildcardsAreCovering` | go/tunnel/protocol/names.go:100-109 | the listed wildcards are exactly those of a domain of at least two labels that the host is under |
| `Names.WildcardsShrink` | go/tunnel/protocol/names.go:100-109 | they are listed closest first |
| `LiveViews.ClosestOwnerWins` | go/tunnel/relay/registry.go:197-214 | the exact owner answers, else the owner of the longest covering wildcard; none exactly when there is neither |
| `LiveViews.OneClosest` | go/tunnel/relay/registry.go:197-214 | there is only one such owner |
| `LiveViews.NeverItsOwnParent` | go/tunnel/protocol/names.go:100-109 | a wildcard never answers for the domain it is made from, nor for a host of two labels |
| `LiveViews.LiveViewAgrees` | go/tun/common/liveview.go:52-74 | the view's one map answers as the relay's two for every host of several labels |
| `LiveViews.BuiltViewAgrees` | go/tun/common/liveview.go:156-193 | so does the map built from the table's rows, in any order |
| `LiveViews.LiveServesAlike` | go/tunnel/relay/router.go:189-201 | with parked owners, they serve a host alike exactly when its closest owner is not parked while a farther one is connected |
| `LiveViews.ParkedOwnerIsPassedOver` | go/tun/common/liveview.go:172-186 | a host for which they do not |
| `LiveViews.LiveView.Fetch` | go/tun/common/liveview.go:156-193 | the three maps are a copy of the tables read; a failed read keeps the old copy |
| `LiveViews.LiveView.Find` | go/tun/common/liveview.go:55-74 | the loop finds the closest owner, and answers only with a relay that can serve |
| `LiveViews.LiveView.Tunnel` | go/tun/common/liveview.go:52-80 | a hit that is not stale is answered from the copy; a miss or a stale owner from the tables as read again |
| `LiveViews.PortFinds` | go/tun/common/liveview.go:172-186 | when no two active rows share a port, the view finds exactly the row that holds it, in any order of the rows |
| `LiveViews.LiveView.TunnelByPort` | go/tun/common/liveview.go:82-96 | a hit is answered from the copy, a miss from the tables as read again, and only with a relay that can serve |
| `LiveOutcomes.LiveAnswersExactly` | go/tun/common/liveview.go:52-80 | the view answers with a tunnel and relay exactly when the tunnel's row has the host, or no row has it and the row has the longest wildcard covering it, and its relay's last row is up with an address |
| `LiveOutcomes.PortAnswersExactly` | go/tun/common/liveview.go:82-96 | by port, exactly when the connected tunnel has the port and its relay can take connections |
| `EdgeConf.OverlapMeans` | go/tunnel/edgeconf/validate.go:233-242 | two forwards overlap exactly when some port is on both |
| `EdgeConf.AcceptsExactly` | go/tunnel/edgeconf/validate.go:30-76 | a domain is accepted exactly when its kind fits and the table stays consistent with it |
| `EdgeOutcomes.AcceptsMeans` | go/tunnel/edgeconf/validate.go:30-76 | a domain passes exactly when its kind fits, its lists parse, its names are distinct, its forwards fit and share no port, and no other stored domain is in its way: both the tunnel base, a shared name, or a shared port with another protocol or TCP |
| `EdgeConf.TableAlwaysOk` | go/tunnel/edgeconf/validate.go:30-76 | every table built by accepted edits and deletions is consistent |
| `EdgeRoutes.PortsAreClean` | go/tunnel/edgeconf/validate.go:202-231 | on every port of a consistent table the routes have one protocol, at most one is TCP or the tunnel base's, and no two share a name |
| `EdgeRoutes.RouteSetHolds` | go/tunnel/edge/route.go:33-53 | a clean port's route set finds exactly the routes that have a name or wildcard |
| `EdgeRoutes.RouteSetIgnoresOrder` | go/tunnel/edge/route.go:33-53 | the route set does not depend on the order of the stored domains |
| `EdgeServer.ListenersIgnoreOrder` | go/tunnel/edge/edge.go:107-171 | nor do the listeners: their ports, protocols, routes and whether they were kept |
| `EdgeServer.ResolvesToItsSite` | go/tunnel/edge/route.go:63-95 | a host goes to a site exactly when the site has it by name, or by its parent's wildcard when no tunnel has it first; and to that site only |
| `EdgeOutcomes.ResolvesExactly` | go/tunnel/edge/route.go:63-95 | every host of a port: to the site that has it by name; else, on the tunnel base's port, the control name to the least loaded relay and a tunnel's host to the relay that serves it; else to the site with its parent's wildcard; else to the base's next relay; else nowhere: each exactly then |
| `EdgeOutcomes.RoutesExactly` | go/tunnel/edge/edge.go:107-150 | the routes of a port are exactly the enabled forwards on it of the domains served, each with the stored pool while its forward is the same, else a new one |
| `EdgeOutcomes.ListensExactly` | go/tunnel/edge/edge.go:107-171 | the edge listens exactly on the ports some forward is on, with the forwards' protocol, and keeps a listener while that stays |
| `EdgeOutcomes.PoolsExactly` | go/tunnel/edge/edge.go:107-150 | there is a pool for exactly the keys of the enabled forwards, and it is one of theirs |
| `EdgeServer.RoutesUseStoredPoolsIff` | go/tunnel/edge/edge.go:107-171 | every route's pool is the one stored under its key exactly when no two different forwards have one key |
| `EdgeServer.PoolsAreStable` | go/tunnel/edge/edge.go:107-171 | then the pools ignore the order of the domains, and applying the same domains again keeps every pool and its health |
| `EdgeServer.SharedIdForgetsHealth` | go/tunnel/edge/edge.go:186-191 | an accepted site with two forwards of one id, whose first pool's health is forgotten |
| `EdgeServer.NewRouteSet` | go/tunnel/edge/route.go:33-53 | the loop builds the route set, later routes winning |
| `EdgeServer.Edge.Apply` | go/tunnel/edge/edge.go:107-171 | listeners are exactly the ports with routes, kept while the protocol is the same; pools match the forwards; a closed edge does nothing |
| `Tar.ReadTar` | go/tun/ui/web/tun/tun-download-core.js:34-46 | the loop reads the entries up to a zero block or the end, and refuses a size that is no number or an empty archive |
| `Tar.OctalRoundTrip` | go/tun/ui/web/tun/tun-download-core.js:48-52 | a number that fits its field reads back |
| `TarFields.SizeExactly` | go/tun/ui/web/tun/tun-download-core.js:31-41 | the size of an entry is what the text of bytes 124 to 135, up to a NUL, writes in octal after blanks, 0 when it is blank, and no number exactly when it writes none |
| `TarFields.PaddedMeans` | go/tun/ui/web/tun/tun-download-core.js:32 | data is padded to whole blocks of 512 bytes and no further |
| `TarFields.HeaderLayout` | go/tun/ui/web/tun/tun-download-core.js:54-70 | a new header byte by byte: the name with NULs, mode, size, type and checksum in their fields, every other byte the template's |
| `Tar.ChecksumFits` | go/tun/ui/web/tun/tun-download-core.js:65-68 | a header's checksum always fits its six octal digits |
| `Tar.HeaderRoundTrip` | go/tun/ui/web/tun/tun-download-core.js:54-70 | a written header reads back its name and size, is not a zero block, and carries the sum of its bytes with the checksum blank |
| `Tar.WriteOctal` | go/tun/ui/web/tun/tun-download-core.js:48-52 | exactly the field's bytes of the buffer change |
| `Tar.BuildHeader` | go/tun/ui/web/tun/tun-download-core.js:54-70 | the steps on the buffer give that header, or the path is too long |
| `Tar.ReadEntries` | go/tun/ui/web/tun/tun-download-core.js:34-46 | only the last entry read can be cut short |
| `Tar.ReadsBack` | go/tun/ui/web/tun/tun-download-core.js:72-97 | an archive of complete entries reads back as those entries |
| `Tar.ReadsBackIff` | go/tun/ui/web/tun/tun-download-core.js:34-46 | entries as they were read, written again, read back exactly when none was cut short |
| `Tar.Customize` | go/tun/ui/web/tun/tun-download-core.js:72-97 | writes the package's archive, or says that there is no DOMAIN file or its path is too long |
| `Tar.PackageRoundTrip` | go/tun/ui/web/tun/tun-download-core.js:72-97 | reading the customized archive gives the template's entries, headers and data unchanged and in order, with the new DOMAIN file at the old one's place, without any old TOKEN, and the new TOKEN last: exactly when the template's last entry is complete, the replaced DOMAIN or an old TOKEN |
| `Tar.CutTemplate` | go/tun/ui/web/tun/tun-download-core.js:34-46 | a template for which it does not |

## Left out

- TLS, certificates, SSH, OIDC, tokens' secrets, sockets, multiplexing, the HTTP proxy and the request inspector: cryptography and I/O.
- The Layer 8 services, callbacks and stores, the CLI, configuration loading, metrics, alerts and the UI: thin or foreign code. Reservation writes are steps that may fail.
- Integer widths: ports, counters and times are unbounded integers; the source's are 32 and 64 bits and stay far below.
- Floating point in the rate limiter is `real`, without rounding; addresses are taken unmapped.
- Names are taken as normalized: lower case, without a trailing dot or surrounding space. `NormalizeDomain` and Unicode case folding would only add per-character members.
- Waiting in the live view (`ensure`, `Invalidate`, the ttl and the background fetch): what a second read brings is a parameter.
- Hosts of one label in the live view, whose map also holds bare tunnel names.
- `resolveMembers`, the connection count on close and the pool's health loop: a pool's members are fixed while it is used.
- OpenTunnels.OpenTunnel: the checks before the claim (type, policy, name, domains) are one flag, because they touch nothing; concurrent sections of other sessions are covered by `StandaloneTheorems.AlwaysConsistent` instead.
- OpenTunnels.Register: on a clustered relay the names are released through the cluster's registry, which is not part of it.
- NameRegistries.NameRegistry.Expire: the timer that calls it is not modelled; every call at any time is.
- LiveTables.View.Reconcile: reads the engine and writes the rows in one step, because the loop alone is what it states; what the engine's changes in between do to each key is in `LiveTables.LoopRightIff` and `LiveTables.ChangesKeepRight`.
- LiveTables.ReconcileAll: the same, for the three tables.
- AlikeRuns.StayTogether: closing a relay and announcements are not among its steps, because only one of the two deployments has them; a claim the engine refuses for its port or domains is not either, because a relay finds that out in later sections.
- ClaimsEngine.Engine.Announce: no claim is made about ports and domains of announced tunnels, because the code checks neither.
- EdgeConf.AcceptsExactly: the checks of a forward's mode, target and health and of the IP lists are flags of the record, and errors carry no message.
- Tar.ReadTar: names are byte strings, and a size field that starts with a sign is no number, where the browser's `parseInt` takes one.
- TarFields.SizeExactly: the same, and only ASCII blanks are trimmed.
