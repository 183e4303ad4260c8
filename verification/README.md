# A verified model of `dbr`

`dbr` forwards ports, Unix sockets and clipboard images between containers and their host. A host
daemon and one daemon per container keep shared state consistent over newline-delimited control
channels; the bytes of each connection travel over a separate data channel. This project models the
stateful cores of both daemons in Dafny and proves what they keep.

`dafny verify dfyconfig.toml` checks everything.

## How the model is built

| file | models |
|---|---|
| `PortSearch.dfy` | the search for a free host port, with its exact termination condition |
| `HostState.dfy` | the state behind the host's mutex; one method per lock section |
| `HostRuns.dfy` | any number of connections and forwards whose lock sections interleave freely |
| `HostCapacity.dfy` | the two limits: exactly when they hold, and how far overlap can exceed them |
| `HostAccounting.dfy` | when `used_host_ports` is exact, allocation by pigeonhole |
| `HostEpochs.dfy` | registration epochs, cleanup at most once |
| `HostOverlap.dfy` | regular runs that leak a port, exceed the limits, or hang the port search |
| `Reconciliation.dfy` | container and host as two parties on FIFO channels that break at any time |
| `HostListeners.dfy` | no listener is forgotten: each is live, shut down once, or overwritten |
| `HostProjection.dfy` | what the lock sections of `HostRuns`, taken in each connection's order, do to one container is what the host of the two-party protocol does |
| `Deployment.dfy` | the host and all the container daemons together |
| `DeploymentProjection.dfy`, `DeploymentAtRest.dfy` | for each container that is a run of the two-party protocol, and what follows for it at rest |
| `DeploymentProgress.dfy` | what can always be done: sessions reach rest, scans are carried out, a reconnect heals everything |
| `ContainerSession.dfy` | the container's session loop in place, shown to perform protocol steps |
| `Rendezvous.dfy`, `RendezvousRuns.dfy` | pending connections and one-shot channels; all interleavings |
| `Utf8.dfy` | the UTF-8 check against the encoding of characters |
| `ControlChannel.dfy` | the streaming line reader against a flat specification; round trips |
| `Clipboard.dfy` | image transfer, writer and reader as inverses |
| `ShellQuoting.dfy` | path quoting against the POSIX.1-2017 quoting rules |
| `Browser.dfy` | URL rewriting and the sliding-window limiter over whole runs |
| `SocketScanner.dfy` | the scanner's bookkeeping, scan by scan |
| `SocketBroadcast.dfy`, `SocketRuns.dfy` | the socket table, its broadcast and every container's mirrors |
| `ContainerScanner.dfy` | one-walk inode resolution and the ports a scan reports |
| `Drain.dfy` | connection counting, drain wakeups and cancellation |
| `Wrappers.dfy`, `Text.dfy`, `Cardinality.dfy` | result types, decimal numbers and lengths in bytes, sizes of sets |

What the source updates in place is a class whose methods are its lock sections or loops, each tied to
a pure function of the old state. Concurrency is a state machine: one lock section, channel operation
or atomic access is one step, `Enabled` says when it can happen, `Apply` what it does, and a run is any
sequence of enabled steps. Main results speak about every run from the initial state.

Inputs from outside are parameters: whether a bind or a send succeeds, chunk sizes, the clock, what
globs and `/proc` contain, the order in which hash maps are walked. UUIDs and registration ids are fresh
numbers. JSON is any codec with `decode(encode(m)) == m` and no newline in an encoding; where clipboard
headers matter they are also ASCII and below the size limit.

## Findings

Where a property one would expect does not hold of the code, the model keeps the code and proves
exactly when it holds, and gives concrete runs or inputs on which it fails. A run of the host is called regular when
every connection keeps the order in which the source dispatches its messages (it begins forwards one at a time,
only for its own id, and ends only between requests) and begins a forward only while it owns the state.

* Commit does not check again for a live forward of the same port. When a connection is superseded with
  a forward of a port in flight and its successor forwards the same port, one host port stays in
  `used_host_ports` for good (`OverlappingForwardsLeak`); the books are exact if and only if no commit or
  insert overwrites a live forward (`AccountingIsExactIff`).
* The 64-container check and the insert are separate lock sections, and so are the 128-forward check and
  the commit. Each limit holds if and only if no insert or commit comes after its room has been taken
  (`ContainerLimitHoldsIff`, `ForwardLimitHoldsIff`). With k requests overlapping the bounds are 63 + k
  containers and 127 + k forwards, and both are reached (`ContainersAreBounded`,
  `ForwardsAreBounded`, `OverlappingRegistrationsPassTheLimit`, `OverlappingForwardsPassTheLimit`).
* For a preferred port below 1024 the port search need not end (`SearchEndsExactly`, `SearchCanHang`). Its
  comment says it returns None when every port is in use; for such a preference it never returns None.
* A rejection of an earlier Forward can remove a port that was added again meanwhile. The port then stays
  live on the host and unknown to the container until it is found listening again
  (`StaleRejectionDiverges`, `DivergenceEvolves`, `ScanCuresListeningPorts`).
* A request's registration is checked in one lock section and acted on in another. A connection superseded
  in between evicts or commits ports of its successor (`SupersededDispatchLoses`,
  `SupersededDispatchPlants`); `MissingEvolves` and `DivergenceEvolves` say exactly when that matters.
* Admission and insertion of a registration are separate sections too, with a drain of up to five seconds in
  between, and connections of one container pass them in any order. A connection the container gave up long
  ago can be admitted or inserted over the one that serves it; that one stays open, with no port live, until
  it next sends a request, and its mirror sockets stop following (`LateRegistrationOrphans`,
  `OrphanedEvolves`, `ReplacedFollowsIff`). Whatever the two sides disagree on, a container with room that
  reconnects can come to rest with exactly its ports live (`ReconnectHeals`).
* Each chunk of a line is checked as UTF-8 by itself, so a character cut by the end of a chunk makes the line
  unreadable; exactly those lines are refused that are not UTF-8 or have such a cut
  (`CleanIffWholeCharacters`). The comment on `read_message` (src/control.rs:55-61) holds that messages are
  ASCII, while process names and paths in them need not be.
* A message whose encoding has exactly 65,536 bytes is sent and then refused (`WrittenIsReadableIff`).
* Both daemons poll `recv` inside `select!`, and `read_message` keeps the line it is assembling in a local
  variable. A read dropped after it has consumed part of a line loses that part (`DroppedReadInStepIff`).
* New sockets are broadcast before removed ones, and both creating and removing a mirror act on whatever
  file is at its path. A socket that takes over the container path of one removed in the same scan ends up
  without its file (`ReplacedSocketLosesFile`, `ScanKeepsFilesIff`, `FilesAlwaysMatchIff`).
* A drain that times out cancels only handlers already bridging; one still registering or requesting
  subscribes too late to see it (`TimeoutCancelsBridging`, `LateSubscriberIsMissed`).

The code and its comments disagree in these places, and the model follows the code: the comment on
`ConnectionTracker` speaks of `notify_one` and a stored permit (src/host/mod.rs:149-150) while
`decrement` calls `notify_waiters`; the comment on `handle_forward` says check and bind are not atomic
and may race (src/host/mod.rs:1274-1277) while the port is reserved under the lock that finds it; the
comment on `read_message` speaks of a limit of the maximum size plus one (src/control.rs:46-49) while
the newline is counted within the maximum; docs/architecture.md:571 says draining polls every 50 ms
while `wait_drained` sleeps until notified.

## Model

| member | source | states |
|---|---|---|
| `PortSearch.FindAvailablePort` | src/host/mod.rs:307-324 | returns the first unused port in the order: the preference, then upward through the unprivileged ports with wraparound; None only for port 0 or when all 64,512 unprivileged ports are used. The loop carries a real termination measure |
| `PortSearch.LoopPortIsCandidate` | src/host/mod.rs:315-319 | turn n of the loop, with its wrapping add and its skip of privileged ports, looks at the n-th port of that order |
| `PortSearch.CandidatePeriod` | src/host/mod.rs:320-322 | the loop is back at an unprivileged preference after exactly 64,512 turns, no sooner |
| `PortSearch.CandidatesCover` | src/host/mod.rs:315-322 | every unprivileged port is looked at within 64,512 turns |
| `PortSearch.SearchEndsExactly` | src/host/mod.rs:311-323 | the loop ends if and only if the preference is unprivileged or free or some unprivileged port is free; otherwise (a used privileged preference and no free unprivileged port) it never ends |
| `PortSearch.FirstFreeIsUnique` | src/host/mod.rs:302-306 | the specification of the search leaves it no choice |
| `HostForwarding.HostState.constructor` | src/host/mod.rs:293-300 | the daemon starts with no containers and no used ports |
| `HostForwarding.HostState.EvictExisting` | src/host/mod.rs:1288-1318 | first lock section of a forward: refused with nothing changed exactly when it would be a 129th port; otherwise an existing forward of the port is gone, its host port is free, and that port is handed back so that its listener is shut down |
| `HostForwarding.HostState.Reserve` | src/host/mod.rs:1320-1329 | second lock section: the search result is reserved for the container under the same lock |
| `HostForwarding.HostState.Finish` | src/host/mod.rs:1331-1375 | third lock section: a failed bind releases the reservation, a bound listener becomes live under the port it bound, and for a vanished container the bound port is released and nothing becomes live |
| `HostForwarding.HostState.HandleForward` | src/host/mod.rs:1278-1378 | an undisturbed forward: which of the four errors occurs exactly when, success means live on the first free host port, failure means not live with no reservation left; an old listener of the port is shut down exactly when there was one; no other forward of any container changes |
| `HostForwarding.SearchOutcome` | src/host/mod.rs:1320-1377 | the three ways on from the search each end with the port live and reserved, or with the reservation undone |
| `HostForwarding.HostState.HandleUnforward` | src/host/mod.rs:1419-1428 | the forward is dropped, its host port freed and handed back for shutdown, and none is if there was none |
| `HostForwarding.HostState.HandleUnforwardGlobal` | src/host/mod.rs:1388-1411 | some container that forwards the port loses it, with the host port handed back; nothing changes exactly when none does |
| `HostForwarding.HostState.FreePorts` | src/host/mod.rs:1460-1472 | freeing the forwards one after the other frees exactly their host ports |
| `HostForwarding.HostState.Admit` | src/host/mod.rs:771-796 | capacity check and eviction of stale state in one section: refused with nothing changed at 64 containers unless the id is already there |
| `HostForwarding.HostState.Insert` | src/host/mod.rs:830-844 | the new registration replaces whatever is kept under its container id |
| `HostForwarding.HostState.CleanupContainer` | src/host/mod.rs:1441-1473 | state is removed, its host ports freed and its forwards handed back for shutdown only for the registration that owns it; a superseded one changes nothing |
| `HostRuns.StepKeepsPortsSafe` | src/host/mod.rs:1278-1494 | every lock section of every connection keeps held host ports distinct and keyed to their owners |
| `HostRuns.PortsAlwaysSafe` | src/host/mod.rs:1278-1378 | main result, no hypotheses: under every interleaving of evict, reserve, commit, roll back, register, unforward, admin unforward and cleanup, no two live forwards or reservations in flight share a host port, and each is in `used_host_ports` under its owner |
| `HostAccounting.StepLeaks` | src/host/mod.rs:1347-1367 | a lock section loses exactly the host ports of live forwards it overwrites: only a commit onto a live port or an insert onto live state does |
| `HostAccounting.LeaksAccumulate` | src/host/mod.rs:1278-1494 | over any run the keys nobody holds are precisely those overwritten on the way |
| `HostAccounting.AccountingIsExactIff` | src/host/mod.rs:1288-1375 | main result: after any run `used_host_ports` is exactly the live host ports plus reservations in flight if and only if no step overwrote a live forward |
| `HostAccounting.SerialRunsAreExact` | src/host/mod.rs:1288-1375 | main result: if no container id ever has two forwards or two registrations in progress at once, the books are exact, each port is tagged with its owner and no container exceeds 128 forwards |
| `HostAccounting.SeparateRegistrationsAreBounded` | src/host/mod.rs:771-844 | if registrations do not overlap there are at most 64 containers, whatever the forwards do |
| `HostAccounting.AllocationSucceeds` | src/host/mod.rs:1320-1329 | pigeonhole: within both limits, while leaked ports and reservations in flight number fewer than 56,320, the search ends and finds a port for every nonzero preference |
| `HostAccounting.SerialRunsAllocate` | src/host/mod.rs:771-796 | the whole story for serial runs: distinct tagged ports, exact books, both limits, a search that ends and succeeds, and an empty map once no container or forward in flight remains |
| `HostCapacity.ContainerLimitHoldsIff` | src/host/mod.rs:771-844 | main result: a run keeps to 64 containers if and only if no registration of a new id is inserted while 64 are there already |
| `HostCapacity.ContainersAreBounded` | src/host/mod.rs:771-844 | main result: with at most k registrations between check and insertion at once there are never more than 63 + k containers |
| `HostCapacity.ForwardLimitHoldsIff` | src/host/mod.rs:1288-1360 | main result: in a run no container exceeds 128 forwards if and only if no commit of a new port finds 128 there already |
| `HostCapacity.ForwardsAreBounded` | src/host/mod.rs:1288-1360 | main result: with at most k forwards in flight for a container id at once it never has more than 127 + k |
| `HostOverlap.OverlappingForwardsLeak` | src/host/mod.rs:1347-1360 | a regular run in which a superseded connection and its successor forward the same port and one host port stays in `used_host_ports` with no forward behind it |
| `HostOverlap.OverlappingRegistrationsPassTheLimit` | src/host/mod.rs:771-844 | the bound is reached: for every k > 0 a regular run with at most k registrations pending that ends with 63 + k containers |
| `HostOverlap.OverlappingForwardsPassTheLimit` | src/host/mod.rs:1288-1360 | the bound is reached: for every k from 1 to 64,385, as many as the unprivileged ports allow, a regular run with at most k forwards in flight that ends with 127 + k forwards of one container |
| `HostOverlap.SearchCanHang` | src/host/mod.rs:311-323 | a regular run to a state with port 80 and every unprivileged port used in which a forward of port 80 searches and no result is possible |
| `HostListeners.StepHandsOut` | src/host/mod.rs:1288-1473 | every lock section adds the listener that was started and lets go of exactly those it hands to its caller for shutdown or overwrites |
| `HostListeners.EveryListenerIsAccountedFor` | src/host/mod.rs:1278-1494 | main result: over every interleaving each listener started is live, was handed out for shutdown exactly once, or was overwritten by a commit or an insertion; nothing else is handed out |
| `HostEpochs.EpochsStayUnique` | src/host/mod.rs:830-844 | in every run no two connections hold the same registration id |
| `HostEpochs.OwnershipIsLostForGood` | src/host/mod.rs:1449-1458 | a connection that no longer owns the state under its id never owns it again |
| `HostEpochs.CleanupHappensOnce` | src/host/mod.rs:882-889 | whatever happens after a cleanup, repeating it changes nothing |
| `HostEpochs.SupersededCleanupIsIdle` | src/host/mod.rs:882-889 | once another registration of the id has been admitted or inserted, the old connection's cleanup changes nothing, however late it comes |
| `Reconciliation.MissingEvolves` | src/container/mod.rs:543-633 | exactly when a port the container holds becomes lost on the host, or stops being so: only a section of a superseded connection or an administrator can lose it |
| `Reconciliation.DivergenceEvolves` | src/container/mod.rs:626-633 | exactly when a port becomes or stops being live on the host but forgotten by the container: by reading a rejection of an earlier Forward for a port since added again, or by the commit of a superseded connection |
| `Reconciliation.NeverLosesNeverMisses` | src/host/mod.rs:1048-1127 | without such a loss no port is ever missing |
| `Reconciliation.NeverDivertsNeverDiverges` | src/container/mod.rs:626-633 | without a late rejection or such a commit no port ever diverges |
| `Reconciliation.ForwardedPortsAreLive` | src/container/mod.rs:415-428 | main result, lock sections interleaving: after any run with any disconnects, reconnects and rejections in which no late registration orphans the session and no superseded connection or administrator takes a relied-on port away, whenever the container is in a session the host has open and registered, and nothing is queued, in hand or to be acknowledged, every port in `forwarded` is live on the host |
| `Reconciliation.SidesAgree` | src/container/mod.rs:543-633 | main result: if moreover no rejection is read too late and no superseded connection commits a forgotten port, `forwarded` and the live ports are then equal |
| `Reconciliation.UnrejectedSidesAgree` | src/host/mod.rs:1048-1127 | main result: if no late registration orphans the session, no superseded connection is between its registration check and its section, no administrator unforwards and the host rejects no Forward, the two sets are equal at rest |
| `Reconciliation.OrphanedEvolves` | src/host/mod.rs:771-844 | exactly when a session open on both sides loses its registration: when another connection of the container is admitted or inserted late; it then stays orphaned while it is open |
| `Reconciliation.NeverOrphansStaysAttached` | src/host/mod.rs:771-844 | without such a late registration an open session is always the one the host serves |
| `Reconciliation.LateRegistrationOrphans` | src/host/mod.rs:798-844 | two concrete runs, in which only owners act and nothing is rejected, end at rest with port 3000 held by the container and not live: an older connection is inserted over the serving one, or is admitted late and evicts its state |
| `Reconciliation.StaleRejectionDiverges` | src/container/mod.rs:626-633 | a concrete run with a late rejection ends at rest with port 8080 live on the host and unknown to the container |
| `Reconciliation.SupersededDispatchLoses` | src/host/mod.rs:1048-1066 | a concrete run: a connection passes its registration check, is superseded, evicts the port its successor has made live and fails to bind; at rest the container holds port 3000 and the host does not forward it |
| `Reconciliation.SupersededDispatchPlants` | src/host/mod.rs:1347-1360 | a concrete run: the superseded connection commits after its successor unforwarded the port; at rest it is live and unknown to the container |
| `ContainerSession.Session.SendNew` | src/container/mod.rs:565-586 | a Forward is written once for each listening port not yet forwarded, and exactly the ports written are recorded, also when the connection breaks half way |
| `ContainerSession.Session.SendRemoved` | src/container/mod.rs:588-607 | an Unforward is written once for each forwarded port that no longer listens, and exactly those are forgotten |
| `ContainerSession.Session.ScanCycle` | src/container/mod.rs:545-608 | a completed cycle leaves `forwarded` equal to the scan with old records kept; a broken one leaves exactly what was written |
| `ContainerSession.Session.ReForward` | src/container/mod.rs:471-488 | every port of the previous session is sent once; failure is reported exactly when not all were written |
| `ContainerSession.Session.OnForwardAck` | src/container/mod.rs:626-633 | a rejection forgets the port, an acceptance changes nothing |
| `ContainerSession.AnnouncingIsARun` | src/container/mod.rs:565-586 | the Forwards of a scan are a run of the two-party protocol, whatever order the map is walked in |
| `ContainerSession.ScanIsARun` | src/container/mod.rs:545-608 | so is a whole scan cycle, so the protocol results apply to the loop |
| `ContainerSession.ReForwardIsARun` | src/container/mod.rs:415-428 | so is re-forwarding after a reconnect, complete or broken off |
| `ContainerSession.ScanCuresListeningPorts` | src/container/mod.rs:565-607 | main result: a completed scan cures exactly the divergences about ports that are listening; a forgotten port that no longer listens stays live on the host |
| `ContainerSession.EvictionMatches` | src/host/mod.rs:1288-1310 | the first section of a forward in the protocol is what the host's lock section does to one container's ports |
| `ContainerSession.ReservationMatches` | src/host/mod.rs:1320-1342 | reserving and releasing a host port touch no live forward |
| `ContainerSession.CommitMatches` | src/host/mod.rs:1347-1375 | the last section makes the port live exactly when the container's state is still there |
| `ContainerSession.UnforwardMatches` | src/host/mod.rs:1419-1428 | so is unforwarding |
| `ContainerSession.RegistrationSectionsMatch` | src/host/mod.rs:771-844 | so are admitting, inserting and cleaning up a registration |
| `HostProjection.HostStepProjects` | src/host/mod.rs:771-1494 | every lock section of the host, projected to one container id, is one event of the protocol's host, or none |
| `HostProjection.HostFollowsProtocol` | src/host/mod.rs:771-1494 | main result: in every run of the host with any number of containers interleaving in which each connection begins forwards one at a time and only for its own id, superseded or not, what happens to one container id is a history of the protocol's host |
| `HostProjection.NetStepProjects` | src/host/mod.rs:1048-1127 | every step of the two-party protocol is one event of that host |
| `HostProjection.EventIsNetStep` | src/host/mod.rs:1048-1127 | and every possible event of that host is a step of the protocol, so the two descriptions of the host agree |
| `Deployment.StepKeepsAllOk` | src/host/mod.rs:738-1127 | in every state of the host with all its containers, connections belong to one container each and are in one stage only, and each dispatches one request at a time |
| `DeploymentProjection.StepStaysSeen` | src/host/mod.rs:738-1494 | a step of the host with all its containers is, for each container, one enabled step of the two-party protocol or none |
| `DeploymentProjection.EveryContainerFollowsProtocol` | src/host/mod.rs:738-1494 | main result, no hypotheses: with any number of containers losing and reopening connections and any number of connections dispatched at once, what happens between each container and the host is a run of the two-party protocol |
| `DeploymentAtRest.HeldPortsAreServed` | src/container/mod.rs:415-428 | main result: after any run of all containers and the host that is undisturbed for one container, whenever that one is at rest every port it holds is live, on a host port keyed to it that no other forward or reservation of any container has |
| `DeploymentAtRest.OwnStepIsHarmless` | src/host/mod.rs:771-1127 | what other containers do never orphans a session, takes one of its ports or plants one; only an administrator or another connection of the same container can |
| `DeploymentAtRest.LoneContainerIsServed` | src/container/mod.rs:415-428 | main result, without reference to the protocol: if only a container's latest connection changes what the host has for it, all its ports are served whenever it is at rest, whatever the other containers do |
| `DeploymentAtRest.LoneContainerAgrees` | src/container/mod.rs:543-633 | main result: if moreover none of its Forwards is refused, its live ports are then exactly the ports it holds |
| `DeploymentProgress.SessionReachesRest` | src/host/mod.rs:1040-1127 | main result: from every state of an undisturbed run in which the connection is open and acknowledged and there is room, steps of the container and of that connection alone lead to rest with every port served, the container holding what it held but for rejections already on their way |
| `DeploymentProgress.ReconnectHeals` | src/container/mod.rs:383-428 | main result, from every reachable state whatever was lost, stripped, planted or orphaned before: a container with room gives up its connection, registers again, and by steps of its own comes to rest with exactly the ports it held live, each on a host port of its own |
| `DeploymentProgress.ScansAreCarriedOut` | src/container/mod.rs:543-608 | main result: in an undisturbed session with room a port announced is served, unless a rejection of its last announcement is on its way, and a port withdrawn is no longer live, after steps of the container and its connection alone |
| `DeploymentProgress.ConnectionsMayEnd` | src/host/mod.rs:866-905 | in every reachable state the host's side of a connection not in the middle of a request can end, leaving nothing of what it owned |
| `DeploymentProgress.SurroundingsMayInterfere` | src/host/mod.rs:1331-1342 | in every state a bind can fail, an administrator can unforward, bytes of a lost connection can vanish and a container can lose its connection, with what each of them leaves |
| `Rendezvous.PendingConnections.RegisterPending` | src/host/proxy.rs:94-114 | prune only at capacity, refuse only if that frees nothing, otherwise a fresh channel under the id; replaced and pruned senders are dropped |
| `Rendezvous.PendingConnections.ResolvePending` | src/host/proxy.rs:120-142 | true exactly when the id was registered and its receiver still open; then that channel alone holds the stream, and the entry is gone |
| `Rendezvous.PendingConnections.TakeSender` | src/host/proxy.rs:125 | the sender leaves the map under the lock |
| `Rendezvous.PendingConnections.CancelPending` | src/host/proxy.rs:182-186 | the entry is removed and its channel closed |
| `Rendezvous.PendingConnections.AwaitData` | src/host/proxy.rs:208-259 | the wait ends with the stream exactly when the channel is full, as failed exactly when it is closed, and otherwise as timed out; in the last two cases the entry is removed |
| `Rendezvous.ResolveWithGrace` | src/host/proxy.rs:148-176 | the retry loop looks at once and then every ten milliseconds, at least once and at most 101 times, stops at the first sender found, and gives up only a second or more after it began |
| `RendezvousRuns.RegisterOutcome` | src/host/proxy.rs:94-114 | a registration is refused if and only if all 1024 entries belong to receivers still open after pruning; otherwise a new open channel is in the map and only closed receivers lost their entries |
| `RendezvousRuns.StepKeepsOk` | src/host/proxy.rs:94-186 | every operation keeps senders unused in the map or in one resolver's hands, under the right id, and none forgotten |
| `RendezvousRuns.RendezvousIsSafe` | src/host/proxy.rs:94-260 | main result, ids need not be fresh: a stream reaches at most one receiver and only one registered under its id; a waiting receiver has its sender in the map or in hand, or its channel is filled or closed; the map never exceeds 1024 |
| `RendezvousRuns.ArrivalOrderDoesNotMatter` | src/host/proxy.rs:148-176 | main result: if a registration exists while the data side still has a poll to make, whichever came first, no undisturbed continuation loses the stream, and once delivered it is in that receiver's channel |
| `RendezvousRuns.NextPollIsSoon` | src/host/proxy.rs:174 | in every run a data connection still waiting looks again within ten milliseconds of its last look |
| `RendezvousRuns.EarlyDataIsOnTime` | src/host/proxy.rs:148-176 | main result: a stream that came early is delivered within ten milliseconds of the registration it waited for, in any continuation that leaves the registration alone and does not delay its polls; within its grace period it is still waiting |
| `RendezvousRuns.PollingDelivers` | src/host/mod.rs:1716-1721 | from there the next poll, at most ten milliseconds away, send and receive are possible and hand the receiver the stream |
| `RendezvousRuns.DataComesEarly` | src/host/mod.rs:1716-1721 | in every reachable state with room a stream can come before its connection is registered |
| `RendezvousRuns.EarlyDataMeetsItsClient` | src/host/proxy.rs:148-176 | main result: from there it is delivered ten milliseconds on, or refused if the client has left meanwhile |
| `RendezvousRuns.PollsAreCounted` | src/host/proxy.rs:155-175 | the number of polls bounded below is the number of times it takes the lock in the run |
| `RendezvousRuns.ReceiversEndOnce` | src/host/proxy.rs:208-259 | a receiver that has its stream keeps it and one that is gone stays gone |
| `RendezvousRuns.PollsAreBounded` | src/host/proxy.rs:148-176 | in any run, whatever becomes of it, a data connection with grace g takes the lock at most 1 + g/10 times, rounded up: once without grace, 101 times with a second |
| `ControlChannel.ChunkReader.FillBuf` | src/control.rs:77-80 | what is buffered, waiting for more only if nothing is; empty exactly at the end of the stream |
| `ControlChannel.ChunkReader.ReadExact` | src/clipboard_client.rs:160-162 | the next n bytes across chunk boundaries, starting with those already buffered |
| `ControlChannel.DrainLine` | src/control.rs:91-107 | the stream is left right after the next newline, or empty |
| `ControlChannel.ReadLine` | src/control.rs:72-115 | the loop: a line is read from any chunks, stops at the first chunk whose part of it is not UTF-8 by itself with the position before it, and resynchronises after a line that is too long |
| `ControlChannel.ReadMessage` | src/control.rs:67-122 | for any chunks, a line within 65,536 bytes is refused as not UTF-8 exactly when some chunk's part of it is not; otherwise result and position are those of the flat specification: first line decoded, TooLarge beyond, closed without a newline, and the next read starts right after it |
| `ControlChannel.CleanIffWholeCharacters` | src/control.rs:55-61 | main result: no line is refused for that if it encodes characters and no chunk ends inside one; every other line within the limit is, also one that encodes characters |
| `Utf8.ValidIffText` | src/control.rs:83 | main result: the check accepts exactly the concatenations of encodings of Unicode scalar values |
| `Utf8.AsciiIsValid` | src/control.rs:55-61 | an ASCII line is valid UTF-8 however it is cut |
| `ControlChannel.WriteMessage` | src/control.rs:130-147 | one line is written, or nothing and TooLarge, by the size of the encoding before its newline |
| `ControlChannel.ReadUntilClosed` | src/control.rs:67-122 | repeated reads give the flat reading of the whole stream |
| `ControlChannel.ReadingIsSplitting` | src/control.rs:67-122 | main result: reading a stream is splitting it at newlines and judging every line by itself, then the unterminated tail |
| `ControlChannel.EveryStreamSplits` | src/control.rs:77-89 | every byte stream is lines and a tail, so that covers all streams |
| `ControlChannel.WrittenMessagesReadBack` | src/control.rs:130-147 | main result: messages encoding to at most 65,535 bytes read back in order |
| `ControlChannel.WrittenIsReadableIff` | src/control.rs:117-138 | main result: an encoding below 65,536 bytes is sent with a newline and read back, one of exactly 65,536 is sent and then refused with the stream still in step, a longer one is not sent |
| `ControlChannel.MessagesRoundTrip` | src/control.rs:67-147 | main result: ASCII messages below the limit, written one after the other, cut into any chunks and read by the streaming reader, come back in order |
| `ControlChannel.AbandonedRead` | src/control.rs:77-115 | a read dropped after a number of chunks has lost exactly those, unless the line or the stream ended within them |
| `ControlChannel.DroppedReadInStepIff` | src/host/mod.rs:985-1032 | main result: a read dropped by `select!` leaves the next read at the start of a line if and only if it had consumed nothing; otherwise the next read gets the tail of that line, and later ones are in step again |
| `Clipboard.WriteImages` | src/host/clipboard.rs:68-93 | writes exactly the transfer's bytes: a count for several images only, then each header line and its raw bytes; fails exactly when a header is over the limit |
| `Clipboard.ReceiveBody` | src/clipboard_client.rs:144-173 | one image: which check fails first, and otherwise exactly the announced bytes |
| `Clipboard.SizesAreChecked` | src/clipboard_client.rs:150-158 | an announced size is refused exactly when it is zero, above 20 MiB, or takes the batch above 64 MiB |
| `Clipboard.SignaturesAre` | src/clipboard_client.rs:163-166 | the first bytes that make an image a PNG or a JPEG; no bytes are both |
| `Clipboard.ReceiveImages` | src/clipboard_client.rs:119-176 | the chunks make no difference: the result is that of reading the flat stream, except that a header that is not ASCII may be refused, and after an accepted transfer the stream continues where the flat reading ended |
| `Clipboard.AcceptedTransfersAreGood` | src/clipboard_client.rs:132-173 | main result: on any input, accepted images are 1 to 16, of the requested format, with matching signatures, 1 byte to 20 MiB each and 64 MiB in all |
| `Clipboard.GoodTransfersReadBack` | src/clipboard_client.rs:119-176 | main result: a transfer meeting the rules is written and read back as the same list in order, leaving exactly the bytes that follow it, even if image bytes contain newlines |
| `Clipboard.TransferReadsBackIff` | src/host/clipboard.rs:68-93 | a written transfer reads back if and only if it meets the rules |
| `Clipboard.TransferRoundTrip` | src/clipboard_client.rs:119-176 | main result: writing a good transfer, cutting the bytes into any chunks and receiving them gives the same images and leaves what was written after them |
| `ShellQuoting.QuoteAll` | src/clipboard_client.rs:104-108 | the loop builds the line of quoted paths with a space after each, or stops at the first bad path with its error |
| `ShellQuoting.QuotePathOk` | src/clipboard_client.rs:264-272 | a path is quoted exactly when it is UTF-8 without control characters |
| `ShellQuoting.QuotedReads` | src/clipboard_client.rs:271 | to a shell the quoted form is literally the text, whatever quotes it contains |
| `ShellQuoting.ShellReadsPathsBack` | src/clipboard_client.rs:103-108 | main result: the line is produced exactly when every path is clean, and a shell splits it back into exactly those paths |
| `ShellQuoting.QuotedLinePrints` | src/clipboard_client.rs:264-272 | main result: the line is produced exactly for paths that are text without C0 controls, DEL and C1 controls, and holds none itself, so typing it submits nothing |
| `Browser.MappedPortIsReplaced` | src/host/browser.rs:86-100 | main result: after a loopback host in any case, a digit run that is a mapped port becomes the decimal of its host port, and prefix and suffix stay |
| `Browser.LoopbackUrlIsRewritten` | src/host/browser.rs:73-105 | a URL of any scheme with localhost in any case, 127.0.0.1 or [::1] and a mapped port in decimal becomes the same URL with the host port |
| `Browser.PortsParse` | src/host/browser.rs:93-96 | which digit runs are ports |
| `Browser.OtherUrlsAreUnchanged` | src/host/browser.rs:73-105 | every other URL is returned as it is |
| `Browser.ValidUrlIff` | src/protocol.rs:88-111 | a URL is accepted exactly with at most 2048 bytes, http or https in any case, and no ASCII control character |
| `Browser.OpenedUrlIsValidIff` | src/host/browser.rs:217-246 | main result: what is opened is again an acceptable URL unless the rewritten port takes it over the limit, by at most four bytes |
| `Browser.BrowserOpener.AddPortMapping` | src/host/browser.rs:187-189 | the mapping is set and no other changes |
| `Browser.BrowserOpener.RemovePortMapping` | src/host/browser.rs:192-194 | the mapping is gone and no other changes |
| `Browser.BrowserOpener.Prepare` | src/host/browser.rs:217-246 | validation comes first and leaves the window alone; a refusal still expires entries; an accepted open is appended and its URL rewritten |
| `Browser.RunTracks` | src/host/browser.rs:223-235 | after any run with a clock that never goes back the deque is a suffix of the accepted opens and all that was dropped had expired |
| `Browser.LimiterIsExact` | src/host/browser.rs:217-235 | main result: accepted opens five apart are at least a second apart; after expiry the deque is exactly the accepted opens under a second old; a valid URL is refused if and only if there are five |
| `SocketScanning.SocketScanner.FindCurrent` | src/host/socket_scanner.rs:104-137 | the paths that some pattern finds as a socket of at most 108 bytes, bad patterns and entries skipped |
| `SocketScanning.CurrentIff` | src/host/socket_scanner.rs:115-131 | which paths those are, with the bytes counted in UTF-8 |
| `SocketScanning.MirrorIsUnderPrefix` | src/host/socket_scanner.rs:195-207 | a prefix, with or without a slash at its end, replaces the directory of a socket and leaves its name |
| `SocketScanning.SocketScanner.RemoveMissing` | src/host/socket_scanner.rs:140-149 | exactly the known sockets that are gone are removed and returned, once each |
| `SocketScanning.SocketScanner.AddNew` | src/host/socket_scanner.rs:152-176 | new sockets get fresh ids until the limit; the table then has all current paths or exactly the limit |
| `SocketScanning.SocketScanner.Scan` | src/host/socket_scanner.rs:103-179 | removed is known minus current, new is within current minus known, survivors keep their entries, and the new table is within current and has all of it or exactly the limit |
| `SocketScanning.SharedContainerPathIff` | src/host/socket_scanner.rs:195-207 | under a prefix two host sockets share a container path exactly when their file names are equal; without one never |
| `SocketBroadcasting.SocketForwards.Update` | src/host/mod.rs:1613-1634 | the table update is the replay of the broadcast that follows it |
| `SocketBroadcasting.SocketForwards.Existing` | src/host/mod.rs:850-857 | a new container is sent each existing socket |
| `SocketBroadcasting.SocketForwards.SendAll` | src/host/mod.rs:1639-1657 | every sender collected under the lock is tried with all new sockets and then all removed ones, in order, and no other |
| `SocketBroadcasting.FillKeepsWhatFits` | src/host/mod.rs:1646-1656 | trying a broadcast on a full queue loses exactly the messages past its 64 places |
| `SocketBroadcasting.MirrorSockets.Handle` | src/container/mod.rs:634-666 | a socket message creates or removes one mirror with its file; one that cannot be created is left out, and may have cost the file that was at its path |
| `SocketBroadcasting.HandlingMatchesIff` | src/container/socket.rs:109-232 | one message, with any outcome of making its mirror, leaves the files those of the mirrors exactly when it does not disturb another mirror's file |
| `SocketBroadcasting.ListingRebuilds` | src/host/mod.rs:849-864 | replaying the list of existing sockets from nothing gives the host's table, whatever its order |
| `SocketBroadcasting.StaleListIsHarmless` | src/host/mod.rs:1603-1659 | messages queued before the list was sent do no harm when replayed after it |
| `SocketBroadcasting.FilesMatchIff` | src/container/socket.rs:149-232 | main result: the socket files in a container stay those of its mirrors if and only if no socket is forwarded to a path another mirror still has |
| `SocketBroadcasting.ScanCollidesIff` | src/host/mod.rs:1639-1657 | a broadcast forwards no socket to a path another mirror still has if and only if all its new sockets have container paths of their own |
| `SocketBroadcasting.ScanKeepsFilesIff` | src/host/mod.rs:1639-1657 | main result: a container that holds the host's table keeps the files of its mirrors through a scan if and only if no new socket shares its container path with another new one or with any known before, even one the scan removes |
| `SocketBroadcasting.ReplacedSocketLosesFile` | src/host/mod.rs:1639-1657 | a concrete scan: a socket reappears in another directory under the same file name, and the container keeps the new mirror and loses its file |
| `SocketRuns.ScanFiles` | src/host/mod.rs:1613-1634 | a scan keeps the host's table in one-to-one correspondence with the known sockets |
| `SocketRuns.TableIsAlwaysFiled` | src/host/mod.rs:1566-1659 | main result: after every cycle of every run, `socket_forwards` keyed by id is in bijection with the scanner's known sockets, within the limit |
| `SocketRuns.MirrorsConverge` | src/host/mod.rs:846-865 | main result: when no queue overflows and every mirror can be created, however registration, scans, sends and deliveries interleave, replaying all that is on its way over the mirrors of a registered and welcomed container gives `socket_forwards`, and at rest they are equal |
| `SocketRuns.ReplacedFollowsIff` | src/host/mod.rs:771-844 | main result: a connection whose registration is evicted or inserted over but which stays open comes to hold the host's table as it was then, and follows it from there on if and only if it does not change |
| `SocketRuns.MirrorsCatchUp` | src/host/mod.rs:1639-1657 | main result: from every state of a lossless run what is on its way to a registered and welcomed container can be delivered without loss, and its mirrors are then `socket_forwards` |
| `SocketRuns.NextScanIsPossible` | src/host/mod.rs:1566-1603 | from every state the next scan, with any outcome scanning can have, is some sends away |
| `SocketRuns.ConnectionsComeAndGo` | src/host/mod.rs:830-865 | a connection can register and be sent what exists, be replaced, and be closed, at any time |
| `SocketRuns.LossDiverges` | src/host/mod.rs:1646-1656 | the hypothesis is needed: dropping the one message about a new socket, or failing to create its mirror, leaves the container without it |
| `SocketRuns.UncreatedMirrorIsMissing` | src/container/mod.rs:634-657 | a concrete run that ends at rest with a socket forwarded by the host and no mirror in the container |
| `SocketRuns.StepKeepsRegistry` | src/host/mod.rs:1613-1634 | an id never comes to name another socket, in any table, queue or connection |
| `SocketRuns.FilesAlwaysMatchIff` | src/container/socket.rs:109-232 | main result: over any run, lossy or not, with any scans, registrations and failures to make mirrors, the socket files of a container stay those of its mirrors if and only if no message it handles is for a path whose file another mirror still has (or makes no mirror and removes a mirror's file) |
| `ContainerScanning.TrimGivesBack` | src/container/scanner.rs:132-134 | trimming gives back exactly the text between the white space around it |
| `ContainerScanning.CommIsTheName` | src/container/scanner.rs:132-134 | a process name is what the kernel reports without its newline |
| `ContainerScanning.WhiteCharactersAre` | src/container/scanner.rs:132-134 | the 25 characters that are trimmed |
| `ContainerScanning.OwnerIsFirst` | src/container/scanner.rs:106-140 | the naive form: the owner of an inode is the first readable process of the walk that has it open, named by its trimmed `comm` or by nothing |
| `ContainerScanning.NamesAreForOwnSockets` | src/container/scanner.rs:201-208 | names are looked for on every unresolved port when the scan runs as root or cannot tell, otherwise only on those of its own user |
| `ContainerScanning.ResolveInodes` | src/container/scanner.rs:94-140 | main result: the one walk with early exit gives every wanted inode exactly the owner a full walk of its own would, and no other inode |
| `ContainerScanning.FirstOfEachPort` | src/container/scanner.rs:194-200 | the filter with its set of seen ports keeps what the recursive form keeps |
| `ContainerScanning.Describe` | src/container/scanner.rs:218-229 | each kept socket is reported with its owner, an empty name as none |
| `ContainerScanning.ScanListeningPorts` | src/container/scanner.rs:172-230 | fails exactly when neither table can be read; otherwise reports the kept sockets with the owners asked for |
| `ContainerScanning.ReportedIsFirstOfEach` | src/container/scanner.rs:194-200 | kept sockets have distinct ports, are the first of their port, and cover exactly the listening ports not excluded |
| `ContainerScanning.ScansAgreeOnPorts` | src/container/scanner.rs:194-230 | main result: exactly the listening ports not excluded are reported, once each, so scans of the same tables agree whatever is resolved, whoever asks and whatever runs; a port whose name is wanted has the pid and name of the first owner of the walk |
| `Draining.ConnectionTracker.Increment` | src/host/mod.rs:182-184 | one connection more |
| `Draining.ConnectionTracker.Decrement` | src/host/mod.rs:192-201 | one connection less, and all waiters notified exactly when it was the last |
| `Draining.HandleClientConnection` | src/host/mod.rs:1774-1848 | on every way out a handler decrements once for its increment |
| `Draining.StepKeepsCount` | src/host/mod.rs:182-201 | the counter stays the number of handlers between increment and decrement |
| `Draining.StepKeepsWakeups` | src/host/mod.rs:192-221 | no step loses the wakeup of a sleeping drain |
| `Draining.NoWakeupIsLost` | src/host/mod.rs:182-221 | main result: in every reachable state the count is exact, so a decrement never underflows, and a drain asleep on an un-notified future has a connection to wait for or a handler about to notify it |
| `Draining.DrainedMeansNoneLeft` | src/host/mod.rs:1531-1545 | a drain returns without timing out exactly when it looks while no handler is between increment and decrement |
| `Draining.DrainCompletes` | src/host/mod.rs:212-220 | once the last handler is gone, a drain's own steps are enabled and finish it |
| `Draining.EveryDrainCanEnd` | src/host/mod.rs:1531-1556 | main result: from every reachable state a drain under way completes once the handlers have finished, by steps that are always possible, and can time out until then |
| `Draining.EndedStaysEnded` | src/host/mod.rs:1531-1556 | a drain that has ended stays as it ended |
| `Draining.NewConnectionsBridge` | src/host/mod.rs:1774-1822 | a new connection can be counted and come to bridge at any time |
| `Draining.TimeoutCancelsBridging` | src/host/mod.rs:1547-1556 | a timed-out drain cancels exactly the handlers that are bridging at that moment |
| `Draining.LateSubscriberIsMissed` | src/host/mod.rs:1814-1822 | a concrete run in which a handler that subscribes after the cancellation bridges on, counted, with the drain over |

## Left out

- PortSearch.FindAvailablePort: requires that the search ends, which `SearchEndsExactly` shows is the exact condition; the endless case has no result to describe.
- HostForwarding.HostState.Reserve: the same condition, for the same reason.
- HostForwarding.HostState.HandleForward: the same condition where a search takes place; and it covers one forward that nothing disturbs, while interleavings are the subject of `HostRuns`.
- HostForwarding.HostState.HandleUnforwardGlobal: which container is chosen when several forward the port is left open, as the map's order is.
- HostForwarding.HostState.Finish: a listener that binds another port than asked is covered here, but not in `HostRuns`, where it binds the nonzero port it was asked for.
- Draining.HandleClientConnection: the tracker is given; a connection whose forward has disappeared between the two lookups runs without one and is not counted.
- ContainerScanning.ResolveInodes: processes do not come and go during the walk.
- RendezvousRuns.ArrivalOrderDoesNotMatter: assumes nobody else registers, cancels or polls the same id and the receiver is not dropped; without that either can take the entry away.
- The contents of a forward beside its host port (process name, pid, start time), host names and outbound channels in `HostState`: no decision depends on them.
- Shutdown: `drain_all_forwards` holds the lock to the end and is terminal; aborted tasks and panics are not steps.
- Wrap-around of the 64-bit registration counter and of the tracker's counters upward.
- A claim that no connection starts once a drain has returned: the tracker is looked up under the lock but incremented outside it, so the code does not promise it.
- The two-party protocol follows one container; a Forward that fails because of what other containers do to the host's ports is a rejection in it.
- A container daemon whose registration is refused at the container limit exits; the model only leaves it without a connection.
- Two daemons that register under the same container id at once: `Deployment` has one daemon per id, while `HostRuns` allows any connections.
- HostProjection.EventIsNetStep: gives a protocol state around the same host, not one reached by a run of the container; `Deployment` is where the containers run.
- SocketRuns.MirrorsConverge: a connection that is replaced before the existing sockets are sent to it is not described.
- Agreement of the browser's port map with the live forwards: the map is shared by all containers and keyed by container port only, so the code does not keep it.
- `find_container_for_port`: it picks any container that forwards the port.
- ControlChannel.ReadMessage: of a line over the limit that also has a chunk that is not UTF-8, which of the two errors is returned is left open.
- ControlChannel.AbandonedRead: a chunk that is not UTF-8 ends the connection and is not followed.
- ControlChannel.MessagesRoundTrip: for ASCII messages; others come back if no chunk ends inside a character, by `CleanIffWholeCharacters`.
- Bytes copied by the bridge, including those read ahead with the handshake; data streams are opaque identities.
- Directories of mirror sockets, their permissions, and container paths that are relative or too long: creating such a mirror is a failure. A file bound for a mirror that is then given up counts as no file.
- Messages sent while a control connection is failing to a container just registered: the connection is then about to close.
- Parsing of `/proc/net/tcp` lines, fd link texts and `/proc/self/status`: the scan starts from parsed entries.
- Operators, expansions and comments of the shell language: the tokenizer gives up on them, and a quoted line never contains them outside quotes.
- Running the browser, tmux, file creation, Docker detection, configuration, token checks, port filters, heartbeat, backoff and message validation: input and output, or simple members beside these.
