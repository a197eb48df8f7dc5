# Verified models of the BigFleet demo's control logic

The demo hands every visitor a private stack of simulated Kubernetes clusters. Five small
protocols decide who gets one, for how long, and what it shows. This project models them in
Dafny and proves what they keep over every run.

- **Session host** (`cmd/demohost`). `HostRegistry` is what each critical section of the host's
  mutex computes; `HostSystem` lets any number of requests, launches, reaper passes and DELETEs
  interleave between critical sections and proves an inductive invariant; `HostRuns` reads the
  theorems off whole runs; `HostRecords` counts how often a visit is recorded; `HostEffects` says what single steps do, field
  by field, and how old a pooled session can get; `HostCapacity` is about headroom and filling the warm pool;
  `HostService` is the object itself, every method proved equal to its registry function.
- **Session clock** (`SessionClock`). The backend's dormant clock and the host's reaper, with
  both ends of the story told by the history of events alone.
- **node-creator** (`NodeCreator`, `NodeCreatorRuns`, `MachineNames`, `NodeNames`, `FleetNodes`).
  The timed reconcile loop, machine identity from printed id to node name and back across three
  files, and the two together.
- **Backend** (`TokenBucket`, `Apportion`, `Scenario`, `FleetAccounting`).
- **Coordinator** (`Coordinator`, `Placement`, `StatsCursor`, `VisitStats`). Seats, the queue, the
  choice of runner, and the stats from a visit to its data point.

Classes are the source's objects and mutate their fields as it does; each method is tied to a
function of the old state, and the theorems are about those functions.

## Assumptions

- A host step is one critical section. Session objects have an identity apart from their id,
  and an id may be drawn again once free. A goroutine of `poolTick` may start as soon as it has
  been reserved, which only adds interleavings. The slow work between steps (spawn, settle,
  teardown) shows only in which step comes next; `portFree`, the memory sample and the
  backends' answers are inputs.
- Times are integers (nanoseconds; the coordinator's are milliseconds). A zero `assignedAt` is
  `None`. Go's integer division truncates and is written out as `TruncDiv`.
- `sessionMB` is positive where the source divides by it. A wall clock never goes back.
- Coordinator requests come one at a time, and the key-value store reads its own writes and
  drops an entry at its expiry. The real store is only eventually consistent
  (`worker/README.md:130`), so these results are about the protocol, not the store.
- The token bucket and the replica split are over exact reals.
- In `Placement`, a runner whose create gets as far as a port answers with a session: its spawn
  succeeds.

## Where the code and its text differ

- `cmd/demohost/main.go:181` promises that the reservations never exceed the budget. Counting sessions
  not reaping, they can: line 628 sets `running` whatever the state was, so it revives a session
  that a DELETE marked while it spawned (`RevivalBreaksTheBound`). `ActiveStep` is the exact
  condition. Counting only sessions never marked, the promise holds on every run.
- `poolTick` counts each launch twice (line 477), so a tick launches half the deficit, rounded up.
- `cmd/demohost/main.go:733-735` promises statistics without double counting. No appended completion is
  scraped twice, but one visit can be appended twice: neither DELETE nor the append looks at the
  state, so a DELETE racing the reaper (`OneVisitRecordedTwice`), a second DELETE, or reaping a
  session revived at line 628 each add one. `RecordedTwiceExactlyWhen` is the exact condition: some
  step took a session that had been marked before. One appended while a scrape is under way can
  also be missed (`SlowTeardownIsLost`; `StillWrittenExactlyWhen` is the exact condition).
- `worker/src/index.ts:160` calls the queue first-in first-out. Promotions by polling are; a
  newcomer at the gate can still take the slot, and the seats are out of order once the visitor it
  overtook is seated (`GateJumpsTheQueue`). `SeatsInOrderExactlyWhen` says exactly which runs are in
  order, and `GuardedSeatsInOrder` that line 216's guard at the gate and the front page would do.
  `worker/README.md:37-52` says a two-minute ticket and a 20-second poll; the code has 180 and 45 seconds.
- AWS node names keep the machine number only modulo 256, beside 13 bits of a hash. They clash at
  aws-1272 and aws-7928 (`BigFleetsClash`). `NodeNamesInjectiveExactlyWhen` turns the question for any
  fleet into one about its AWS ids' hashes; up to 256 AWS machines the answer is that no names clash
  (`SmallFleetNamesDiffer`), from 7929 on that some do.
- node-creator keeps a node's drain time while the node is absent, so a node removed by somebody
  else in mid-drain and then wanted and minted anew can be deleted with no drain window of its own
  (`RemintedAndDeletedAtOnce`). Where nobody else removes the node or takes it over, it cannot
  (`UndisturbedDrainSafety`).

## Model

| member | source | states |
|---|---|---|
| HostRuns.AdmissionSafety | cmd/demohost/main.go:184-198 | on every run, sessions never marked for removal plus launches in flight stay within maxSessions and, times sessionMB, within the budget |
| HostRuns.BooksBalance | cmd/demohost/main.go:456-516 | on every run, poolInFlight is the number of launches not yet registered; the pool with those on the way never exceeds warmPool; usedBases is exactly the registered sessions' ports, all distinct; the ring is the last 1000 completions ever appended |
| HostRuns.RunningIsVisitorsPlusPool | cmd/demohost/main.go:681-690 | sessions not reaping are the visitors' and the pool's, never both |
| HostRuns.ActiveStep | cmd/demohost/main.go:627-630 | the admission bound on all sessions not reaping survives a step unless the step revives a deleted session with no room for one more, and then it does not |
| HostRuns.ActiveThroughoutExactlyWhen | cmd/demohost/main.go:580-663 | the bound holds all along a run exactly when every revival in it finds room for one more |
| HostRuns.ActiveBoundOnCalmRuns | cmd/demohost/main.go:580-663 | that bound holds on every run in which no DELETE hits a directly created session still starting |
| HostRuns.RevivalBreaksTheBound | cmd/demohost/main.go:627-654 | a concrete run ends with two live sessions where one is allowed |
| HostRuns.AssignmentIsForGood | cmd/demohost/main.go:405-417 | once handed out, a session keeps its hand-out time and hard cap and never rejoins the pool |
| HostRuns.NeverHandedOutAgain | cmd/demohost/main.go:405-417 | no session that a visitor has had, or that was ever marked reaping, is handed out later |
| HostRuns.OneVisitRecordedTwice | cmd/demohost/main.go:355-363 | a concrete run of reaper and DELETE appends two completions for the one session created |
| HostRecords.NewHolderExactlyWhen | cmd/demohost/main.go:332-363 | a session already marked gets one more goroutine to record it exactly when a DELETE or a reaper pass takes it when marked |
| HostRecords.LogIsHistory | cmd/demohost/main.go:147-157 | over any run, completion k appended is of the visit to the k-th recorded session: it ends its own length after that session's hand-out |
| HostRecords.RecordsOfAVisit | cmd/demohost/main.go:646-663 | on every run, the completions of a visitor's session and the goroutines still to record it are one if it was marked, and one more for every time it was taken again |
| HostRecords.RecordedTwiceExactlyWhen | cmd/demohost/main.go:646-663 | once nothing holds it, a visitor's session was recorded twice or more exactly when some step took it when already marked |
| HostRecords.NoVisitRecordedTwice | cmd/demohost/main.go:147-157 | a run without such a step records no visit twice, and its completions are exactly its recorded visits' |
| HostEffects.AdmittedExactlyWhen | cmd/demohost/main.go:184-198 | one more session is admitted exactly within the session limit, the reservation budget and, once sampled, the measured one; a refusal names the first that is full |
| HostEffects.RegisteredAfresh | cmd/demohost/main.go:596-616 | a registered session is starting, created and last seen now, capped a ttl from now, on a block not in use before |
| HostEffects.HandedOutRuns | cmd/demohost/main.go:405-417 | a warm session handed out runs, is no longer pooled, and is assigned, seen and capped from now |
| HostEffects.SpawnedRuns | cmd/demohost/main.go:627-630 | a direct spawn that succeeds leaves the session running, seen now |
| HostEffects.SettledIsReady | cmd/demohost/main.go:540-545 | a launch that settles leaves its session ready to be handed out exactly when it was neither marked nor dropped meanwhile |
| HostEffects.RemovalFrees | cmd/demohost/main.go:308-314 | after any removal the id is unknown, its block is free, and every other session stays registered |
| HostEffects.RemovalRecords | cmd/demohost/main.go:332-363 | a removal records its end, the time since hand-out, and the reason: manual, past the hard cap, or otherwise idle |
| HostEffects.UnclaimedLeavesNoRecord | cmd/demohost/main.go:147-150 | removing a session no visitor ever had records nothing |
| HostEffects.RecycledExactlyWhen | cmd/demohost/main.go:460-470 | a tick marks a live session exactly when it is registered, pooled and older than warmMaxAge, and changes nothing else of it |
| HostEffects.TickLeavesNoneOlder | cmd/demohost/main.go:460-470 | after a tick every live pooled session was created within warmMaxAge before it, and every session the tick recycles was not |
| HostEffects.HandedOutIsYoung | cmd/demohost/main.go:405-417 | over any run after a tick, whatever is handed out is no older than warmMaxAge was at that tick |
| HostSystem.LifeStep | cmd/demohost/main.go:332-545 | every step keeps: Pooled exactly while assignedAt is zero, warming and pooled only when Pooled, running only when not, reaping only once marked |
| HostSystem.OwnersStep | cmd/demohost/main.go:498-545 | every step keeps: a session is brought up by one goroutine at most |
| HostSystem.InFlightStep | cmd/demohost/main.go:476-516 | every step keeps poolInFlight equal to the number of reserved launches |
| HostSystem.AdmissionStep | cmd/demohost/main.go:184-198 | every step keeps the admission bound on unmarked sessions |
| HostSystem.PoolStep | cmd/demohost/main.go:456-480 | every step keeps the warm pool with its launches within its size |
| HostSystem.PortsStep | cmd/demohost/main.go:308-314 | every step keeps the port registry exact and its bases distinct, removals of an id already removed included |
| HostRegistry.AllocIsLowest | cmd/demohost/main.go:200-213 | the block found is the first free and bindable one, and none is found only when there is none |
| HostRegistry.PortAllocationComplete | cmd/demohost/main.go:200-213 | with fewer than maxSessions*4+8 sessions registered and every port bindable, allocation finds a block, the lowest free one (pigeonhole) |
| HostRegistry.PortBlocksDisjoint | hack/demo-common.sh:39-54 | for stride at least 13, no port of one registered session's block +0..+12 is another's |
| HostRegistry.LaunchLoopSafe | cmd/demohost/main.go:476-480 | the launch loop overshoots neither the pool's size nor admission |
| HostCapacity.CreateIsAStep | cmd/demohost/main.go:580-616 | every outcome of the create handler is the one step of the system it can be, and a refused one is none |
| HostCapacity.CreatesServed | cmd/demohost/main.go:580-595 | of consecutive creates with ports to be had, exactly the first warm + admissible ones are served |
| HostCapacity.HeadroomSound | cmd/demohost/main.go:681-716 | as many consecutive creates as the reported headroom are served; without a memory sample the next is refused, so the figure is exact |
| HostCapacity.HeadroomMeans | cmd/demohost/main.go:692-716 | the headroom beyond the warm sessions is at least k exactly when k more fit under the session limit, the reservation budget and, once sampled, the measured one |
| HostCapacity.HeadroomServesTheNext | cmd/demohost/main.go:681-716 | with nothing in flight, headroom is positive exactly when the next create is served, sampled or not |
| HostCapacity.TickLaunches | cmd/demohost/main.go:476-480 | a tick launches half the pool's deficit rounded up, or as many as admission still allows |
| HostCapacity.DeficitHalves | cmd/demohost/main.go:456-516 | over a run without hand-outs, recycles or failures, the deficit halves once a tick, whatever else interleaves |
| HostCapacity.PoolFills | cmd/demohost/main.go:442-480 | so the pool is full exactly from tick floor(log2 d) + 1 on |
| HostService.Host.AdmitLocked | cmd/demohost/main.go:170-198 | refuses in the source's order, counting live sessions and launches in flight |
| HostService.Host.AllocBaseLocked | cmd/demohost/main.go:200-213 | returns the allocation function's block, or none |
| HostService.Host.RemoveLocked | cmd/demohost/main.go:308-314 | drops the id's session and frees its port; nothing for an unknown id |
| HostService.Host.AppendCompletionLocked | cmd/demohost/main.go:147-157 | appends unless no visitor ever had it, and keeps the last 1000 |
| HostService.Host.TakePooledLocked | cmd/demohost/main.go:405-417 | claims a ready pooled session and restarts its cap from now, or there is none |
| HostService.Host.CreateSession | cmd/demohost/main.go:580-616 | hand-out, refusal, no port, or a new starting session, each exactly when its conditions hold, and the registry it leaves |
| HostService.Host.DirectSpawned | cmd/demohost/main.go:627-630 | sets running whatever the state was |
| HostService.Host.CreatePooled | cmd/demohost/main.go:498-518 | registers a pooled session or finds no port; either way the launch leaves the in-flight count |
| HostService.Host.PoolSpawned | cmd/demohost/main.go:531-536 | a session still starting warms; any other keeps its state |
| HostService.Host.PoolSettled | cmd/demohost/main.go:540-545 | a session still warming joins the pool; any other keeps its state |
| HostService.Host.ReapMark | cmd/demohost/main.go:332-352 | marks exactly the running sessions that are due, and returns exactly those, each once |
| HostService.Host.ReapRemove | cmd/demohost/main.go:354-364 | drops the session and appends its completion under the pass's own time |
| HostService.Host.DeleteMark | cmd/demohost/main.go:646-658 | marks whatever is registered under the id, or reports none |
| HostService.Host.DeleteRemove | cmd/demohost/main.go:659-663 | drops what the id names by then and appends for the session marked |
| HostService.Host.PoolTick | cmd/demohost/main.go:456-480 | marks exactly the stale pooled sessions (which, HostEffects.RecycledExactlyWhen says), returns each once, and reserves the launches the launch loop allows |
| HostService.Host.CapacityView | cmd/demohost/main.go:681-716 | the counts are the live, visitor and ready sessions; the headroom is the clamped minimum plus the ready ones |
| HostService.Host.Stats | cmd/demohost/main.go:736-750 | the ring's completions ended after `since`, in order |
| SessionClock.Clock.Begin | backend/cmd/demo-backend/main.go:258-268 | only the first begin sets the deadlines |
| SessionClock.Clock.Snapshot | backend/cmd/demo-backend/main.go:283-323 | the status the clock has at that instant, itself unchanged |
| SessionClock.StatusConsistent | backend/cmd/demo-backend/main.go:283-323 | once begun, expired exactly past the announced instant, and then with no time left; before, never, with a whole ttl ahead |
| SessionClock.StatusShows | backend/cmd/demo-backend/main.go:306-323 | once begun: the earlier of the two deadlines, which of them it is, and the whole seconds left until it |
| SessionClock.DormantShows | backend/cmd/demo-backend/main.go:290-305 | before: a whole ttl from now, pending |
| SessionClock.ClocksFollowHistory | backend/cmd/demo-backend/main.go:243-268 | after any order of hand-out, begin, heartbeats and polls, both clocks are what the events alone determine |
| SessionClock.ReaperMarksExactlyWhenDue | cmd/demohost/main.go:332-350 | the reaper marks a session if and only if it is past its cap, idle or past its deadline on a healthy backend, or down for longer than the grace |
| SessionClock.ReaperIsJustified | cmd/demohost/main.go:332-350 | every marking is past hand-out plus ttl, or after more than the idle timeout without any heartbeat, or after more than the grace unreachable |
| SessionClock.NotBegunNotExpired | backend/cmd/demo-backend/main.go:290-305 | a session not yet begun never reports itself expired, however it is polled |
| SessionClock.DeadlineFixedAtFirstBegin | backend/cmd/demo-backend/main.go:253-268 | nothing after the first begin moves the deadline, and the host's cap is never after it |
| NodeCreator.DwellInRange | cmd/node-creator/main.go:89-98 | the dwell stays between its configured bounds |
| NodeCreator.DwellByHash | cmd/node-creator/main.go:89-98 | the dwell is the shortest one and as many whole seconds more as the name's hash leaves over the span |
| NodeCreator.Controller.DoTick | cmd/node-creator/main.go:100-217 | one tick on the controller's own maps and the cluster, API failures included, is the tick function |
| NodeCreatorRuns.MintedWhenDwelt | cmd/node-creator/main.go:119-165 | a pass adds a node only for a Ready UpcomingNode of that name remembered Ready for its dwell, or in warmup |
| NodeCreatorRuns.MintedOnTime | cmd/node-creator/main.go:119-172 | over any run in any environment, a node the controller creates is that of an UpcomingNode Ready now, first seen Ready at least its dwell before and never forgotten since, unless still in warmup |
| NodeCreatorRuns.UnfinishedTickIsHarmless | cmd/node-creator/main.go:100-177 | a tick completes exactly when both lists and every create succeed; any other drains, cordons and removes nothing |
| NodeCreatorRuns.FailedCreateStops | cmd/node-creator/main.go:158-160 | a node that is due but cannot be created ends the tick in error, the nodes as they were |
| NodeCreatorRuns.DrainCordons | cmd/node-creator/main.go:184-198 | a drain that starts cordons the node and ends drainDwell from now; one that goes on leaves the node as it is |
| NodeCreatorRuns.FailedPatch | cmd/node-creator/main.go:184-210 | a cordon or uncordon that fails leaves the node as it was, and the drain starts or is cancelled all the same |
| NodeCreatorRuns.DeleteEffect | cmd/node-creator/main.go:199-202 | a deleted node is gone unless the call failed; either way its drain is forgotten |
| NodeCreatorRuns.UnmanagedUntouched | cmd/node-creator/main.go:178-183 | a tick leaves every unmanaged node exactly as it was |
| NodeCreatorRuns.WantedAgainCancels | cmd/node-creator/main.go:203-210 | a node wanted again in mid-drain stays and is uncordoned |
| NodeCreatorRuns.DrainSafety | cmd/node-creator/main.go:178-202 | over any run in any environment, a deleted node was found unwanted at least drainDwell earlier, and no completed tick between found it listed and wanted (a tick that wants the name while the node is absent does not count) |
| NodeCreatorRuns.UndisturbedDrainSafety | cmd/node-creator/main.go:178-202 | over any run in which nobody else removes the node or takes it over, a deleted node was found unwanted at least drainDwell earlier, and no completed tick between wanted it |
| NodeCreatorRuns.RemintedAndDeletedAtOnce | cmd/node-creator/main.go:165-202 | in a concrete run, a node removed in mid-drain is wanted by a completed tick, minted anew, and deleted an instant later |
| NodeCreatorRuns.OnlyDeleteRemoves | cmd/node-creator/main.go:178-202 | a node missing after a tick was deleted by that rule |
| NodeCreatorRuns.MemoryIsSeasoned | cmd/node-creator/main.go:141-153 | what any earlier run leaves in the two maps is no later than its ticks allow |
| NodeCreatorRuns.Convergence | cmd/node-creator/main.go:100-217 | with the UpcomingNodes fixed and nothing failing, the first tick the longest dwell after an initial one leaves the managed nodes exactly the wanted names no foreign node holds, none draining |
| NodeCreatorRuns.ConvergedIsStable | cmd/node-creator/main.go:100-217 | later ticks create, drain and delete nothing |
| FleetNodes.EveryMachineItsNode | cmd/node-creator/main.go:100-217 | machines of a fleet whose names differ converge to one node each and no other |
| MachineNames.Instances | providers/fakecloud/catalog.go:88-129 | the nested loop prints machine n of the n-th slot, tier by tier |
| MachineNames.Describe | providers/fakecloud/multiplex.go:83-94 | entry i is the fleet's machine i: on-prem, then AWS, then GCP, each cloud's machines from its number 0 |
| MachineNames.FleetIsNumbered | providers/fakecloud/multiplex.go:83-94 | those entries are exactly the clouds' numbered machines |
| MachineNames.RouteRoundTrip | providers/fakecloud/multiplex.go:96-106 | an id printed at any catalog size routes to its own cloud and reads back as its number |
| MachineNames.RoutedExactlyWhen | providers/fakecloud/multiplex.go:96-106 | exactly the ids that are a cloud's name, alone or followed by a dash, are routed |
| MachineNames.MachineStands | providers/fakecloud/catalog.go:94-126 | a machine has a host, itself, exactly when it is idle; its cloud's three zones take turns |
| MachineNames.TrailingNumLoop | cmd/node-creator/main.go:490-497 | the value of the trailing digits, capped as Atoi's range error caps it |
| MachineNames.Fnv32Loop | cmd/node-creator/main.go:448-454 | the 32-bit FNV-1a hash |
| MachineNames.B36Loop | cmd/node-creator/main.go:456-470 | the base-36 text padded to the minimum width |
| MachineNames.B36RoundTrip | cmd/node-creator/main.go:456-470 | base-36 text reads back as its number despite the padding |
| MachineNames.NodeNameRoundTrip | cmd/node-creator/main.go:411-423 | a fleet machine's node name names its cloud and gives back its number (AWS: modulo 256; GCP: by inverting 1327 modulo 2^32) |
| NodeNames.NodeNamesEqualExactlyWhen | cmd/node-creator/main.go:411-423 | two machines of any fleet share a node name exactly when they are of one cloud and their numbers agree: themselves on-prem, modulo 2^32 for GCP, modulo 256 and in 13 bits of their ids' hashes for AWS |
| NodeNames.NodeNamesInjectiveExactlyWhen | cmd/node-creator/main.go:411-423 | all node names of a fleet differ exactly when it has at most 2^32 GCP machines and no two such AWS machines |
| NodeNames.BigFleetsClash | cmd/node-creator/main.go:420-421 | aws-1272 and aws-7928 get one name, so fleets of more than 7928 AWS machines never tell all nodes apart |
| NodeNames.SmallFleetNamesDiffer | cmd/node-creator/main.go:411-423 | up to 256 AWS and 2^32 GCP machines, all node names of a fleet differ |
| NodeNames.DefaultFleetNamesDiffer | providers/fakecloud/multiplex.go:44-64 | the default fleet's 120 node names all differ |
| TokenBucket.RateLimiter.Allow | backend/cmd/demo-backend/main.go:1192-1206 | one call answers and refills as the bucket function says |
| TokenBucket.TokensInRange | backend/cmd/demo-backend/main.go:1192-1206 | tokens stay between 0 and the burst over every run |
| TokenBucket.WindowBound | backend/cmd/demo-backend/main.go:1192-1206 | in any window of calls at most burst + rate × length are allowed |
| TokenBucket.AllowedExactlyWhen | backend/cmd/demo-backend/main.go:1192-1206 | a call is refused only when some window ending in it is full: the limiter is as generous as the bound permits |
| Apportion.ApportionmentError | backend/cmd/demo-backend/main.go:934-948 | for any weights and sizes, the tier requests its target give or take half the sum of the service sizes |
| Apportion.ActualError | backend/cmd/demo-backend/main.go:741-805 | with the actual tables, at most 6500m off (6000m for batch) |
| Apportion.ReplicasMonotone | backend/cmd/demo-backend/main.go:940-945 | raising the level takes no replica from any service |
| Apportion.ClusterDemand.SetTierReplicas | backend/cmd/demo-backend/main.go:924-962 | records the level, sets every service whose patch goes through, and leaves all others of this and other tiers as they were |
| Scenario.OneLiveScenario | backend/cmd/demo-backend/main.go:1133-1164 | after any interleaving, the one run going uncancelled is the newest, and a scenario is shown exactly while it goes, by its name |
| Scenario.StaleFinishIsSilent | backend/cmd/demo-backend/main.go:1155-1161 | a superseded or cancelled run that finishes changes nothing shown |
| Scenario.LaunchIsByName | backend/cmd/demo-backend/main.go:1138-1156 | each of the three names launches a live run of that name as the next generation, and is shown; any other changes nothing |
| Scenario.ShownIsLastLaunch | backend/cmd/demo-backend/main.go:1133-1164 | over every run, what is shown is the last accepted launch's name until a cancel or that launch's own finish, and generation g runs the g-th accepted name |
| Scenario.Scenarios.LaunchScenario | backend/cmd/demo-backend/main.go:1133-1155 | cancels the one before, or rejects an unknown name with no effect |
| Scenario.Scenarios.CancelScenario | backend/cmd/demo-backend/main.go:1053-1061 | cancels and clears what is shown |
| Scenario.Scenarios.FinishScenario | backend/cmd/demo-backend/main.go:1155-1161 | clears what is shown only for the newest generation |
| FleetAccounting.AccountFleet | backend/cmd/demo-backend/main.go:490-575 | every row and total is the count it claims of the ready nodes, clusters that fail to list counting nothing |
| FleetAccounting.MapsSumToTiers | backend/cmd/demo-backend/main.go:494-532 | the fleet is committed + on-demand + spot; the by-provider and by-type maps sum to their tiers |
| FleetAccounting.FleetIsItsClusters | backend/cmd/demo-backend/main.go:512-514 | provider by provider, the clusters' rows add up to the fleet |
| FleetAccounting.PoolsBalance | backend/cmd/demo-backend/main.go:564-573 | in use plus idle is each pool, nonnegative exactly when the pool is; the unclamped cloud parts add up exactly within quota |
| FleetAccounting.TierByLabel | backend/cmd/demo-backend/main.go:131-155 | a ready node's label decides its tier, any unknown one meaning on-demand; without a label its machine type does; a node not ready is in none |
| FleetAccounting.FleetMachineIsCounted | backend/cmd/demo-backend/main.go:117-155 | a fleet machine's node counts under its own cloud, committed exactly when the machine is idle, spot or on-demand as its catalog bills it |
| FleetAccounting.ProvidersAgree | cmd/node-creator/main.go:355-364 | node-creator and the backend tell clouds apart alike on every machine type |
| FleetAccounting.CapacityShows | backend/cmd/demo-backend/main.go:560-570 | every number and map entry shown is the count of ready nodes it names |
| FleetAccounting.CostIsPerNode | backend/cmd/demo-backend/main.go:571-574 | the cost is each metered node's price, summed node by node |
| Coordinator.RankedIs | worker/src/index.ts:361-365 | exactly the runners with headroom, most first, ties in listed order |
| Coordinator.AssignNewChooses | worker/src/index.ts:357-372 | a seat is found exactly when some runner with headroom creates a session, on the best ranked of those |
| Coordinator.AssignNewInOffers | worker/src/index.ts:361-365 | in reported headroom: the chosen runner has the most of all that create, the earliest listed among equals |
| Coordinator.TryRunners | worker/src/index.ts:367-371 | the loop stops at the first session created, so none is created and dropped |
| Placement.HeadroomSeatsAVisitor | worker/src/index.ts:357-372 | if some runner reports headroom, has no launch in flight, finds a port and its spawn succeeds, the visitor is seated |
| Coordinator.PromotesExactlyWhen | worker/src/index.ts:209-226 | a poll promotes exactly the visitor with no seat and no older live ticket, when a runner will have it |
| Coordinator.PromotionsInOrder | worker/src/index.ts:209-226 | over whole runs, promotions are in order of joining, and no visitor with a live seat has a ticket |
| Coordinator.PositionNeverGrows | worker/src/index.ts:249-273 | over whole runs of any requests, the position of a visitor whose ticket never lapses does not grow |
| Coordinator.PollNeverMovesBack | worker/src/index.ts:209-226 | a visitor told to wait who polls again within three minutes, whatever others do, keeps its joining time and is reported no further back |
| Coordinator.SeatStands | worker/src/index.ts:130-141 | a live seat is kept by every request except a visit that finds the session gone |
| Coordinator.SeatOutlastsSession | worker/src/index.ts:347-350 | the seat is kept to within a second of the session's end, and at least a minute |
| Coordinator.SeatIsTheSession | worker/src/index.ts:347-372 | the seat stored is the runner, id and end of the session the chosen runner created for this visitor |
| Coordinator.SeatsAreCreated | worker/src/index.ts:130-141 | over every run, the session a visitor is proxied to was created for that visitor by one of its own requests |
| Coordinator.CheckedExactlyWhen | worker/src/index.ts:180-188 | a visitor passes exactly with a v3 score at the bar or a passed v2, and is asked for v2 exactly below the bar |
| Coordinator.RefusedGetsNothing | worker/src/index.ts:109-188 | a visitor refused at the gate or the front page gets neither seat nor ticket |
| Coordinator.AdmittedIsSeatedOrWaits | worker/src/index.ts:190-201 | one let in is seated exactly when a runner with headroom creates, and at the gate otherwise waits |
| Coordinator.SeatsInOrderExactlyWhen | worker/src/index.ts:163-226 | over whole runs, all seats, however given, are in order of joining exactly when no step seats a visitor ahead of an earlier live ticket whose holder keeps it and is seated later |
| Coordinator.GuardedSeatsInOrder | worker/src/index.ts:190-226 | with the poll's position guard at the gate and the front page too, every run seats in order of joining |
| Coordinator.OrderIsSafeExactlyWhen | worker/src/index.ts:163-226 | after any run in order, polling alone can still put the seats out of order exactly when some live ticket joined before a seat already given |
| Coordinator.GateJumpsTheQueue | worker/src/index.ts:190-196 | a concrete run of three requests seats a newcomer first and the visitor who joined before it second |
| Coordinator.FrontDoor.QueuePosition | worker/src/index.ts:261-273 | over however many pages, one more than the live tickets that joined before |
| Coordinator.FrontDoor.HandleGate | worker/src/index.ts:163-201 | the reply and the new state for every verdict and outcome |
| Coordinator.FrontDoor.HandleQueue | worker/src/index.ts:209-226 | the reply and the new state; it says go exactly for a seat held or a promotion |
| Coordinator.FrontDoor.HandleHome | worker/src/index.ts:109-127 | the same for the front page's button |
| Coordinator.FrontDoor.HandleVisit | worker/src/index.ts:133-145 | proxies to the stored runner and session, drops the seat when that is gone, or shows the gate |
| StatsCursor.ListingIsStats | cmd/demohost/main.go:736-750 | a listing by positions in the whole history is what the handler answers |
| StatsCursor.Cron.SampleStats | worker/src/index.ts:545-561 | runner by runner, writes what is new and advances the cursor only then |
| StatsCursor.EveryRunnerIsScraped | worker/src/index.ts:545-561 | every runner listed is scraped with the cursor it had: all its news is written, in order, and its cursor moved |
| StatsCursor.ScrapeIsListAndReply | worker/src/index.ts:545-561 | the cron's scrape is one list and its reply, and touches no other runner's cursor |
| StatsCursor.WrittenAtMostOnce | worker/src/index.ts:545-561 | over any run, no appended completion is written twice |
| VisitStats.NoVisitWrittenTwice | worker/src/index.ts:545-561 | end to end: over a host run that takes no session already marked, and any scrapes of its completions, no visit has two data points |
| StatsCursor.CursorMoves | worker/src/index.ts:556-560 | an idle or failed scrape leaves the cursor; any other moves it strictly on, past all it brought |
| StatsCursor.StillWrittenExactlyWhen | worker/src/index.ts:545-561 | an unwritten completion can still be written exactly when it is ahead of the cursor and in the ring |
| StatsCursor.SlowTeardownIsLost | cmd/demohost/main.go:354-364 | a concrete session appended between listing and reply is never written |

## Left out

- Spawning, tearing down and sweeping stacks (`spawn`, `reap`, `sweepOrphans`, `reapAll`), memory sampling and its age, and the keep-alive pokes: external effects.
- Fields that are only shown: session URL and ReservedMB, percentages, node status, labels, annotations and resource corrections, deployments' manifests, feed text.
- HTTP, JSON and its failures, authentication, proxies, rendering, the Analytics Engine, and reCAPTCHA scoring (a verdict is an input).
- Random ids: any id not taken.
- NodeCreatorRuns.DrainSafety: a completed tick may have wanted the name while no managed node of that name was listed. That takes somebody else to remove or take over the node (NodeCreatorRuns.UndisturbedDrainSafety), and then the old drain time is used on whoever brings it back, the controller included (NodeCreatorRuns.RemintedAndDeletedAtOnce).
- NodeNames.NodeNamesInjectiveExactlyWhen: the hashes of fleets with 257 to 7928 AWS machines are not worked out.
- StatsCursor.WrittenAtMostOnce: assumes that scrapes do not overlap and that the cursor's write does not fail after its points are written.
- HostCapacity.HeadroomSound: nothing is claimed while pool launches are in flight, which capacityView does not count; beyond the next create a sampled headroom is only sound, since admission compares the same sample each time.
- NodeCreatorRuns.Convergence: "exactly the wanted names" excludes names an unmanaged node already holds, which the source neither adopts nor touches.
- NodeCreator.Tick: the nodes loop reads the list once and treats each node by itself, so the order of listing is not modelled; nodes changing between the list and the patch are left to the next tick.
- Scenario.OneLiveScenario: what a cancelled run still does to the demand level before it notices.
- FleetAccounting.AccountFleet: the counts of pods and of provisioning machines, and the levels copied into the rows.
- Apportion.ApportionmentError: rounding of the floating-point share itself.
- The BigFleet engine, the provider kit and scheduling.
