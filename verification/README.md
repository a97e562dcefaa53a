# A verified model of kamatera-autoscaler

kamatera-autoscaler watches a Kubernetes cluster for pods that starve for resources, creates
Kamatera machines for them, and drains and removes idle nodes above a pool's minimum. This
project models its three cooperating parts in Dafny and proves what they keep over every run.

* **The command watcher** (`watcher_*.dfy`, `watcher.dfy`). A lock-protected table of waiters,
  polled by a goroutine that starts lazily and exits by itself. `Watcher.CmdWatcher` has the
  code's own form: a mutable map, a running flag, waiter records with a one-slot channel, and
  one method per critical section. Each method's new state is a function of `WatcherTable`
  applied to the old one. `WatcherRuns` is the step system made of those functions: every
  interleaving of register, ctx branch, cancel, receive, snapshot, queue answer or failure,
  server-list answer or failure, delivery, exit check, ticker and passing time.
  `WatcherTheorems` and `WatcherProgress` are about its runs. `WatcherBatch` is the unlocked
  middle of a tick: two index maps, a first pass, then an array filtered and enriched in place.
  `WatcherMeaning` and `WatcherOutcomes` say in status texts, names and times what callers are
  told.
* **The controller** (`tracker.dfy`, `pool_match.dfy`, `scale_up*.dfy`, `drain.dfy`,
  `scale_down*.dfy`, `fleet*.dfy`, `create_node.dfy`). Kubernetes, Kamatera and the clock are a
  `World` that may answer anything and records every call. Between two tracker calls of a
  scale-up tick any creations may end and time may pass; the controller keeps the history of
  all tracker operations, and what ticks do is proved from it. `Fleet` is one pool over a whole
  life of the controller; `FleetScaleUp` and `FleetTicks` show that the ticks of the code are
  runs of it, and `FleetLife` states its ceiling and floor over lists of such ticks.
* **The client's loops** (`client.dfy`): bounded retries, the create that is sent once, and the
  recovery poll.

Times and durations are integers in nanoseconds. Map iteration order, select and every answer
from outside are nondeterministic or arbitrary parameters. A retry delay is a signed 64-bit
integer that wraps; other integers are unbounded.

Some results are about where a promise ends. A waiter can be lost when a command id is
registered again before its earlier waiter has returned: `WatcherTheorems.ReuseLosesAWaiter` is
such a run and `WatcherTheorems.ExposureIsExact` the exact condition. The pool ceiling can be
exceeded when an entry is dropped before its node is listed: `Fleet.DroppedEntryOverruns`. It
holds if and only if what a tick counts, listing and tracker together, reaches the number of
nodes there are or max_nodes: `Fleet.CountIsExact` and `Fleet.CeilingIsExact`. Back-offs stop
being geometric when the delay no longer fits its integer: `Client.WaitsAreGeometric`, with
`Client.OneSecondWraps`. A retryable request with a negative retry count is never
sent and reports no error: `Client.NoAttemptIsNoError`. The client documents that only
transport failures enter recovery; the code also sends a request that could not be built there,
since any error that is not an API answer is classified as transport:
`Client.UnbuildableIsRecovered` is such a create, and `Client.RecoveryIsEntered` the exact
condition. Two comments promise other conditions than the code tests, and the model follows the
code: pods short of ephemeral storage count as starved beside cpu and memory, and idleness is
one listing, with no time that pods must have been there.

## Model

| member | source | states |
|---|---|---|
| WatcherTheorems.ExactlyOneFate | internal/kamatera/watcher.go:87-120 | over every interleaving in which no id is re-registered before its earlier waiter returned, each accepted waiter is pending, or answered by exactly one result, or removed by its own cancel: never two, never none |
| WatcherTheorems.NobodyLeftBehind | internal/kamatera/watcher.go:107-113 | in those runs a caller still in its select has its answer in the slot, or is pending with the running flag up and exactly one live runner |
| WatcherTheorems.FateInEveryState | internal/kamatera/watcher.go:116-120 | without that hypothesis: pending, answered once, or removed once by some cancel, exclusively |
| WatcherTheorems.UnexposedRun | internal/kamatera/watcher.go:116-120 | fresh ids keep every unreturned waiter the owner of its id's entry and keep cancels from deleting another waiter's entry |
| WatcherTheorems.ExposedCanBeStolen | internal/kamatera/watcher.go:110-119 | an unreturned caller sharing a pending waiter's id can delete that waiter's entry within two steps |
| WatcherTheorems.ExposureIsExact | internal/kamatera/watcher.go:96-119 | every continuation with fresh ids is free of such thefts if and only if no unreturned caller shares a pending waiter's id |
| WatcherTheorems.RegisterIsExact | internal/kamatera/watcher.go:96-120 | in a state free of thefts and shared ids, an accepted registration keeps every continuation with fresh ids free of thefts if and only if every earlier waiter of its id has returned |
| WatcherTheorems.ReuseLosesAWaiter | internal/kamatera/watcher.go:107-119 | a complete run in which the first waiter times out and a re-registered id loses its second waiter: no entry, no answer, no cancel of its own |
| WatcherTheorems.SingleRunner | internal/kamatera/watcher.go:100-104 | the running flag is up exactly when one run goroutine has not taken its exit branch, and a pending waiter implies one |
| WatcherTheorems.NoLostWakeUp | internal/kamatera/watcher.go:95-137 | the same in every state of every run, so a register racing the exit check starts or keeps a runner |
| WatcherTheorems.ChannelsAreSafe | internal/kamatera/watcher.go:272-280 | in every reachable state the next delivery sends only to empty open channels, pending waiters have such channels, and a received result is the one result that was sent |
| WatcherTheorems.OwnRemovalMeansReturned | internal/kamatera/watcher.go:110-112 | a waiter removed by its own cancel has returned with the ctx error |
| WatcherProgress.RunnerTerminates | internal/kamatera/watcher.go:122-138 | from any reachable state with a live runner and no new registrations it begins at most floor((latest deadline - start)/interval) + 2 ticks in all, whatever the API answers, or none after the first one whose snapshot is still to come |
| WatcherProgress.LateTickExits | internal/kamatera/watcher.go:126-133 | a tick that takes its snapshot after registrations ended and reads the clock after the latest deadline ends with nothing pending, and its exit check exits |
| WatcherProgress.NextFullTickServes | internal/kamatera/watcher.go:201-208 | in every run, with registrations and cancels going on, an overdue waiter is not pending any more when the live runner is through the first tick whose snapshot was still to come |
| WatcherProgress.OverdueIsGone | internal/kamatera/watcher.go:201-208 | a snapshot member overdue at the tick's clock reading is not pending after the tick, in every run |
| WatcherProgress.PendingCanBeServed | internal/kamatera/watcher.go:95-138 | from every reachable state a pending waiter is answered by a continuation in which only the live runner moves and time passes |
| WatcherRuns.RunKeeps | internal/kamatera/watcher.go:87-301 | table, channel, runner and deadline invariants hold in every state of every interleaving |
| WatcherRuns.StepKeeps | internal/kamatera/watcher.go:87-301 | each single step keeps those invariants |
| WatcherRuns.DeliveryOutcome | internal/kamatera/watcher.go:254-280 | a delivery gives each waiter of the tick's snapshot that still owns its entry its own one-waiter decision and touches nobody else, whatever ran since the snapshot |
| WatcherRuns.DeliveryLeavesSurvivors | internal/kamatera/watcher.go:201-208 | after a delivery no snapshot member that is still pending is overdue |
| WatcherTable.BatchRefinesDecide | internal/kamatera/watcher.go:199-280 | the batched tick refines the one-waiter decision: a waiter's outcome depends on its own deadline, id, enrich name and the answers, never on the other waiters |
| WatcherTable.DeliveryIsSafe | internal/kamatera/watcher.go:272-280 | no send of any batch, stale or repeated entries included, meets a full or closed channel |
| WatcherTable.DeliverAllKeeps | internal/kamatera/watcher.go:274-279 | delivery keeps the table invariant and removes exactly the named owners |
| WatcherTable.DeliverAllFrame | internal/kamatera/watcher.go:275 | a waiter that was cancelled, replaced or not named is left as it was |
| WatcherTable.DeliverTo | internal/kamatera/watcher.go:275-278 | a named owner is sent its result once, its channel closed, its entry removed |
| WatcherTick.ResolveMembers | internal/kamatera/watcher.go:201-233 | a completion is in the batch exactly when a snapshot position decides it |
| WatcherMeaning.DecideIsJustified | internal/kamatera/watcher.go:199-269 | a tick gives a waiter a result exactly when it is justified in plain terms: timeout only past the deadline, failure only for a last queue entry "error" or "cancelled", success only for "complete", with the last listed server of the name to enrich or the queue's server name, the missing-server error only when no listed server has the name |
| WatcherMeaning.StaysPending | internal/kamatera/watcher.go:199-245 | a waiter stays pending exactly when it is in time and the queue list failed, or does not show its command, or shows it last in any other status, or shows it complete while the server list it needs failed |
| WatcherMeaning.NeedsServerList | internal/kamatera/watcher.go:224-237 | the server list is needed exactly for a waiter completed in time with a name to enrich |
| WatcherMeaning.LastStatusIsLast | internal/kamatera/watcher.go:173-178 | the queue index finds an entry exactly when one has the id, and then the last |
| WatcherMeaning.TentativeIsJustified | internal/kamatera/watcher.go:199-234 | the first pass decides as if there were nothing to enrich |
| WatcherOutcomes.AnswersAreJustified | internal/kamatera/watcher.go:199-280 | over every interleaving, whatever is sent to a waiter is justified by the clock reading and the answers of the very tick that delivered it |
| WatcherOutcomes.ReceivedIsJustified | internal/kamatera/watcher.go:107-109 | so is whatever a caller received in a run from the start: no success without a "complete" at the end of that tick's queue answer |
| WatcherOutcomes.JustifiedIsDelivered | internal/kamatera/watcher.go:271-280 | a delivery gives each current owner of its snapshot what is justified for it, and leaves it pending exactly when nothing is |
| WatcherOutcomes.TickAsksWhenNeeded | internal/kamatera/watcher.go:236-238 | after the queue's answer a tick goes on to the server list exactly when some waiter of its snapshot needs it |
| Watcher.CmdWatcher.Register | internal/kamatera/watcher.go:87-105 | exactly empty and pending ids are rejected, without effect; otherwise the entry is added, the flag raised, and a runner asked for exactly when none ran |
| Watcher.CmdWatcher.Cancel | internal/kamatera/watcher.go:116-120 | deletes by id alone, whoever owns the entry |
| Watcher.CmdWatcher.Snapshot | internal/kamatera/watcher.go:147-155 | every pending waiter exactly once |
| Watcher.CmdWatcher.Deliver | internal/kamatera/watcher.go:271-280 | the table becomes the delivery of the batch; every send meets its channel's precondition |
| Watcher.CmdWatcher.ExpireDeadlines | internal/kamatera/watcher.go:287-301 | the table becomes the delivery of what is decided when the queue list failed |
| Watcher.CmdWatcher.ExitCheck | internal/kamatera/watcher.go:128-134 | the flag drops and the runner stops exactly when nothing is pending |
| Watcher.PendingCmd.SendAndClose | internal/kamatera/watcher.go:276-277 | fills the slot and closes; only for an empty, open channel |
| WatcherBatch.ResolveBatch | internal/kamatera/watcher.go:173-269 | index, first pass, filter and in-place enrichment together give the one-waiter decisions in snapshot order, and a completion is in the batch exactly when its waiter is in the snapshot and its result justified; the server list is asked for exactly when some waiter needs it |
| WatcherBatch.DecideWithoutServers | internal/kamatera/watcher.go:199-234 | the loop records exactly what is justified when there is nothing to enrich, and collects a name exactly when some waiter needs the server list |
| WatcherBatch.RetainCompletions | internal/kamatera/watcher.go:303-311 | filtering into the array being read gives the order-preserving filter of its original contents |
| WatcherBatch.ApplyEnrichment | internal/kamatera/watcher.go:255-269 | the in-place loop finishes each surviving completion on its own |
| WatcherBatch.IndexQueue | internal/kamatera/watcher.go:173-178 | the map holds the last entry of each id |
| WatcherBatch.IndexServers | internal/kamatera/watcher.go:247-250 | the map holds the last server of each name |
| WatcherBatch.EnrichedPassIsResolve | internal/kamatera/watcher.go:254-269 | first pass plus enrichment is deciding with the server list |
| WatcherBatch.DeferredPassIsResolve | internal/kamatera/watcher.go:239-245 | first pass plus dropping is deciding with a failed server list: only enrichments are deferred |
| WatcherBatch.UnaskedPassIsResolve | internal/kamatera/watcher.go:236-237 | when nobody asks, the server list's answer would change nothing |
| WatcherBatch.TickAnswered | internal/kamatera/watcher.go:173-280 | deciding outside the lock and delivering inside it changes the table by the batch |
| WatcherBatch.TickRest | internal/kamatera/watcher.go:157-280 | everything after the snapshot, for an empty snapshot, a failed queue list and an answered one |
| WatcherBatch.Tick | internal/kamatera/watcher.go:140-281 | an uninterrupted tick changes the table by the decisions of exactly the pending waiters |
| KamateraTypes.FirstNamedIsFirst | internal/kamatera/client.go:267-272 | the scan finds a server exactly when one has the name, and then the first |
| KamateraTypes.LastNamedIsLast | internal/kamatera/watcher.go:247-250 | the index finds a server exactly when one has the name, and then the last |
| KamateraTypes.IndexAgreesWithScan | internal/kamatera/client.go:267-272 | index and scan agree on presence for every list, and on the server exactly when the first and last of that name are the same |
| KamateraTypes.IndexDiffersOnDuplicates | internal/kamatera/watcher.go:247-250 | with two servers of one name the scan reports the first and the index the last |
| Tracker.RefinesHistory | internal/controller/pending.go:36-75 | for a monotone clock and any operations a name is tracked and unexpired exactly when its last successful Add was not followed by Remove and is at most ttl old |
| Tracker.AnswersFromHistory | internal/controller/pending.go:36-66 | what Add tests and Count counts is the in-flight set of the history |
| Tracker.CountsCoverInFlight | internal/controller/pending.go:55-66 | Count summed over all pools is the number of names in flight |
| Tracker.PendingTracker.Add | internal/controller/pending.go:36-45 | succeeds exactly for names not unexpired at the collection, and records the new entry |
| Tracker.PendingTracker.Remove | internal/controller/pending.go:48-52 | drops exactly that name |
| Tracker.PendingTracker.Count | internal/controller/pending.go:55-66 | the number of unexpired entries of the pool, after collecting |
| Tracker.PendingTracker.GcLocked | internal/controller/pending.go:68-75 | keeps exactly the entries not older than ttl |
| PoolMatch.PoolForPod | internal/controller/pool_match.go:43-58 | the first pool whose selector matches a non-empty nodeSelector, none exactly when there is no such pool |
| PoolMatch.PoolForNode | internal/controller/pool_match.go:62-68 | the configured pool of the node's label |
| PoolMatch.PoolByName | internal/config/config.go:199-206 | the first pool of that name, and none exactly when there is no such pool |
| PoolMatch.GroupPendingByPool | internal/controller/scale_up.go:140-153 | each pool's entry is the number of pods that starve for it, and pools without any have no entry |
| PoolMatch.CountNodesByPool | internal/controller/scale_up.go:155-163 | each pool's entry is its number of labelled nodes |
| PoolMatch.PodsAreConserved | internal/controller/scale_up.go:140-153 | the per-pool counts sum to the number of resource-starved pods with a matching pool |
| PoolMatch.StarvedPodsAreKnown | internal/controller/pool_match.go:12-37 | a pod is resource-starved exactly when it is Pending and one condition is PodScheduled, False, Unschedulable with a message around "Insufficient cpu", "Insufficient memory" or "Insufficient ephemeral-storage" |
| PoolMatch.WantsIsStarvesFor | internal/controller/pool_match.go:43-58 | it counts for a pool exactly when the first pool whose selector matches its non-empty nodeSelector has that name |
| PoolMatch.DemandIsStarvingPods | internal/controller/scale_up.go:140-153 | the demand for a pool is the number of such pods |
| PoolMatch.SizeIsLabelledNodes | internal/controller/scale_up.go:155-163 | the size of a pool is the number of nodes whose pool label has its name |
| ScaleUp.Controller.ScaleUp | internal/controller/scale_up.go:21-78 | a failed listing changes nothing; otherwise, whatever ends or expires meanwhile, each pool that starved pods ask for, and no other, is counted once, by the unexpired entries at that reading, and then exactly min(pending - inFlight, max - (current + inFlight)) names are generated for it, in any order of the pools |
| ScaleUp.Controller.ScaleUpTicks | internal/controller/controller.go:92-119 | one such tick after the other, each from the history the last one left |
| ScaleUp.Controller.ScaleUpPool | internal/controller/scale_up.go:42-75 | one count, with the unexpired entries of the pool at that moment as its answer, then as many names as the formula says for that answer, and nothing for any other pool |
| ScaleUp.Controller.CountPool | internal/controller/pending.go:55-66 | the count is one operation of the tracker's history, after whatever ended before it |
| ScaleUp.Controller.StartCreations | internal/controller/scale_up.go:68-75 | exactly that many names are generated, and a creation is started for each one that was reserved and for no other, whatever interferes; a collision loses its slot |
| ScaleUp.Controller.VisitPool | internal/controller/scale_up.go:37-76 | one turn of the pool loop, with its count; names without a configured pool are skipped |
| ScaleUpTheorems.TickIsBounded | internal/controller/scale_up.go:37-76 | with any completions, expiries and collisions, a tick starts at most what the formula gives for the count it read, at most max(0, max - (current + inFlight)), and nothing for a pool it does not visit |
| ScaleUpTheorems.VisitsStarvedPools | internal/controller/scale_up.go:26-41 | a tick visits exactly the pools that some listed pod starves for |
| ScaleUpTheorems.NoStarvedPodsNoTick | internal/controller/scale_up.go:26-41 | a listing without such a pod leaves nothing counted, no name generated and nothing started |
| ScaleUpTheorems.CountIsInFlight | internal/controller/pending.go:55-66 | the count a tick reads is the number of names in flight by the tracker's history |
| ScaleUpTheorems.UndisturbedTick | internal/controller/scale_up.go:37-76 | without completion, expiry and collision a tick reads the in-flight count f, starts exactly what the formula wants, and leaves max(f, min(pending, max - current)) in flight |
| ScaleUpTheorems.OrderDoesNotMatter | internal/controller/scale_up.go:37-76 | two undisturbed ticks on the same listings start the same number per pool and read the same counts, in whatever order they visit the pools |
| ScaleUpTheorems.QuietIsUndisturbed | internal/controller/scale_up.go:68-75 | new names, no completion, and a clock that moves over no expiry and by at most ttl make any stretch of ticks undisturbed |
| ScaleUpTheorems.CalmGrowth | internal/controller/pending.go:36-75 | in an undisturbed stretch each generated name is one more creation started and one more in flight |
| ScaleUpTheorems.TicksFollowFormula | internal/controller/scale_up.go:44-63 | through any undisturbed sequence of ticks, failed ones included, the in-flight count of a pool follows the formula tick by tick |
| ScaleUpTheorems.TicksReachMaximum | internal/controller/scale_up.go:52-63 | such a sequence leaves in flight the maximum of what was in flight before and all the ticks' min(pending, max - current) |
| ScaleUpTheorems.RepeatedTickIsIdle | internal/controller/scale_up.go:52-60 | an undisturbed tick with the listings of an earlier one starts no creation at all |
| ScaleUpTheorems.RepeatedDemandIsIdle | internal/controller/scale_up.go:52-60 | for one pool the same demand is enough |
| ScaleUpTheorems.LaunchedOnce | internal/controller/scale_up.go:68-74 | with a generator that never repeats, no two creations over any number of ticks share a node name |
| Fleet.NeverAboveMax | internal/controller/scale_up.go:31-81 | over every run without outside nodes in which each count reaches min(nodes, max_nodes), the nodes joined, tracked or booting never exceed max_nodes once within it, and never grow while above |
| Fleet.ListedOrTrackedCovers | internal/controller/scale_up.go:31-46 | a count reaches that far when every node is listed or tracked |
| Fleet.CountIsExact | internal/controller/scale_up.go:42-75 | a tick that has listed stays within the ceiling under every demand and in every continuation whose later counts reach far enough, if and only if its own count does |
| Fleet.CeilingIsExact | internal/controller/scale_up.go:42-75 | over whole runs: each count of a run reaches far enough if and only if no other demand at any of its counts could lead above max_nodes |
| FleetScaleUp.TickIsRun | internal/controller/scale_up.go:37-76 | a scale-up tick of the code, with whatever ended, expired, collided or joined in it, is a legal run of the fleet to an exactly known state |
| FleetScaleUp.TickKeepsTheCeiling | internal/controller/scale_up.go:37-76 | a tick of the code whose count reaches far enough leaves the nodes joined, tracked or booting within max_nodes if they were |
| Fleet.DroppedEntryOverruns | internal/controller/scale_up.go:81 | a run over the ceiling: the entry is dropped when provisioning ends, before the node is listed |
| Fleet.CeilingStep | internal/controller/scale_up.go:42-76 | each step keeps the ceiling and the budget of the tick in progress |
| Fleet.NeverBelowMin | internal/controller/scale_down.go:22-54 | over every run a pool at or above min_nodes falls below it by at most the nodes that left uncounted |
| Fleet.FloorStep | internal/controller/scale_down.go:29-53 | each step keeps the floor and the tick's counter below the real node count, failed deletes that took effect included |
| FleetTicks.TurnsAreSteps | internal/controller/scale_down.go:22-54 | a scale-down tick of the code, up to any turn, is a legal run of the fleet in which exactly the nodes of the successful deletes, and of the failed ones that took effect, have left, the latter as faults, and nothing else has changed |
| FleetTicks.TickKeepsTheFloor | internal/controller/scale_down.go:22-54 | whichever failed deletes took effect, the listed nodes less all those that were removed are at least min_nodes less the removed uncounted ones |
| FleetLife.LifeIsRun | internal/controller/controller.go:92-119 | any list of scale-up and scale-down ticks of the code, with joins, deaths and outside deletes in between, is one legal run of the fleet |
| FleetLife.LifeKeepsTheCeiling | internal/controller/scale_up.go:31-81 | over any such list whose counts reach far enough, the nodes joined, tracked or booting never exceed max_nodes once within it, and never grow while above |
| FleetLife.LifeKeepsTheFloor | internal/controller/scale_down.go:22-54 | over any such list a pool at or above min_nodes falls below it by at most the nodes that left uncounted |
| ScaleDown.ScaleDown | internal/controller/scale_down.go:17-56 | each node's turn is taken exactly when its pool's listed nodes less earlier successful deletes exceed min_nodes, and follows the turn protocol to a legal end |
| ScaleDown.VisitNode | internal/controller/scale_down.go:24-53 | the counter drops by one exactly for a successful delete |
| ScaleDown.TakeTurn | internal/controller/scale_down.go:32-53 | the turn follows the protocol whose stages the theorems tie to pods, ages and effects, and ends only as too young, busy, stopped by an error or the drain's deadline, or at the delete attempt |
| ScaleDown.TerminateAndDelete | internal/controller/scale_down.go:61-81 | an absent machine counts as terminated, a failed wait does not stop the delete, every other error does |
| ScaleDown.IsNodeIdle | internal/controller/scale_down.go:93-110 | one listing decides between the idle and the busy end of the turn's protocol |
| ScaleDown.IsNodeOldEnough | internal/controller/scale_down.go:83-89 | a node without creation time is old enough, another by its age at the clock reading |
| ScaleDownTheorems.FloorHolds | internal/controller/scale_down.go:22-54 | under arbitrary faults one tick deletes at most max(0, count - min_nodes) nodes of a pool |
| ScaleDownTheorems.TerminationBound | internal/controller/scale_down.go:44-80 | machines terminated for a pool are at most max(0, count - min_nodes) plus the failed node deletes |
| ScaleDownTheorems.TerminatesOnce | internal/controller/scale_down.go:61-80 | a turn terminates at most one machine, and then goes on to the delete |
| ScaleDownTheorems.EffectsInOrder | internal/controller/scale_down.go:44-80 | a terminate follows a lookup under that node's name, after a listing with nothing to evict, after the cordon; a node delete follows the machine's absence, or its termination and the wait for it, and no error |
| ScaleDownTheorems.CordonsOnlyIdle | internal/controller/scale_down.go:32-44 | a node is cordoned only right after a listing of it in which every pod is a DaemonSet's, a mirror, Succeeded or Failed, and, if it has a creation time, after a clock reading at least idleThreshold past it |
| ScaleDownTheorems.TurnsAwayOnlyBusy | internal/controller/scale_down.go:32-43 | a turn ends as too young exactly at a reading short of the threshold and as busy exactly at a listing with some other pod; after a listing without one the cordon follows |
| ScaleDownTheorems.TurnsAreTakenAboveFloor | internal/controller/scale_down.go:22-31 | a node has a turn exactly when its label names a configured pool whose labelled nodes, less those whose delete succeeded before in the tick, exceed min_nodes |
| ScaleDownTheorems.ErrorsEndTheTurn | internal/controller/scale_down.go:44-80 | after a failed cordon, listing, eviction, lookup or terminate, or a back-off cut short, nothing more happens to that node in the tick |
| ScaleDownTheorems.StopsForAReason | internal/controller/drain.go:18-55 | a turn is stopped by such an error, or by a clock past the deadline that the reading after the cordon set, and by nothing else |
| ScaleDownTheorems.EvictsOnlyListed | internal/controller/drain.go:27-48 | only pods that pass the filter of an earlier listing are evicted, and only finished ones if every listing passes the idle check |
| Drain.DrainNode | internal/controller/drain.go:18-55 | it follows the drain's protocol: drained exactly when a listing after the cordon holds nothing to evict, given up exactly when the protocol stops; the back-offs before the last pass fit the timeout |
| Drain.DrainPass | internal/controller/drain.go:27-53 | one pass lists once, evicts the whole filtered listing in order, and backs off 5s exactly when a budget refused an eviction; it fails only at a failed listing or eviction or a back-off cut short |
| Drain.EvictAll | internal/controller/drain.go:35-48 | evicts the filtered pods in order; a refused or missing pod does not stop the pass, another error does |
| Drain.DrainBudget | internal/controller/drain.go:22-62 | at most floor(timeout/2s) + 1 passes, floor(timeout/5s) + 1 if every back-off was a blocked one |
| Drain.FilterEvictable | internal/controller/drain.go:66-78 | the loop computes the filter |
| Drain.EvictableMembers | internal/controller/drain.go:66-78 | the filter keeps exactly the pods without a DaemonSet owner, mirror annotation or deletion timestamp |
| Drain.EvictableKeepsOrder | internal/controller/drain.go:66-78 | it keeps order and repetitions |
| Drain.IdleLeavesFinished | internal/controller/scale_down.go:93-110 | what the filter keeps of an idle listing is only Succeeded or Failed pods |
| Client.Do | internal/kamatera/client.go:293-346 | attempts stop at the first success or 4xx, or when used up, or at a cancelled back-off, and not otherwise; the answer is that outcome or the last error |
| Client.AttemptsStopByCode | internal/kamatera/client.go:293-340 | every attempt but the last met a transport failure or a code outside 400-499; with attempts left and no cancelled back-off the last met a success, a 4xx code, or could not be built |
| Client.WaitsAreGeometric | internal/kamatera/client.go:299-308 | the back-offs are base times powers of three if and only if the longest fits a 64-bit duration |
| Client.OneSecondWraps | internal/kamatera/client.go:299-308 | with the default base of one second the 22nd back-off has wrapped around and is negative |
| Client.RequestCost | internal/kamatera/client.go:300-308 | a attempts send a requests and wait base * (3^(a-1) - 1) / 2 in all |
| Client.NoAttemptIsNoError | internal/kamatera/client.go:294-345 | a retryable request is never sent, and so reports no error, exactly when the retry count is negative |
| Client.FindServerByName | internal/kamatera/client.go:259-273 | the empty name fails without a listing; otherwise one listing, its first match, its error, or not found |
| Client.RecoverByName | internal/kamatera/client.go:207-234 | the poll follows its protocol (grace, deadline from the clock, then lookup, clock check, pause) to its end, and lists the servers at most floor(recoveryMax/pollEvery) + 2 times, however listings answer and however slow they are |
| Client.GivesUpForAReason | internal/kamatera/client.go:207-234 | the poll stops at the first cancelled wait, listing that shows the server or is a 4xx error, or clock past start + recoveryMax, at nothing else, and that event is its answer |
| Client.ListingsThatEnd | internal/kamatera/client.go:213-228 | a listing that fails with a code from 400 to 499 is the last event and its error the answer; one that shows the name is the last and its first server the answer; after any other listing the poll goes on to read the clock |
| Client.PollPace | internal/kamatera/client.go:213-233 | after the deadline is set, each listing is followed by a clock reading, each reading in time by a pause of exactly pollEvery, each full pause by the next listing |
| Client.CreateServer | internal/kamatera/client.go:174-202 | the create request is attempted exactly once; an API answer is final; without one a whole recovery poll follows, and its result or the attempt's error is the answer |
| Client.RecoveryIsSound | internal/kamatera/client.go:187-202 | after the attempt no request is sent, and a server is reported recovered exactly when the API gave no answer and a later listing showed one of that very name |
| Client.RecoveryIsEntered | internal/kamatera/client.go:190-198 | the recovery poll runs if and only if the attempt failed in transport or could not be built |
| Client.UnbuildableIsRecovered | internal/kamatera/client.go:190-200 | a create that could not be built is reported recovered when a server of its name happens to exist, unlike the documented condition |
| CreateNode.CreateNode | internal/controller/scale_up.go:80-128 | the name is posted once if rendering and marshalling succeed, never otherwise, and no other name is; the tracker entry is held to the very end: dropping it is the last event, after an accepted create only when the watcher has answered, after a failed or recovered one at once |
| CreateNode.EachNamePostedOnce | internal/controller/scale_up.go:68-128 | over all creations of all ticks, with a generator that never repeats, each node name is posted at most once and no ungenerated name at all |
| CreateNode.TickPostsAreBounded | internal/controller/scale_up.go:44-128 | the create requests caused by one tick for a pool are at most max(0, max - (current + inFlight)) for the count it read, and none for a pool it does not visit |

## Left out

- HTTP, JSON decoding, error texts, redaction and logging: replaced by typed outcomes; `truncate` and the log text in a failed command's error are not kept.
- The console client's token cache and its one retry on 401: part of "the listing may fail".
- `TerminateServer` and `WaitTerminate` as client calls: a scale-down turn sees them as arbitrary answers; the first is `Client.Do` with retries and the second a watcher registration without an enrich name.
- The tickers of `Run` and the TryLock around scale-down: one goroutine drives both ticks, so they do not overlap.
- YAML loading, reserved keys, credentials, cloud-init rendering and `Validate` itself: only what `Validate` guarantees is assumed, and rendering may fail.
- Label selectors: any predicate on label maps. Random node names: any names; distinctness is a hypothesis where it is needed.
- WatcherBatch.Tick: is about a tick nothing interrupts, because a sequential method cannot be interleaved; interrupted ticks are runs of WatcherRuns.
- WatcherProgress.PendingCanBeServed: shows that serving stays possible, and NextFullTickServes that a full tick does it; that the runner gets to run is not modelled.
- Fleet.NeverAboveMax: is conditional on what each count reaches, because the code does not ensure it; Fleet.DroppedEntryOverruns is a run without it.
- FleetLife.LifeIsRun: a node that joins, dies or is deleted by others during a scale-down tick counts as doing so before or after it; joins during a scale-up tick are part of that tick.
- CreateNode.CreateNode: its effect on the tracker is stated for the goroutine alone; entries that other goroutines add or drop meanwhile are the interference of the scale-up tick.
- Waiter identities are acceptance numbers in the step system and object references in the class; `Watcher.CmdWatcher.Linked` ties the two.
