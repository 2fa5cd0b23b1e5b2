# Game Fleet Director: a verified model

Game Fleet Director keeps fleets of game servers on a cluster: it hands warm servers out to matches,
scales each fleet with its players, and drains servers before it deletes them. This project models
the stateful core of that program in Dafny and proves what its parts promise, call by call and over
whole runs. `dafny verify dfyconfig.toml` checks everything.

| file | what it models |
|---|---|
| `Common.dfy` | optional values, the clock unit, 32-bit arithmetic, the order on server names |
| `Scheduler.dfy` | the comparators, the in-place sort, `RankAndSelect`, `SelectForDrain` |
| `PoolModel.dfy` | one fleet's pool as a value, and the step each pool call takes on it |
| `PoolManager.dfy` | the pool manager itself: a two-level map of mutable state objects |
| `PoolHistories.dfy` | every history of pool calls: exclusivity, exhaustion, fairness, balance, other fleets |
| `RateLimiter.dfy` | the API's token bucket, with bounds over every window of every run |
| `Drainer.dfy` | the drain protocol of one server, and any number of passes over one record |
| `Scaler.dfy` | the scaling decision with its int32 arithmetic |
| `FleetModel.dfy` | one reconcile of a fleet as a step on values |
| `FleetReconciler.dfy` | the fleet controller with the maps it updates in place, proved to take that step |
| `FleetRuns.dfy` | every run of reconciles: ceiling, stability, breaker, cooldown, recovery, drain safety |
| `FleetRounds.dfy` | what one reconcile does, in pods, flags, stamps and clocks |
| `DrainRuns.dfy` | the drain protocol followed through runs of reconciles, and its deadline there |
| `Allocation.dfy` | the allocation controller and its rollbacks |
| `DirectorRuns.dfy` | fleet controller, allocation requests, other callers and restarts together, interleaved by whole calls |
| `WorkerRuns.dfy` | the steps inside the allocation controller's calls, interleaved with each other and with the label sync |
| `LostLabel.dfy` | a concrete run in which a slow reconcile and a lost label patch cost a match its server |

Every imperative component is a class whose methods change maps, objects and arrays as the program
does. Each method is proved equal, on an abstract value of the heap, to a function (`Step`, `Serve`,
`Advanced`, `Decide`, `Reconciled` and so on), and the theorems are about runs of those functions. The
order in which a Go map yields its entries is an arbitrary choice in the loops (`:|`); since the
contracts name functions of the abstract value only, no result depends on it. A `hide` at the head of a proof
keeps the bodies of functions it does not need out of it.

Time is an integer number of nanoseconds handed to each call. Everything the outside decides (pod
listings, metrics, creations, label patches, session answers, deletions, status writes) is a parameter
that may take any value. A reconcile has two clock readings, one up to the label sync and one after it.

## Where the code and its documentation part

The model follows the code. For each of these there is a lemma with a concrete input or the exact
condition under which the documented promise holds. (README.md here is the repository's own.)

- "Never kill a pod with active players" (README.md:802) holds only until the force deadline
  (`KillsWithoutZeroIff`, `ActivePlayersKilled`), and a drain recovered after a restart has no deadline of
  its own and is forced at its first due check (`RecoveredIsForcedAtOnce`).
- The drain timeout is documented as the longest wait (README.md:950); it is one exactly when a force time
  is set that is no longer than the timeout, or shorter than the polling interval (`TimeoutIsMaximumIff`). The
  defaults, ten minutes and half an hour, do not meet that. What the code takes the timeout for is the time
  before which an answer of zero sessions does not end a drain.
- A dry run is documented to skip deletions (README.md:1108); the drain pass still deletes. It cannot exactly
  when no existing pod has a record that is due for a check and past its deadline or its minimum drain time
  (`DryRunKeepsPodsIff`, `DryRunDeletes`).
- The rate limit is documented as requests per second (README.md:1162); twice as many pass within one
  second (`TwiceTheRateInOneSecond`), and never more (`AnyWindowBound`). The second that starts with a given call
  keeps to the rate exactly when that call finds the bucket empty and no whole token earned (`RateHoldsIff`).
- A selector is documented to constrain the eligible servers; one that matches no pod lets every server
  through (`SelectorHonouredIff`).
- The lowest-latency strategy (README.md:933) never sees a latency and picks by name
  (`LowestLatencyIsAlphabetical`).
- Consecutive reconcile failures are documented to open the breaker (README.md:1112); failures to fetch the
  fleet, to collect metrics and to write the status do not count (`ErrorCountsIff`), the last of these even resets
  the count (`StatusErrorResets`), and no number of them opens it (`UncountedErrorsNeverOpen`).
- An allocated server is documented to leave the buffer pool (README.md:923). A label sync between a request's grant
  and its label patch puts it back, and two requests can end up with one server (`SyncAfterGrantIff`,
  `SyncInTheGapIff`); so does a rollback that puts the label back after the server has been granted again
  (`LatePutBackIff`). With neither, none can (`NoDoubleBookingByStep`).
- The cooldown ends up to one second early (`CooldownIff`, `CooldownEndsEarly`).
- The target size is computed in int32 and wraps (`CeilIffNoWrap`, `WrapLosesThePlayers`).
- The label sync restarts the idle clocks a scale-down waits for (`SyncRestartsIdleClocks`), and undoes a
  cordon or a rollback whose label never arrived (`CordonSurvivesSyncIff`, `GrantableWhileDrainingIff`,
  `RollbackSurvivesSyncIff`). A cordon undone that way can end with the pod of an allocated request being deleted
  (`HeldServerIsDrained`, `AHeldServerIsDrained`).

## Model

| member | source | states |
|---|---|---|
| Common.NameLessIff | pkg/pool/scheduler.go:43 | names compare byte by byte: the first difference decides, and a proper prefix comes first |
| Scheduler.BeforeTransitive | pkg/pool/scheduler.go:39-44 | each strategy's comparator is transitive on all candidates |
| Scheduler.RankInFields | pkg/pool/scheduler.go:37-73 | each strategy compares player counts (downwards for bin packing) or latencies, and names on a tie |
| Scheduler.NotAfterTransitive | pkg/pool/scheduler.go:39-73 | "not after" is transitive too, so every comparator is the strict weak order that sort.Slice requires |
| Scheduler.SiftDown | pkg/pool/scheduler.go:39-44 | one insertion keeps the elements and extends the sorted prefix by one |
| Scheduler.SortSlice | pkg/pool/scheduler.go:85-90 | sorting in place permutes the array and leaves nothing before an element that should precede it |
| Scheduler.RankedUnique | pkg/pool/scheduler.go:38-73 | candidates with distinct names can be put in order in only one way |
| Scheduler.SortedIsRanked | pkg/pool/scheduler.go:38-75 | whatever order the candidates arrive in, sorting them yields the one sequence their set determines |
| Scheduler.RankAndSelect | pkg/pool/scheduler.go:22-76 | nothing is returned exactly when no candidate is free; otherwise a free one that no free one precedes |
| Scheduler.UnprecededIsLeast | pkg/pool/scheduler.go:75 | with distinct names the returned candidate is the unique least one |
| Scheduler.SelectForDrain | pkg/pool/scheduler.go:80-96 | the caller's slice is sorted by load in place and its first min(count, n) elements are returned |
| PoolModel.InfosSize | pkg/pool/pool.go:136-145 | building one candidate per server loses and merges none |
| PoolModel.CensusIsStats | pkg/pool/pool.go:224-236 | tallying the servers one by one in any order gives the sizes of the four sets |
| PoolManagement.SelectCandidate | pkg/pool/pool.go:102-121 | from any enumeration of the candidates the pick is the cursor's turn in name order, or the first in the strategy's order |
| PoolManagement.FilterPermitted | pkg/pool/pool.go:344-352 | exactly the permitted candidates stay, once each; an empty filter keeps all |
| PoolManagement.DrainOrder | pkg/pool/pool.go:265-270 | the names of the candidates, least used first, whatever order they were collected in |
| PoolManagement.CollectIdle | pkg/pool/pool.go:136-146 | one candidate for each healthy free server, whatever order the map is enumerated in |
| PoolManagement.CollectExpired | pkg/pool/pool.go:252-263 | one candidate for each healthy free server idle for longer than the timeout |
| PoolManagement.CountPool | pkg/pool/pool.go:223-237 | the counters are the sizes of the sets they name |
| PoolManagement.PoolManager.constructor | pkg/pool/pool.go:40-47 | a new manager knows no fleet |
| PoolManagement.PoolManager.UpdateFleetConfig | pkg/pool/pool.go:50-54 | changes one fleet's configuration, no server and no other fleet |
| PoolManagement.PoolManager.EnsureFleetLocked | pkg/pool/pool.go:58-62 | makes the fleet known and changes nothing else |
| PoolManagement.PoolManager.Register | pkg/pool/pool.go:65-78 | an unknown server becomes a healthy free one with no uses; a known one keeps its state |
| PoolManagement.PoolManager.Allocate | pkg/pool/pool.go:86-127 | grants a healthy free server and marks it used, or says why not; other fleets keep their servers, configuration and cursor |
| PoolManagement.PoolManager.CollectCandidatesLocked | pkg/pool/pool.go:131-147 | the candidates are exactly the idle servers of the fleet, none for an unknown fleet |
| PoolManagement.PoolManager.Release | pkg/pool/pool.go:150-160 | frees a tracked server and restarts its idle clock, and nothing else |
| PoolManagement.PoolManager.MarkAllocated | pkg/pool/pool.go:164-174 | marks a tracked server in use and counts a use |
| PoolManagement.PoolManager.MarkAvailable | pkg/pool/pool.go:177-187 | makes a tracked server healthy and free and restarts its idle clock |
| PoolManagement.PoolManager.MarkUnhealthy | pkg/pool/pool.go:190-198 | takes a tracked server's health and leaves the rest of its state |
| PoolManagement.PoolManager.Remove | pkg/pool/pool.go:201-207 | forgets one server of one fleet |
| PoolManagement.PoolManager.Stats | pkg/pool/pool.go:210-238 | counts the fleet's servers by their flags |
| PoolManagement.PoolManager.IdleServers | pkg/pool/pool.go:242-271 | lists the timed-out servers, least used first; nothing for an unknown fleet or without a timeout |
| PoolManagement.PoolManager.NeedsRefill | pkg/pool/pool.go:274-281 | true exactly when the refill count is positive |
| PoolManagement.PoolManager.RefillCount | pkg/pool/pool.go:284-295 | what the buffer is short of, never negative |
| PoolManagement.PoolManager.GrantLocked | pkg/pool/pool.go:353-379 | from any enumeration of the eligible servers: the same grant, the same new state |
| PoolManagement.PoolManager.AllocateWithFilter | pkg/pool/pool.go:334-380 | as Allocate, among the permitted servers only if the filter has entries |
| PoolHistories.ExclusiveGrants | pkg/pool/pool.go:86-127 | in any history of calls two grants of one server are separated by its release, its being made available or its removal |
| PoolHistories.NoGrantWhileUnhealthy | pkg/pool/pool.go:190-198 | after a registered server is marked unhealthy no grant of it occurs before it is made available or removed |
| PoolHistories.ServerIsHistory | pkg/pool/pool.go:65-207 | after any history of calls every field of every server is what the history says: tracked, in use, healthy, clock and uses by the last or the number of the calls that concern it |
| PoolHistories.FleetIsHistory | pkg/pool/pool.go:50-62 | a fleet is known once a call has made it so, and its configuration is the last one set |
| PoolHistories.GrantIsUniqueMinimum | pkg/pool/scheduler.go:22-76 | except for round-robin, a server is granted if and only if it comes before every other healthy, free and permitted one by the strategy's key, then name |
| PoolHistories.GrantIsPreferred | pkg/pool/pool.go:334-380 | a server is granted if and only if it is what the strategy asks for: fewest uses, most uses, first name, or the cursor's turn in name order |
| PoolHistories.EligibleIff | pkg/pool/pool.go:136-145 | a server may be granted if and only if it is tracked, healthy, free and let through; the two refusals in those terms |
| PoolHistories.GrantByUse | pkg/pool/scheduler.go:38-73 | fewest players grants n if and only if n has the fewest uses among the eligible, strict bin packing if and only if it has the most; ties go to the earlier name |
| PoolHistories.LowestLatencyIsAlphabetical | pkg/pool/pool.go:139-143 | the lowest-latency strategy grants n if and only if n is the alphabetically first eligible server |
| PoolHistories.IdleServersExact | pkg/pool/pool.go:240-271 | a sequence lists the timed-out servers exactly, by use and name, if and only if it is the one returned |
| PoolHistories.IdleServersIff | pkg/pool/pool.go:242-271 | a server is on the idle list if and only if a timeout is set and it is tracked, healthy, free and idle for longer |
| PoolHistories.StatsPartition | pkg/pool/pool.go:216-238 | healthy and unhealthy make the total; in use and available make the healthy |
| PoolHistories.StatsInFlags | pkg/pool/pool.go:216-238 | each counter in flags |
| PoolHistories.GrantsConsume | pkg/pool/pool.go:334-380 | a run of grants with one filter hands out distinct eligible servers and leaves exactly the others eligible |
| PoolHistories.Exhaustion | pkg/pool/pool.go:334-380 | with b eligible servers exactly the first b grants succeed, under any mix of strategies, with distinct names |
| PoolHistories.BufferIsEligible | pkg/pool/pool.go:224-231 | without a filter b is the available buffer that Stats reports |
| PoolHistories.RefillIsExact | pkg/pool/pool.go:274-295 | registering fresh servers ends the need for a refill if and only if there are at least RefillCount of them |
| PoolHistories.LineByName | pkg/pool/pool.go:104-106 | round-robin's order of the candidates depends on their names alone |
| PoolHistories.RoundRobinCycle | pkg/pool/pool.go:357-369 | while the candidates stay the same the m-th round-robin grant is the sorted candidate at (cursor + m) mod n, whatever is called in between |
| PoolHistories.RoundRobinIsFair | pkg/pool/pool.go:357-369 | any n consecutive round-robin grants hit each of the n candidates exactly once, from any cursor |
| PoolHistories.OneRound | pkg/pool/pool.go:118-126 | a least-used grant and its release add one use to a server with the fewest |
| PoolHistories.LeastUsedBalances | pkg/pool/pool.go:118-126 | over any number of grant-and-release rounds use counts never spread further than max(d, 1), and their sum grows by one a round |
| PoolHistories.Perform | pkg/pool/pool.go:23-29 | any one call changes its own fleet by its step and no other fleet |
| PoolHistories.Interleave | pkg/pool/pool.go:21-29 | after any interleaving of calls on many fleets each fleet's state and every reply are those of its own calls alone |
| RateLimiting.RateLimiter.constructor | pkg/api/middleware.go:48-58 | the bucket starts full; a rate that is not positive becomes 100 |
| RateLimiting.RateLimiter.Allow | pkg/api/middleware.go:60-80 | takes a token if there is one after the refill and keeps 0 <= tokens <= rate |
| RateLimiting.CallFacts | pkg/api/middleware.go:64-79 | one call never overfills the bucket, and the unspent time it leaves behind is worth less than one token |
| RateLimiting.CallExact | pkg/api/middleware.go:60-80 | one call in numbers: tokens and permit make min(rate, tokens + whole tokens earned), and the refill time moves exactly when one was earned |
| RateLimiting.BurstExact | pkg/api/middleware.go:60-80 | of n calls at one instant exactly min(n, rate, tokens + whole tokens earned) are allowed |
| RateLimiting.TokensAreEarned | pkg/api/middleware.go:60-80 | over any run, tokens left plus calls allowed never exceed what was there plus what time paid for |
| RateLimiting.WindowBound | pkg/api/middleware.go:60-80 | from any state a run of calls gets at most rate + ceil(rate * span) permits |
| RateLimiting.AnyWindowBound | pkg/api/middleware.go:60-80 | the same for the calls i..j of any longer run, although lastFill lags behind |
| RateLimiting.TwiceTheRateInOneSecond | pkg/api/middleware.go:60-80 | the bound is attained at every rate and any time: 2 * rate calls pass within one second |
| RateLimiting.RateHoldsIff | pkg/api/middleware.go:60-80 | every run that starts with a call at t and lasts at most a second gets at most rate permits if and only if at t the bucket is empty and less than one token has been earned since the last refill |
| RateLimiting.TruncationCostsLessThanHalf | pkg/api/middleware.go:65-73 | the time refills consume is worth less than twice the tokens they mint; uncapped, every minted token is still there or was handed out |
| RateLimiting.PacedCallsAlwaysPass | pkg/api/middleware.go:60-80 | calls one token's time apart are never refused |
| Draining.Drainer.constructor | pkg/drainer/drainer.go:44-51 | the three configured durations, in nanoseconds |
| Draining.Drainer.StartDrain | pkg/drainer/drainer.go:54-67 | a fresh record in the cordon phase whose deadline is one force time away |
| Draining.Drainer.Advance | pkg/drainer/drainer.go:71-121 | one step of the state machine in place, with its two results |
| Draining.Drainer.ShouldCheck | pkg/drainer/drainer.go:124-129 | due exactly when draining and one interval has passed since the last check |
| Draining.RecordHistory | pkg/drainer/drainer.go:71-121 | over any passes the phase never goes back, and entry time and deadline never change |
| Draining.RequestIff | pkg/drainer/drainer.go:83-108 | a visit asks for deletion if and only if an interval has passed since the last check and the deadline is over or nobody is left after the minimum time |
| Draining.FailsIff | pkg/drainer/drainer.go:84-96 | a failure is reported if and only if a query was made and failed; the record is then unchanged |
| Draining.FailedQueryIsRetried | pkg/drainer/drainer.go:92-99 | a failed query does not postpone the next check |
| Draining.FinishedOnce | pkg/drainer/drainer.go:113-120 | after its request a record finishes with one more step and then stays |
| Draining.RecordIsHistory | pkg/drainer/drainer.go:71-129 | up to its request a record is its history: checked at the cordon pass or the last answered check, with the count that found, and the request comes at the first pass that meets the condition |
| Draining.RequestedRecord | pkg/drainer/drainer.go:84-107 | a request past the deadline leaves the record forced, any other decommissioned |
| Draining.DeleteOnlyWhenSafe | pkg/drainer/drainer.go:83-108 | deletion is requested only after an answer of zero sessions and the minimum time, or after the force deadline |
| Draining.NoSecondRequest | pkg/controller/fleet_controller.go:404-428 | at most one request per record; after a failed deletion the record is never visited again |
| Draining.DeleteRequestedInTime | pkg/drainer/drainer.go:83-99 | with a force time, whatever the queries answer, deletion is requested within one interval and one pass gap of the deadline |
| Draining.KillsWithoutZeroIff | pkg/drainer/drainer.go:83-99 | a pass deletes without a zero answer if and only if a due check finds the record past its deadline |
| Draining.ActivePlayersKilled | pkg/drainer/drainer.go:85-89 | seven sessions, deleted after half an hour |
| Draining.TimeoutIsNoDeadline | pkg/drainer/drainer.go:83-108 | without a force time, and as long as no answer is zero, deletion is never requested |
| Draining.TimeoutIsMaximumIff | pkg/drainer/drainer.go:83-108 | every check later than the timeout requests deletion, whatever is answered, if and only if a force time is set that is at most the timeout or below the interval |
| Draining.RecoveredIsForcedAtOnce | pkg/controller/fleet_controller.go:235-243 | with a force time a recovered record requests deletion exactly when its first check is due, whatever the sessions |
| Scaling.SumAux | pkg/controller/scaler.go:75-94 | the loop adds up the truncated pressures of the entries with positive weight |
| Scaling.Evaluate | pkg/controller/scaler.go:39-160 | the decision on every input, each early return included |
| Scaling.CeilIsLeastCover | pkg/controller/scaler.go:60-65 | the ceiling division is the least server count that covers the players |
| Scaling.CeilIffNoWrap | pkg/controller/scaler.go:64 | the int32 expression is that ceiling if and only if players + target - 1 fits |
| Scaling.WrapLosesThePlayers | pkg/controller/scaler.go:64 | a full int32 of players is sized as an empty fleet |
| Scaling.WrapLosesTheBuffer | pkg/controller/scaler.go:72-103 | the largest buffer and one player are sized as the minimum, the same buffer without players as the maximum |
| Scaling.AuxIsExact | pkg/controller/scaler.go:74-94 | without overflow the accumulator holds the exact sum |
| Scaling.DesiredIsExact | pkg/controller/scaler.go:60-103 | without overflow the target is the clamp of the exact sum |
| Scaling.DesiredMonotone | pkg/controller/scaler.go:60-103 | more players, CPU or memory never ask for fewer servers, for any list of auxiliary metrics |
| Scaling.DesiredCoversPlayers | pkg/controller/scaler.go:60-103 | the target obeys the bounds, and unless the maximum cuts it, it covers all players with the buffer on top |
| Scaling.CPUEntryAdds | pkg/controller/scaler.go:81-86 | a CPU entry adds k if and only if 100k <= cpu * servers * weight < 100(k + 1), above seventy per cent and for a positive weight; otherwise nothing |
| Scaling.MemoryEntryAdds | pkg/controller/scaler.go:87-92 | a memory entry adds k if and only if 4096k <= MB * servers * weight < 4096(k + 1), for a positive weight; otherwise nothing |
| Scaling.TooSickIff | pkg/controller/scaler.go:112-129 | scaling up meets too few healthy nodes if and only if one more would still be within the required share |
| Scaling.DecisionIff | pkg/controller/scaler.go:46-160 | each decision if and only if: frozen when paused or short of healthy nodes, up below the target, down above it with warm servers to spare; and by exactly the difference |
| Scaling.DecisionInNumbers | pkg/controller/scaler.go:60-157 | the same in the policy's own numbers, without auxiliary metrics and health checks |
| FleetControl.FleetReconciler.RecordFailure | pkg/controller/fleet_controller.go:548-565 | one more failure; from the fifth on the breaker opens for five minutes; other fleets unaffected |
| FleetControl.FleetReconciler.ResetCircuit | pkg/controller/fleet_controller.go:567-572 | no failures and no opening for this fleet |
| FleetControl.FleetReconciler.IsCircuitOpen | pkg/controller/fleet_controller.go:574-591 | open through the stored instant; an expired opening is forgotten, its failures are not |
| FleetControl.FleetReconciler.CooldownLeft | pkg/controller/fleet_controller.go:593-622 | the rest of the window in whole seconds, none without a stamp or a window |
| FleetControl.FleetReconciler.RecordScaleUp | pkg/controller/fleet_controller.go:624-631 | stamps this fleet's scale-up |
| FleetControl.FleetReconciler.RecordScaleDown | pkg/controller/fleet_controller.go:633-640 | stamps this fleet's scale-down |
| FleetControl.FleetReconciler.SyncPoolFromLabels | pkg/controller/fleet_controller.go:201-253 | in whatever order pods are listed: every running pod's server gets the flags its label says, every running draining pod a record; nothing else changes |
| FleetControl.SyncServer | pkg/controller/fleet_controller.go:226-250 | the pool calls for one running pod |
| FleetControl.FleetReconciler.RecoverDrain | pkg/controller/fleet_controller.go:232-246 | a lost record is rebuilt without a deadline; an existing one is kept |
| FleetControl.CallsAreSync | pkg/controller/fleet_controller.go:226-250 | registering a server and marking it by its label is the state the label describes |
| FleetControl.FleetReconciler.CollectFleetMetrics | pkg/controller/fleet_controller.go:278-296 | the counters are the sizes of the sets of allocated, draining and warm pods |
| FleetControl.FleetReconciler.ExecuteScaleUp | pkg/controller/fleet_controller.go:315-335 | the pods created are the longest run of successful creations, each registered; it fails exactly when that is short of delta; only a full one is stamped |
| FleetControl.CreatePods | pkg/controller/fleet_controller.go:325-331 | the loop stops at the first failure and keeps what it made |
| FleetControl.FleetReconciler.ExecuteScaleDown | pkg/controller/fleet_controller.go:337-392 | cordons the first -delta idle servers at most, and stamps the round even if there are none |
| FleetControl.FleetReconciler.PickTargets | pkg/controller/fleet_controller.go:344-348 | the head of the idle list, at most -delta of it |
| FleetControl.FleetReconciler.CordonServers | pkg/controller/fleet_controller.go:365-388 | all targets, and only they, are labelled if the patch arrives, taken out of the pool and given a fresh record |
| FleetControl.FleetReconciler.VisitServer | pkg/controller/fleet_controller.go:404-439 | one record: gate, step, and on a successful deletion pod, pool entry and record all go |
| FleetControl.FleetReconciler.AdvanceDraining | pkg/controller/fleet_controller.go:396-440 | deleting entries from the map it walks, in any order, the pass treats every record exactly once |
| FleetControl.FleetReconciler.Plan | pkg/controller/fleet_controller.go:97-123 | the decision after the cooldowns |
| FleetControl.FleetReconciler.Execute | pkg/controller/fleet_controller.go:125-148 | each decision's effect, with the breaker told what the code tells it |
| FleetControl.FleetReconciler.Reconcile | pkg/controller/fleet_controller.go:60-155 | one reconcile is exactly one step of the model, with its outcome and whether it returns an error; pool, breaker and stamps of every other fleet are untouched |
| FleetRuns.CreationsGrow | pkg/controller/fleet_controller.go:325-331 | the pod count grows by the number of creations that succeed |
| FleetRuns.ReconcilePods | pkg/controller/fleet_controller.go:97-151 | a reconcile leaves at most max(pods before, target) pods |
| FleetRuns.ReplicaCeiling | pkg/controller/fleet_controller.go:97-151 | if nobody else adds pods, no run exceeds the largest maximum its policies set, with any metrics, failed creations and deletions |
| FleetRuns.NoOvershootNoFlapping | pkg/controller/fleet_controller.go:112-148 | a run with one target, starting at or below it and losing no pod, never exceeds it and never scales down; a complete scale-up reaches it, and from then on it holds |
| FleetRuns.BreakerStep | pkg/controller/fleet_controller.go:73-148 | a skipped reconcile changes nothing; any other moves failure count and opening as its outcome says |
| FleetRuns.BreakerIsHistory | pkg/controller/fleet_controller.go:548-591 | in every run the stored count is the failures since the last reset, and an opening implies at least five |
| FleetRuns.SkippedIff | pkg/controller/fleet_controller.go:73-76 | a reconcile is skipped if and only if the last attempt before it failed as at least the fifth failure and five minutes have not passed; it then changes nothing |
| FleetRuns.ErrorCountsIff | pkg/controller/fleet_controller.go:69-155 | a reconcile that returns an error counts as a failure if and only if the fleet was fetched and the policy is missing, or the metrics were collected and a creation failed |
| FleetRuns.StatusErrorResets | pkg/controller/fleet_controller.go:125-155 | a reconcile whose only error is the status update has reset the breaker, unless scaling was frozen |
| FleetRuns.UncountedErrorsNeverOpen | pkg/controller/fleet_controller.go:69-155 | in a run of nothing but errors of the other kinds the count stays zero and no reconcile is ever skipped |
| FleetRuns.ReopensAtOnce | pkg/controller/fleet_controller.go:557-561 | after an opening and before a reset, one more failure opens the breaker again |
| FleetRuns.FiveFreshFailures | pkg/controller/fleet_controller.go:567-572 | after a reset a reconcile is skipped only after five more failures |
| FleetRuns.CooldownIff | pkg/controller/fleet_controller.go:616-621 | the cooldown is over if and only if more than the window less one second has passed |
| FleetRuns.CooldownEndsEarly | pkg/controller/fleet_controller.go:619 | a one-minute window is over after fifty-nine and a half seconds |
| FleetRuns.CooldownStep | pkg/controller/fleet_controller.go:112-123 | a stamp moves exactly when a scale-up (or scale-down) completes outside a dry run, and then its cooldown was over |
| FleetRuns.CooldownSpacing | pkg/controller/fleet_controller.go:112-123 | in every run two recorded scale-ups, or two scale-downs, are more than the window less one second apart |
| FleetRuns.DrainsLeastUsed | pkg/controller/fleet_controller.go:344-366 | every drained server is healthy, free and timed out, and precedes every such server left alone |
| FleetRuns.ScaleDownRound | pkg/controller/fleet_controller.go:337-392 | at most current - desired drains start; each target is unhealthy, has a fresh record and keeps its pod, labelled if the patch arrived |
| FleetRuns.RoundKeepsServing | pkg/controller/fleet_controller.go:344-388 | a round leaves at least target - (drains already pending) pods serving, the servers it cordons not counted whether their label arrived or not; with none pending, at least the target |
| FleetRuns.DrainedIsUngrantable | pkg/controller/fleet_controller.go:381-382 | no history of pool calls grants a drained server unless it makes it available or removes it |
| FleetRuns.CordonSurvivesSyncIff | pkg/controller/fleet_controller.go:376-382 | the next label sync leaves a cordoned server out of the pool if and only if its label patch arrived |
| FleetRuns.SyncRestartsIdleClocks | pkg/controller/fleet_controller.go:247-249 | after a sync a server with a running pod is timed out if and only if it is warm and the reconcile itself took longer than the timeout |
| FleetRuns.QuickRoundsSpareRunning | pkg/controller/fleet_controller.go:344-366 | a reconcile no slower than the idle timeout, with its listing, cordons no server whose pod runs |
| FleetRuns.QuickRunsDrainNothing | pkg/controller/fleet_controller.go:60-151 | over any run of such reconciles a running, undrained pod is never cordoned, labelled or deleted by them, however far the fleet is above its target |
| FleetRuns.OneSyncRecovers | pkg/controller/fleet_controller.go:199-253 | from an empty pool one sync makes flags and drain records exactly what the labels say; a second changes neither |
| FleetRuns.EverySyncCountsAUse | pkg/controller/fleet_controller.go:228-229 | each sync adds one use to every allocated server |
| FleetRuns.RecoveredStatsMatch | pkg/controller/fleet_controller.go:278-296 | after recovery the pool's statistics equal the collected counts if and only if every pod is running |
| FleetRuns.RunDeletesSafely | pkg/controller/fleet_controller.go:396-440 | in every run a deletion is requested only after a zero answer and the minimum time, or past the record's own deadline, or for a recovered record |
| FleetRuns.DryRunKeepsPodsIff | pkg/controller/fleet_controller.go:125-151 | a completed dry run leaves the pods alone under all session answers and all outcomes of deletions if and only if no existing pod has a record due for its check and past its deadline or its minimum drain time |
| FleetRuns.DryRunDeletes | pkg/controller/fleet_controller.go:151 | a dry run that deletes a pod with five open sessions, from the record that two earlier passes leave |
| FleetRounds.PlannedIff | pkg/controller/fleet_controller.go:112-123 | a decided scale-up goes through if and only if its own window is over, and so a scale-down; neither looks at the other's |
| FleetRounds.ScalesIff | pkg/controller/fleet_controller.go:106-135 | over runs a reconcile scales up, or fails trying, if and only if it decides, the policy asks for it and the recorded scale-ups are far enough back; and scales down likewise |
| FleetRounds.EvaluatedByPods | pkg/controller/fleet_controller.go:278-296 | the decision is taken on the number of pods and of running warm pods, whatever the pool holds |
| FleetRounds.SnapshotInLabels | pkg/controller/fleet_controller.go:278-296 | each counter in labels |
| FleetRounds.SyncEffect | pkg/controller/fleet_controller.go:216-250 | what the sync does to each flag, clock and count of each server, for any pool it finds |
| FleetRounds.SyncedRecords | pkg/controller/fleet_controller.go:230-245 | the sync adds records without a deadline for running draining pods that have none, and changes no other |
| FleetRounds.PreparedIs | pkg/controller/fleet_controller.go:84-95 | configuration from the policy; pool and records synced if the listing succeeds, else as before |
| FleetRounds.MetricsFailureHasRecovered | pkg/controller/fleet_controller.go:84-101 | a reconcile whose metrics fail has still set the configuration and recovered pool and records |
| FleetRounds.PolicyFailureIs | pkg/controller/fleet_controller.go:78-82 | a missing policy touches the breaker alone |
| FleetRounds.CreationsExact | pkg/controller/fleet_controller.go:325-331 | the creations that succeed are the longest run of new names up to the limit |
| FleetRounds.ScaleUpRound | pkg/controller/fleet_controller.go:315-335 | complete or cut short: each created pod and its free healthy server are there, nothing else has changed, and only a complete round is stamped |
| FleetRounds.RoundTargetsExact | pkg/controller/fleet_controller.go:344-366 | a round takes exactly min(idle servers, surplus) servers off the head of the idle list, each once |
| FleetRounds.CordonSparesOthers | pkg/controller/fleet_controller.go:365-388 | the cordon changes no pod, server or record but its targets' |
| FleetRounds.PassEffect | pkg/controller/fleet_controller.go:404-439 | the pass removes pod, pool entry and record exactly when the record asks for it and the deletion succeeds, and changes no other pod or entry |
| DrainRuns.RecordStep | pkg/controller/fleet_controller.go:396-440 | a completed reconcile makes one pass over a record; any other leaves it |
| DrainRuns.RecordFollowsPasses | pkg/controller/fleet_controller.go:404-439 | through any run a record is what the passes of the completed reconciles make of it, until its pod is gone |
| DrainRuns.ReconcileKeepsApart | pkg/controller/fleet_controller.go:60-151 | a reconcile never makes a draining server grantable or takes its label away, whatever it decides |
| DrainRuns.DeadlineOverRuns | pkg/controller/fleet_controller.go:337-440 | a server cordoned at s, its pod labelled, is asked to go by s + force time + interval + gap, whatever its sessions answer, if completed reconciles are at most gap apart and nobody else revives it or reuses its name |
| AllocationControl.PatchPodLabel | pkg/controller/alloc_controller.go:188-195 | succeeds exactly when the patch reaches an existing pod, and then changes only its label |
| AllocationControl.AllocationReconciler.BuildFilter | pkg/controller/alloc_controller.go:72-88 | the listed names; empty without a selector or a listing |
| AllocationControl.AllocationReconciler.Reconcile | pkg/controller/alloc_controller.go:41-138 | one reconcile of a request on pool, labels and status, each error return included; other fleets untouched |
| AllocationControl.AllocationReconciler.Persist | pkg/controller/alloc_controller.go:103-132 | fetch, label, record; each failure undoes what came before |
| AllocationControl.AllocationReconciler.Allocate | pkg/controller/alloc_controller.go:148-172 | the REST allocation, with its two undo paths |
| AllocationControl.AllocationReconciler.Release | pkg/controller/alloc_controller.go:175-185 | frees the server even if the label cannot be changed |
| AllocationControl.GrantThenRelease | pkg/controller/alloc_controller.go:106-131 | a grant and its release leave all flags as they were, and one more use |
| AllocationControl.RollbackIsComplete | pkg/controller/alloc_controller.go:97-132 | a reconcile leaves flags changed if and only if the request becomes allocated; then only the granted server, permitted and free before, is in use |
| AllocationControl.FilterIff | pkg/controller/alloc_controller.go:72-88 | a request lets a server through if and only if it has no selector, its listing failed or found nothing, or the server was listed |
| AllocationControl.ServeIff | pkg/controller/alloc_controller.go:41-138 | a pending request fails if and only if its time is up and that was written; is allocated n if and only if in time, n is what its strategy and selector ask for and every step goes well; is retried if and only if nothing is available; else it is an error |
| AllocationControl.ServeLabels | pkg/controller/alloc_controller.go:103-132 | only the granted pod's label is touched, and what it ends as |
| AllocationControl.HandOutIff | pkg/controller/alloc_controller.go:148-172 | the REST call hands out n if and only if n is what its strategy asks for and every step goes well |
| AllocationControl.TakeBackIs | pkg/controller/alloc_controller.go:175-185 | the REST release frees the server in any case, and relabels the pod exactly when it was fetched and the patch arrived |
| AllocationControl.RollbackKeepsTheUse | pkg/controller/alloc_controller.go:106-131 | a grant that is rolled back still counts as a use of its server, and of no other |
| AllocationControl.RollbackSurvivesSyncIff | pkg/controller/alloc_controller.go:128-132 | after a failed allocation the next sync takes the free server out of the pool if and only if it was labelled and the label could not be put back |
| AllocationControl.ReleaseUndoesAllocate | pkg/controller/alloc_controller.go:148-185 | releasing what was handed out restores every flag, and the label exactly when the patch went through |
| AllocationControl.FailedAllocateRestores | pkg/controller/alloc_controller.go:155-165 | a failed REST allocation changes no flag and no label |
| AllocationControl.SelectorHonouredIff | pkg/controller/alloc_controller.go:72-97 | only selected servers are granted, whatever the pool, if and only if the selector listed some pod |
| AllocationControl.ServeKeeps | pkg/controller/alloc_controller.go:97-132 | a reconcile, failing or not, leaves a server that another request holds in use and labelled, grants it to nobody and removes no pod |
| AllocationControl.ServeTakes | pkg/controller/alloc_controller.go:97-132 | a request that becomes allocated has a server in use whose pod exists and is labelled allocated |
| DirectorRuns.ReconcileKeepsServer | pkg/controller/fleet_controller.go:60-151 | a fleet reconcile takes a held server from nobody, whether label patches arrive or not, and its pod only if the server has a drain record |
| DirectorRuns.ReconcileKeepsSeparation | pkg/controller/fleet_controller.go:60-151 | if every cordon is labelled, a fleet reconcile keeps draining servers ungrantable and their pods labelled |
| DirectorRuns.MoveKeepsSafe | pkg/controller/alloc_controller.go:41-138 | every step of fleet controller, requests, restarts or protective others keeps the joint invariant |
| DirectorRuns.NoDoubleBooking | pkg/controller/alloc_controller.go:41-138 | over every interleaving of whole calls (reconciles, requests, restarts, other callers), label patches failing or not, no two allocated requests hold the same server |
| DirectorRuns.NoMatchLosesItsPod | pkg/controller/fleet_controller.go:337-440 | if moreover the label patches of cordons arrive, every allocated request also keeps its pod over every interleaving of whole calls, and draining servers stay ungrantable |
| DirectorRuns.NoHeldServerIsDeleted | pkg/controller/fleet_controller.go:396-440 | after such a run of whole calls no fleet reconcile, its own patches arriving or not, asks for the pod of an allocated request to be deleted |
| DirectorRuns.GrantableWhileDrainingIff | pkg/controller/fleet_controller.go:376-386 | the condition on labels is exact: after the next sync a cordoned server is grantable, its drain still running, if and only if its label patch failed |
| DirectorRuns.HeldButDraining | pkg/controller/fleet_controller.go:404-428 | a held server that has a drain record is asked to go exactly when its record is, its allocation notwithstanding |
| DirectorRuns.HeldServerIsDrained | pkg/controller/fleet_controller.go:376-440 | cordon with a lost label, sync, grant: past the force deadline the held server's pod is asked to go, whatever its sessions |
| LostLabelRun.AHeldServerIsDrained | pkg/controller/fleet_controller.go:376-440 | a concrete such run from a safe office of two warm servers, with one reconcile slower than the idle timeout and its label patch lost: a match with five open sessions |
| DirectorRuns.Operate | cmd/controller/main.go:154-172 | any interleaving of whole calls made on the heap of the two controllers, which share one pool manager, ends in the state that Play computes, so every theorem about Play is about the running objects |
| DirectorRuns.StartAnew | pkg/controller/fleet_controller.go:199-200 | a restarted process starts from empty maps and the same cluster |
| DirectorRuns.AtMostOneGrant | pkg/controller/alloc_controller.go:41-138 | however often a request is reconciled, and whatever happens in between, one grant survives if it becomes allocated and none otherwise |
| WorkerRuns.UninterruptedIsServe | pkg/controller/alloc_controller.go:41-138 | the steps of a reconcile (grant, label, record, put back), with nothing in between, are the reconcile as one call |
| WorkerRuns.NoDoubleBookingByStep | pkg/controller/alloc_controller.go:41-143 | over every interleaving of the steps of any number of reconciles with each other, the label sync pod by pod, restarts and other callers, no two requests hold or are being given one server, if no sync and no late relabelling acts on a label from before the server was labelled allocated |
| WorkerRuns.FreshSyncIsCareful | pkg/controller/fleet_controller.go:216-250 | a sync that acts on the current label meets that condition for every claim that has reached its label |
| WorkerRuns.SyncFreesIff | pkg/controller/fleet_controller.go:226-250 | the sync frees a server in use if and only if the label it acts on is neither allocated nor draining |
| WorkerRuns.SyncAfterGrantIff | pkg/controller/alloc_controller.go:97-112 | the whole label sync between grant and label patch makes the granted server idle if and only if its running pod is warm or unlabelled |
| WorkerRuns.SyncInTheGapIff | pkg/controller/alloc_controller.go:97-128 | two requests for the last server, with one sync of it in that gap, both end up allocated to it if and only if the sync acts on a warm label |
| WorkerRuns.LatePutBackIff | pkg/controller/alloc_controller.go:128-131 | if the released server is granted again before the rollback puts its label back, the next sync makes the new owner's server available if and only if that patch arrives |

## Left out

- Kubernetes and HTTP I/O, the metrics scraper, the session tracker and the node health client: each call is
  an arbitrary answer of the environment.
- Notifier, metrics counters, logs and reason strings: output only.
- REST handlers, request decoding, `cmd/` wiring, the API server's own copy of the label sync, CRD types: they would only
  add easy members.
- `pkg/pool/warmer.go`, `pkg/health/node_filter.go` and `FilterNodesByHealth`: retry and filter loops; the scaler
  takes the two node counts they yield.
- The API server process: it runs the REST calls on a pool manager of its own, rebuilt from labels; the two
  processes' pools are not modelled together, and nothing here says that their grants exclude each other.
- Regions and measured latencies: no code reads them.
- Concurrency inside a fleet reconcile: each pool method is one atomic step, as its mutex makes it, and each step of an
  allocation is taken by itself in WorkerRuns; but a fleet reconcile is one step (in WorkerRuns: one step per pod synced),
  although five fleet workers run beside ten allocation workers.
- `sort.Slice` itself: an in-place insertion sort stands for it; the contract used is the library's.
- The order of two pods in one listing, and stale caches: the pods a reconcile lists are the pods there are.
- Pods that are terminating: a successful delete removes the pod at once.
- Template labels that override the phase label of a new pod, and pods of other fleets with the same name.
- A status write, label patch, creation or deletion that reports an error but was stored: such a label patch, too, would leave
  "allocated" on a free server.
- FleetControl.FleetReconciler.AdvanceDraining: drain records are kept by server name for all fleets together, and
  the pass deletes pods in the namespace of the fleet being reconciled; the cluster here holds one fleet's pods, so
  what a pass does to another fleet's pods is not captured.
- FleetControl.FleetReconciler.Reconcile: the clock is read twice per reconcile, not before each step.
- DrainRuns.DeadlineOverRuns: speaks of requests to delete, not of pods gone, since a failed delete is never retried.
- Scaling.Evaluate: float64 products are exact reals followed by truncation; a product outside int32 converts to whatever the
  platform gives.
- Scaling.SumAux: each product is an exact real before it is truncated.
- RateLimiting.RateLimiter.Allow: elapsed seconds times rate is exact, without float64 rounding.
- PoolManagement.PoolManager.MarkAllocated: the int32 use counter does not wrap.
- PoolManagement.PoolManager.Stats: the int32 counters do not wrap.
- FleetControl.FleetReconciler.CollectFleetMetrics: the int32 pod counters do not wrap, and aggregation of scraped metrics is an
  input.
- FleetRounds.RoundTargetsExact: for a surplus of pods that fits an int32.
- Scaling.DecisionIff: for sums that fit an int32 and a health share between zero and one.
- DirectorRuns.Operate: the interleaving is of whole calls.
- DirectorRuns.NoHeldServerIsDeleted: as NoMatchLosesItsPod, of whole calls.
- WorkerRuns.NoDoubleBookingByStep: others are assumed not to free or relabel a claimed server nor to register its name anew.
- DirectorRuns.NoDoubleBooking: the interleaving is of whole calls; others are assumed not to release or relabel a server that a request holds, nor to give its
  name to a new server.
- DirectorRuns.NoMatchLosesItsPod: the interleaving is of whole calls; a scale-down's label patches are assumed to arrive (HeldServerIsDrained is the run in which
  one does not), and others not to delete held pods nor to revive, relabel or rename draining servers.
