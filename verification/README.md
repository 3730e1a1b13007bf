# k8s-sched: a verified model

k8s-sched is a node-level CPU scheduler for Kubernetes. A BPF program orders runnable tasks by a
weighted virtual time, an agent writes per-pod weights and slice budgets into BPF maps, and policies
(custom resources with CEL conditions), annotations and QoS classes decide what is written. This
project models three state machines of that system and proves what they guarantee over whole runs.
`dafny verify dfyconfig.toml` checks everything.

**The scheduler.** `Machine` is a transition system with one label per callback or kernel event, for
any number of CPUs and tasks, in two arithmetics: `U64`, which is what the BPF code computes, and
`Exact`, its unbounded-integer reading. `Kernel.Scheduler` is the same code updating its fields in
place; each method is proved to be one label of the `U64` machine. The theorems are: the window every
virtual time stays in (`Window`, `Racy`), where tasks are and who runs (`Placement`), the u64 scheduler refining the exact one together with the
exact condition under which its comparisons go wrong (`Wrap`), proportional shares with an explicit
bound (`Share`), the one ordering assumption these need and exactly what happens without it (`Eager`),
when the time charged is the time used (`Usage`, `Charging`), bounded overtaking and freedom from starvation among a
fixed set of tasks (`Overtaking`), the exact condition under which newly created tasks do starve a waiting
one (`Newcomers`), granted slices (`Budget`) and the counters from callback to exported metric
(`Telemetry`).

**The CEL program cache.** `CelCache.Cache` is the cache used by one caller at a time; its map with
per-entry clocks is proved to be a recency list, and `Lru` proves what that list holds after any calls.
`SingleFlight` is the same cache under any number of concurrent callers, split at every lock, channel
and atomic operation: safety, progress, termination and the capacity bound over every interleaving.
`LatestUse` says exactly when its clocks still follow the latest use of each entry.

**The control plane.** `Annotations` and `Resolver` decide a pod's parameters, `Tracking` relates the
resolver's match counts to its history and `PolicyCache` its cached policies to theirs, `PodMaps.Maps`
writes and removes map entries (`MapEffects` says what that does when single operations fail), `Agreement` and
`Fallback` compose whole runs of those operations with the kernel's lookup, `StatusPatch` models the
merge patches many nodes send. `EndToEnd` joins the chain: what admitted policies can resolve to is
enough for the scheduler's starvation bound, and that bound and the share bound hold of the u64
scheduler.

## Contracts taken from the kernel and the libraries

- Inserting into the vtime queue stores slice and vtime on the task; the queue hands out some task that
  no queued task is before. The order inside a CPU's local queue is left open.
- The kernel may set the remaining slice of a running task to any u64, also above the slice given.
  After a stop it may put the task back into the local queue (`Stopping` with `keep`).
- CEL compilation is a deterministic partial function of the expression; matching a policy against a
  pod is an arbitrary predicate. Results of filesystem and `/proc` walks, failing map operations and
  failing patches are arguments.

## Where code and documentation differ

The model follows the code.

- README.md:103-105 gives charges ten times smaller than bpf/k8s_sched.bpf.c:289-290 computes
  (`Params.WorkedCharges`).
- README.md:251-252 says every task eventually runs. That holds for a fixed set of tasks
  (`Overtaking.NoStarvation`), but not when tasks keep being created (`Newcomers.NewcomersStarve`):
  a new task starts at the clock, and handing it out does not advance the clock.
- bpf/k8s_sched.bpf.c:285-286 says charging is on actual usage. A stop charges from the slice the
  parameters give then (`Charging.StopExactness`): a task stopped with part of its slice left and resumed
  pays again for what it used before (`Usage.ResumedPaysTwice`), one whose parameters change while it runs
  can pay more or less than it used (`Charging.RemovedPaysMore`, `Charging.LoweredPaysLess`), and one that
  the kernel refills pays for at most one slice (`Charging.RefilledPaysLess`).
- internal/sched/agent.go:511-515 and 548-552 say a node's policy map is replaced wholesale. Under the
  merge-patch rule it is merged, so counts of policies dropped later stay (`StatusPatch.LastCountStays`).
- README.md:213 says write-backs are counted when successful; attempts are counted
  (`StatusPatch.CountedExactness`). README.md:208 lists a `k8s_sched_defaults_total` metric, which is not
  among the three counters of the export loop (`Telemetry.PeriodicStatsExport`).
- The polling fallback at internal/policy/resolver.go:225-266 drops policies without dropping what is
  tracked under them, so a policy listed again can count pods that matched its predecessor
  (`Tracking.CachedExactness`, `Tracking.StaleCount`).
- api/v1alpha1/types.go:70-78 says budgets of 5000 microseconds and more have no effect. Above
  (2^64-1)/1000 the conversion to nanoseconds wraps, for policies and for annotations alike
  (`Tracking.PolicyBudgetExactness`, `Tracking.AnnotatedBudgetExactness`).
- internal/policy/resolver.go:296 says annotations always take precedence. A budget annotation that
  converts to 0 or does not parse leaves the decision to the policies (`Tracking.AnnotationLosesToPolicy`).
- A process entry of an earlier fallback can outlive the removal of its pod (`Fallback.RecordsExactness`,
  `Fallback.FallbackLeaks`).

## Model

| member | source | states |
|---|---|---|
| Params.Lookup | bpf/k8s_sched.bpf.c:143-170 | defaults are returned exactly when neither the process nor a determined cgroup has an entry |
| Params.ProcessEntryWins | bpf/k8s_sched.bpf.c:136-165 | a process entry wins whatever the cgroup map holds; without one the entry of a determined cgroup applies |
| Params.TaskSlice | bpf/k8s_sched.bpf.c:177-182 | the slice is positive, never above the default or a set budget, and shorter than the default only by being the budget |
| Params.UsedNs | bpf/k8s_sched.bpf.c:272-275 | the wrapping subtraction with its guard is the consumed part of the slice, or all of it when the kernel refilled above it |
| Params.ChargeBounds | bpf/k8s_sched.bpf.c:289-290 | for every weight the charge is 10000 times the time used over the weight, rounded down by less than one unit, weight 0 counting as 1; at most 5·10^10, so the u64 product never wraps |
| Params.ChargeAtLeastUsed | bpf/k8s_sched.bpf.c:277-290 | with weight up to 10000 every nanosecond used costs at least one unit |
| Params.ChargeMonotone | bpf/k8s_sched.bpf.c:289-290 | a longer run is never charged less |
| Params.WorkedCharges | README.md:103-105 | a full slice costs 5, 50 and 500 ms at weights 10000, 1000 and 100 |
| Params.DefaultTask | bpf/k8s_sched.bpf.c:167-182 | a task nothing was written for has weight 1000 and a 5 ms slice |
| Machine.QueueKey | bpf/k8s_sched.bpf.c:222-231 | in exact arithmetic the key is the maximum of the vtime and one default slice behind the clock |
| Machine.AdvancedClock | bpf/k8s_sched.bpf.c:255-263 | in exact arithmetic the clock becomes the maximum of itself and the running task's vtime |
| Kernel.Scheduler.constructor | bpf/k8s_sched.bpf.c:83-103 | the scheduler starts at clock 0 with zeroed counters and empty maps, the machine's initial state |
| Kernel.Scheduler.LookupTaskParams | bpf/k8s_sched.bpf.c:143-170 | the sequence of map probes finds what the lookup specification says, process entry first |
| Kernel.Scheduler.SelectCpu | bpf/k8s_sched.bpf.c:186-213 | an idle target is one direct-insert step of the u64 machine; a busy one changes nothing |
| Kernel.Scheduler.Enqueue | bpf/k8s_sched.bpf.c:215-243 | clamp, insertion and counters are one enqueue step of the u64 machine, all values staying u64 |
| Kernel.Scheduler.Dispatch | bpf/k8s_sched.bpf.c:245-253 | moving the queue's lowest task is one dispatch step; an empty queue changes nothing |
| Kernel.Scheduler.Running | bpf/k8s_sched.bpf.c:255-263 | the clock advance is one running step of the u64 machine |
| Kernel.Scheduler.Stopping | bpf/k8s_sched.bpf.c:265-291 | guard, product, division and addition in u64 are one stop of the u64 machine, with no overflow before the final addition |
| Kernel.Scheduler.Enable | bpf/k8s_sched.bpf.c:293-297 | a new task starts at the current clock |
| Placement.IdleLands | bpf/k8s_sched.bpf.c:186-213 | the idle shortcut makes the task ready on the CPU that was found, whichever CPU the callback ran on, with the slice of its parameters and its vtime unchanged; if nothing runs there it can start there |
| Placement.EnqueueLands | bpf/k8s_sched.bpf.c:215-231 | the task is queued with the slice of its parameters under the later of its vtime and 5 ms behind the clock |
| Placement.DispatchLands | bpf/k8s_sched.bpf.c:245-253 | a task no queued one is before becomes ready on the dispatching CPU with its slice and key unchanged, and can start there if nothing runs there |
| Placement.RunningLands | bpf/k8s_sched.bpf.c:255-263 | the task was ready on that CPU and nothing ran there; the clock becomes the later of itself and the task's vtime |
| Placement.StoppingLands | bpf/k8s_sched.bpf.c:265-291 | the task leaves the CPU, or stays ready on the same one, and its vtime grows by 10000 times the time used over the weight, rounded down |
| Placement.EnableStarts | bpf/k8s_sched.bpf.c:293-297 | a new task is inactive at the clock, under what its process and cgroup look up |
| Placement.StepFrame | bpf/k8s_sched.bpf.c:186-297 | a step leaves alone every other task, every other CPU's counters, the maps unless it writes them and the clock unless a task starts |
| Placement.OneRunner | bpf/k8s_sched.bpf.c:186-297 | in every reachable state at most one task runs on each CPU |
| Placement.PlacesExist | bpf/k8s_sched.bpf.c:186-297 | over every run tasks are only placed on CPUs that exist |
| Window.StepWindow | bpf/k8s_sched.bpf.c:186-297 | every step keeps the window and advances the clock by at most 5·10^10, never back |
| Window.GlobalWindow | bpf/k8s_sched.bpf.c:186-297 | in every reachable state every task is at most 5·10^10 ahead of the clock and a running one is not ahead at all; any CPUs, interleaving and parameter changes |
| Window.ClockMonotone | bpf/k8s_sched.bpf.c:255-263 | along every run the clock is at least what it was at any earlier moment |
| Wrap.StepRefines | bpf/k8s_sched.bpf.c:107-110 | with nothing 2^63 behind what it is next compared with, each u64 step is the exact step modulo 2^64 and the same labels are enabled |
| Wrap.RunRefines | bpf/k8s_sched.bpf.c:186-297 | whole u64 runs from boot, including the first underflowing clamp floor, are exact runs modulo 2^64; only falling behind is assumed away |
| Wrap.U64Window | bpf/k8s_sched.bpf.c:107-110 | to the u64 comparison a task less than 2^64 behind looks inside the 5·10^10 window if and only if it is less than 2^63 behind the window's end |
| Wrap.ClampExactness | bpf/k8s_sched.bpf.c:228-231 | the u64 clamp is right if and only if there is no backlog or the backlog modulo 2^64 is at most 2^63 |
| Wrap.AdvanceExactness | bpf/k8s_sched.bpf.c:261-262 | the u64 clock advance is right if and only if the task is not behind, or behind by less than 2^63 modulo 2^64 |
| Share.MoveRunIsRun | bpf/k8s_sched.bpf.c:245-263 | runs in which a dispatched task starts at once are runs of the machine |
| Share.TurnEffect | bpf/k8s_sched.bpf.c:245-263 | such a turn runs a task of minimal key and moves the clock up to that key |
| Share.QueueWindow | bpf/k8s_sched.bpf.c:228-263 | every queued key always lies within one default slice behind and 5·10^10 ahead of the clock, for any number of CPUs |
| Share.BandStep | bpf/k8s_sched.bpf.c:215-291 | a continuously runnable task stays in its band and the clamp never fires for it: only its own stops move it, by their charge |
| Share.ChargedAccounts | bpf/k8s_sched.bpf.c:265-291 | the virtual time a task was charged is its charged CPU time over its weight rounded down by at most one unit per stop |
| Share.BandRun | bpf/k8s_sched.bpf.c:215-291 | over any interval a runnable task's vtime grows by exactly its charges |
| Share.AlwaysCurrent | bpf/k8s_sched.bpf.c:228-263 | on one CPU the running task too is never more than one default slice behind the clock |
| Share.ProportionalShare | bpf/k8s_sched.bpf.c:277-290 | over any interval in which two tasks stay runnable, whichever runs when it begins, their charged CPU times over weights differ by at most two default slices, a full charge of each and one unit per stop |
| Share.ShareIsOfUse | bpf/k8s_sched.bpf.c:265-291 | in these runs, under fixed parameters and without refills, the CPU time charged is the CPU time used, up to what is open at the ends of the interval |
| Charging.ChargeAccount | bpf/k8s_sched.bpf.c:265-291 | over every run from every state, parameters and refills changing at any time, what was charged and is still open is the CPU time used plus the excess of each stop |
| Charging.StopExcess | bpf/k8s_sched.bpf.c:270-275 | the excess of one stop is how far the slice at the start and the refills since were below the slice the parameters give at the stop, or below that plus what is left when more than that is left |
| Charging.StopExactness | bpf/k8s_sched.bpf.c:270-290 | a stop charges the CPU time used since the start if and only if the slice at the start and the refills since add up to exactly that; more if and only if they add up to less, less if and only if to more |
| Charging.FreshReachable | bpf/k8s_sched.bpf.c:186-263 | a task that just started with its full slice is reachable from boot under any parameters |
| Charging.RemovedPaysMore | bpf/k8s_sched.bpf.c:270-290 | a task whose 1 ms budget is removed while it runs uses 1 ms and is charged 5 ms |
| Charging.LoweredPaysLess | bpf/k8s_sched.bpf.c:270-290 | a task given a 1 ms budget while it runs uses 3 ms and is charged 1 ms |
| Charging.RefilledPaysLess | bpf/k8s_sched.bpf.c:272-275 | a task refilled by the kernel, under parameters that never change, runs 25 ms and is charged 5 ms |
| Usage.SteadyAccount | bpf/k8s_sched.bpf.c:265-291 | under fixed parameters and without refills, the excess is what was missing from the full slice at each start |
| Usage.ChargedIsUsed | bpf/k8s_sched.bpf.c:285-291 | under fixed parameters and without refills, a task is charged its actual usage if and only if it never started with less than its full slice, and never less than it used |
| Usage.ResumedPaysTwice | bpf/k8s_sched.bpf.c:272-290 | a task put back with part of its slice left and resumed pays again for what it used before |
| Eager.EagerAlternation | bpf/k8s_sched.bpf.c:245-291 | if a CPU takes its next task before the previous one is queued again, two tasks get one full slice each per round whatever their weights |
| Eager.EagerExactness | bpf/k8s_sched.bpf.c:245-291 | in that order some bound on the drift of weighted CPU times holds for all rounds if and only if the slices are in the ratio of the weights |
| Eager.DuelReachable | bpf/k8s_sched.bpf.c:186-297 | such a pair of tasks is reachable from boot on one CPU with any two parameter records |
| Eager.EagerUnfair | bpf/k8s_sched.bpf.c:245-291 | weights 10000 and 1 with full slices reach such a pair and drift beyond every bound |
| Overtaking.StaysQueued | bpf/k8s_sched.bpf.c:215-253 | a queued task keeps its place and key until it is handed out or taken out |
| Overtaking.BoundedOvertaking | bpf/k8s_sched.bpf.c:228-291 | while a task waits at v, another one at w is handed out at most max(0, v-w+1) times; any CPUs, idle shortcuts, changing parameters, new tasks |
| Overtaking.TotalBound | bpf/k8s_sched.bpf.c:228-291 | the sum of remaining turns falls with every task handed out before the waiting one |
| Overtaking.NoStarvation | README.md:251-252 | among a fixed set of tasks, a waiting one is handed out once more dispatches happened than that sum |
| Overtaking.DispatchEnabled | bpf/k8s_sched.bpf.c:245-253 | while anyone is queued a dispatch step exists |
| Newcomers.Crowd | bpf/k8s_sched.bpf.c:293-297 | any number of tasks can be created, handed out, used up and gone with the clock and all other tasks as before, while one keeps waiting |
| Newcomers.NewcomersWait | bpf/k8s_sched.bpf.c:228-297 | once the clock has passed a waiting task's key nobody created later is handed out before it; once it has reached the key nobody created later is before it |
| Newcomers.NewcomersStarve | README.md:251-252 | new tasks can pass any waiting task without bound if and only if its key is not behind the clock, and with ties broken in its favour if and only if its key is after the clock; otherwise none ever passes it |
| Budget.GrantedSlice | bpf/k8s_sched.bpf.c:186-243 | in every run, exact or u64, a task handed out or placed on an idle CPU starts with the slice of the parameters it was last inserted under, never above that budget |
| Racy.RacyClock | bpf/k8s_sched.bpf.c:255-263 | with comparison and store of the clock update interleaved freely, clock and tasks stay bounded by the largest vtime that ever ran |
| Racy.TestThenStore | bpf/k8s_sched.bpf.c:255-263 | without interference the two halves are the atomic callback |
| Racy.ClockMovesBack | bpf/k8s_sched.bpf.c:257-260 | two CPUs comparing before either stores do move the clock back when the second value is smaller |
| Racy.RaceReachable | bpf/k8s_sched.bpf.c:257-260 | such a pair of CPUs is reachable from boot |
| Telemetry.ReadStats | internal/maps/maps.go:179-200 | the sum over CPUs in u64 arithmetic, the single record of an older object, or an error when the map is closed or unreadable |
| Telemetry.StatsConservation | bpf/k8s_sched.bpf.c:205-242 | over every run the summed counters are the event counts, exactly or modulo 2^64 |
| Telemetry.EventCounts | bpf/k8s_sched.bpf.c:205-242 | the counters count enqueues, idle insertions, those of either whose budget is set and below 5 ms, and enqueues of tasks neither map has an entry for |
| Telemetry.PeriodicStatsExport | internal/sched/agent.go:565-595 | the loop adds the rises between successive successful readings, each converted to floating point, for each of its three counters |
| Telemetry.FailedReadingSkipped | internal/sched/agent.go:576-580 | a failed reading is as if it had not been made, wherever it happens |
| Telemetry.AllReadingsCount | internal/sched/agent.go:576-593 | readings that succeed all count, in order |
| Telemetry.ConversionExact | internal/sched/agent.go:583-591 | the conversion loses nothing as long as no single rise exceeds 2^53 |
| Telemetry.ExportTelescopes | internal/sched/agent.go:573-593 | the exported total is the latest reading plus everything readings ever fell by |
| Telemetry.ExportIsLatest | internal/sched/agent.go:573-593 | the exported total equals the latest reading if and only if no reading fell |
| Telemetry.ExportCountsCallbacks | internal/sched/agent.go:573-593 | along any u64 run without counter overflow the exported totals are the numbers of enqueues, idle insertions and insertions with a budget below 5 ms at the latest reading |
| CelCache.EvictRound | internal/cel/cache.go:168-183 | one round of the eviction loop deletes the tail of the recency list, whichever oldest key the scan found |
| CelCache.HitMovesToFront | internal/cel/cache.go:73-80 | storing a fresh ticket on an entry is moving its key to the front |
| CelCache.InsertPushes | internal/cel/cache.go:117-121 | inserting under a fresh ticket is pushing onto the front |
| CelCache.Cache.constructor | internal/cel/cache.go:51-58 | a new cache is empty |
| CelCache.Cache.ScanOldest | internal/cel/cache.go:170-177 | the scan finds an entry of smallest clock in any iteration order, or nothing if no clock is below its start value 2^64-1 |
| CelCache.Cache.EvictIfNeeded | internal/cel/cache.go:168-183 | the loop ends below capacity or where the scan may report nothing, evicts nothing if no clock is below 2^64-1, and trims the recency list until the clock is about to wrap |
| CelCache.Cache.GetOrCompile | internal/cel/cache.go:71-124 | the caller always gets the program its expression compiles to, or its own expression with the cause it failed for; until the clock is about to wrap the recency list makes the LRU step: move to front, trim and push, or nothing on failure |
| CelCache.NewestExactness | internal/cel/cache.go:75 | a use makes its entry strictly the newest if and only if there is no other entry, or the clock does not wrap and no other entry carries a ticket above it from before an earlier wrap; at the wrap it becomes an oldest one |
| Lru.CacheIsMostRecent | internal/cel/cache.go:71-124 | after any calls the recency list is the most recently used compilable expressions up to max(1, capacity), if the empty expression does not compile |
| Lru.Replay | internal/cel/cache.go:71-124 | the cache itself, over any sequence of calls with other caches taking tickets of the shared clock in between, while there are tickets: its entries are described by that list, so they are the most recently used expressions within the size bound |
| Lru.EmptyKeyPins | internal/cel/cache.go:178-180 | a compilable empty expression at the tail stops all eviction |
| Lru.CapacityExactness | internal/cel/cache.go:168-183 | over all sequences of fewer than 2^64-1 calls the size bound holds if and only if the empty expression does not compile |
| Lru.LastTicketGrows | internal/cel/cache.go:170-180 | the scan's start value is a second stop marker: a cache of capacity 1 whose entry carries ticket 2^64-1 grows to 2 |
| Lru.LastTicketReached | internal/cel/cache.go:73-80 | 2^64-1 uses of one expression on a new cache get there |
| SingleFlight.StepInv | internal/cel/cache.go:71-124 | every atomic step of every caller keeps the protocol invariant |
| SingleFlight.SingleFlightSafety | internal/cel/cache.go:71-124 | in every reachable state: one leader per in-flight expression, every finished caller has the program its own expression compiles to or that expression with its cause of failure, only successes are cached, clocks distinct and issued, size within bound, nothing in flight once all are done |
| SingleFlight.Progress | internal/cel/cache.go:85-123 | while a call is unfinished somebody can step; a blocked waiter's leader can |
| SingleFlight.StuckIsFinished | internal/cel/cache.go:85-123 | a state without steps is one where every call returned and nothing is in flight |
| SingleFlight.WorkBound | internal/cel/cache.go:71-124 | callers take at most their remaining work in steps, so every call finishes |
| SingleFlight.FinishCaches | internal/cel/cache.go:101-123 | a finished successful compile leaves its expression cached as the most recently used one |
| SingleFlight.SoloCall | internal/cel/cache.go:71-124 | a caller running alone does to the entries what the sequential cache does |
| LatestUse.FollowsExactness | internal/cel/cache.go:73-80 | over every interleaving the latest ticket of an entry is on it or about to be stored at every moment if and only if no reader stores its ticket over the latest one |
| LatestUse.OrderedByUse | internal/cel/cache.go:73-80 | under that condition, with no reader under way, entries are ordered by their latest use |
| LatestUse.LastUsedIsOldest | internal/cel/cache.go:75 | three readers storing in the opposite order of their tickets leave the expression used last with the older clock |
| LatestUse.ThreeReadersReachable | internal/cel/cache.go:71-124 | such readers are reachable from an empty cache |
| PodMaps.Maps.WriteCgroupParams | internal/maps/maps.go:278-292 | exactly the keys whose put succeeds are written and returned in order, with the first failure reported |
| PodMaps.Maps.UpdatePodParams | internal/maps/maps.go:223-274 | cgroup entries if any cgroup resolved, else process entries; the record of that kind is replaced, the other kept |
| PodMaps.Maps.RemovePodParams | internal/maps/maps.go:296-334 | the pod's records go, and with them every recorded or resolvable key whose delete succeeds |
| MapEffects.WrittenAround | internal/maps/maps.go:278-292 | a failed put is skipped and what is written before and after it is kept, in order |
| MapEffects.UpdateEffect | internal/maps/maps.go:223-292 | key by key, for any failing puts: exactly the resolved keys whose put succeeds are set and recorded for a named pod, through cgroups if open and any resolved, else through processes; all else is kept |
| MapEffects.RemovalEffect | internal/maps/maps.go:296-334 | key by key, for any failing deletes: gone are exactly the recorded or resolvable keys whose delete succeeds, and the pod's records |
| MapEffects.SweepEffect | internal/maps/maps.go:339-368 | key by key, for any failing deletes: gone are exactly the keys that are not live and whose delete succeeds, nothing if no key is live |
| MapEffects.PidSweepEffect | internal/sched/agent.go:599-625 | the same for processes, without that exception |
| PodMaps.CollectStale | internal/maps/maps.go:352-360 | the iteration lists exactly the keys not to keep, in any order |
| PodMaps.Maps.CleanStaleCgroupIds | internal/maps/maps.go:339-368 | the map is restricted to live keys, unchanged on an empty live set, and the size difference is returned |
| PodMaps.Maps.CleanStalePids | internal/sched/agent.go:599-625 | the process map is restricted to running processes |
| Agreement.TrackedIsHistory | internal/maps/maps.go:204-215 | over every run a pod is tracked if and only if it has a name, was updated and was not removed since |
| Agreement.TrackedCount | internal/maps/maps.go:204-215 | the number of tracked pods is the number of such pods |
| Agreement.AgentKernelAgreement | internal/maps/maps.go:223-368 | after any sequence of updates, removals and sweeps every task in a live cgroup looks up its pod's latest update, or defaults, and no process entry exists |
| Agreement.RemovalFrame | internal/maps/maps.go:296-334 | a removal clears exactly the recorded and resolvable keys and changes no other lookup or record |
| Agreement.SweepFrame | internal/maps/maps.go:339-368 | a sweep keeps exactly the live entries and no task in a live cgroup notices |
| Fallback.RecordsExactness | internal/maps/maps.go:252-273 | throughout any run, process ids reused or not, every process entry is in the record of the pod that wrote it if and only if every fallback lists the processes whose entries its pod wrote and that are still there |
| Fallback.EntryIsLastFallback | internal/maps/maps.go:252-273 | a process entry holds what the latest fallback listing the process wrote |
| Fallback.LookupAfterUpdate | bpf/k8s_sched.bpf.c:152-165 | after any run whatever, a task in a just-written cgroup sees the new parameters, except a process that still has an entry, which sees what the latest fallback listing it wrote |
| Fallback.ConfinedStaleness | bpf/k8s_sched.bpf.c:152-165 | if fallbacks list what is still there, the processes that see something else are in the record of the pod that wrote their entry, and a removal of that pod clears them |
| Fallback.RemovalLeaves | internal/maps/maps.go:296-334 | after any run whatever, a removal leaves exactly the process entries that the pod's latest fallback did not list and that no longer resolve |
| Fallback.FallbackLeaks | internal/maps/maps.go:252-273 | two fallbacks and a removal that leave an entry behind |
| Annotations.ParseRoundTrip | internal/maps/maps.go:410-411 | parsing inverts writing, with any number of leading zeros, on every u64 and rejects every larger number |
| Annotations.ParseOnlyWritten | internal/maps/maps.go:410-411 | parsing accepts nothing else |
| Annotations.WeightPrecedence | internal/maps/maps.go:404-421 | a valid weight wins whatever the importance; a missing, malformed or out-of-range one leaves the importance times 100 if that is 1 to 100, and 0 otherwise; leading zeros included |
| Annotations.BudgetOfWritten | internal/maps/maps.go:425-435 | a written budget becomes its nanoseconds modulo 2^64, or not set when it exceeds a u64 |
| Annotations.BudgetUnset | internal/maps/maps.go:425-435 | a missing or malformed budget is not set |
| Annotations.AnnotationNames | internal/maps/maps.go:388-421 | the three annotations are read under the names users write, and no annotation sets nothing |
| Tracking.AnnotatedBudgetExactness | internal/policy/resolver.go:304-342 | whatever policies match, a pod gets the slice its budget annotation means if and only if: when it parses and does not convert to 0, it does not wrap to a small budget; otherwise the matching policies give no cap either |
| Tracking.AnnotationLosesToPolicy | internal/policy/resolver.go:295-336 | an annotation of 2^61 µs converts to 0, and a policy of 100 µs is applied instead |
| Annotations.BudgetWraps | internal/maps/maps.go:431 | a budget of 18446744073709552 microseconds gives a 384 ns slice |
| Resolver.ResolvedUnique | internal/policy/resolver.go:295-303 | the resolution order determines the parameters, so map iteration order cannot matter |
| Resolver.PolicyResolver.AddPolicy | internal/policy/resolver.go:178-191 | afterwards the version is cached under the name, as the new record unless that version was cached already, and no other name changes: an addition of the tracker |
| Resolver.PolicyResolver.RemovePolicy | internal/policy/resolver.go:194-201 | the policy and what is tracked under it go: a removal of the tracker |
| Resolver.PolicyResolver.RefreshPolicies | internal/policy/resolver.go:225-266 | a listing stores new versions, drops what is not listed and leaves tracking alone: a refresh of the tracker; a failed listing changes nothing |
| PolicyCache.CachedIsHistory | internal/policy/resolver.go:178-266 | over every run of additions, removals and refreshes a name is cached if and only if its last event was a record, and what is cached is the first record of the latest run of records of one version |
| PolicyCache.UpdateTakesEffect | internal/policy/resolver.go:182-186 | a record with a new version replaces the cached one |
| Resolver.PolicyResolver.GetMatchingPolicies | internal/policy/resolver.go:378-393 | exactly the matching policies are returned |
| Resolver.PolicyResolver.FoldPolicies | internal/policy/resolver.go:307-325 | the fold yields the largest weight and the largest converted budget that are set |
| Resolver.PolicyResolver.Resolve | internal/policy/resolver.go:304-342 | the result is annotation before largest policy value before QoS default, and tracking makes the tracker's resolution step with exactly the names matched |
| Tracking.AnnotationDecides | internal/policy/resolver.go:330-333 | a valid weight annotation decides, whatever policies match |
| Tracking.PolicyDecides | internal/policy/resolver.go:324-328 | without one the largest weight a matching policy sets decides, also below the QoS default |
| Tracking.QosDecides | internal/policy/resolver.go:281-292 | without either, best effort gets 200, burstable 800 and the others 1000 |
| Tracking.QosShares | README.md:236 | for the same CPU time best effort then pays four times the virtual time of burstable and five times that of guaranteed, up to rounding |
| Resolver.PolicyResolver.TrackMatchedPods | internal/policy/resolver.go:345-374 | afterwards the pod is under exactly the names it matched, names without policy or pods are gone, other pods are kept |
| Resolver.PolicyResolver.ActivePodCount | internal/policy/resolver.go:487-495 | the number of pods tracked under the name, 0 for an unknown one; exact below 2^31, wrapped to 32 bits above |
| Tracking.AlwaysNamed | internal/policy/resolver.go:345-374 | over every run no empty set is stored and no unnamed pod is tracked |
| Tracking.TrackingIsHistory | internal/policy/resolver.go:178-374 | over every run, refreshes and races with removals included, a pod is tracked under a policy if and only if its latest resolution matched it and since then the policy was not removed and nobody was resolved while it was not cached |
| Tracking.CountIsHistory | internal/policy/resolver.go:487-495 | the active count is the number of distinct non-empty pods of which that holds |
| Tracking.CachedExactness | internal/policy/resolver.go:225-374 | throughout a run tracked names are cached policies if and only if no resolution raced with a removal and every refresh lists all policies that are some pod's latest match |
| Tracking.StaleCount | internal/policy/resolver.go:225-266 | a policy dropped by polling and listed again still counts the pod it matched before, unless somebody was resolved in between |
| Tracking.RaceTracksRemoved | internal/policy/resolver.go:304-342 | a resolution that matched just before a removal leaves the pod tracked under a policy that is gone |
| Tracking.ResolverDischargesKernel | config/crd/bases/scheduling.fengrru.dev_schedulingpolicies.yaml:55-63 | whatever admitted policies resolve to, the kernel sees weight 1..10000, slice 1..5000000 ns and a charge between used and 10000 times used without overflow; the slice is at least 1000 ns if and only if the deciding budget did not wrap to less |
| Tracking.PolicyBudgetExactness | internal/policy/resolver.go:304-342 | the kernel gets the slice the largest matching budget means if and only if that budget is below 5000 µs, some conversion reaches the default slice, or all of them wrap to 0 |
| Tracking.PolicyBudgetWraps | internal/policy/resolver.go:304-342 | an admitted policy of 18446744073709552 µs gives a 384 ns slice |
| EndToEnd.ResolvableSane | internal/policy/resolver.go:304-342 | everything admitted policies can resolve to meets the kernel's assumption on weights |
| EndToEnd.BooksSane | internal/sched/agent.go:144-167 | after any agent operations both maps only hold such parameters |
| EndToEnd.PoliciesNeverStarve | README.md:251-252 | with maps written only by such operations, a queued task among a fixed set is handed out within its measure of dispatches |
| EndToEnd.PoliciesNeverStarveU64 | README.md:251-252 | the same for the u64 scheduler, with the measure read off its own state by signed differences |
| EndToEnd.ProportionalShareU64 | bpf/k8s_sched.bpf.c:277-290 | the share bound on charged CPU times for the u64 scheduler, as long as nothing falls 2^63 behind |
| StatusPatch.IndependentCommute | internal/sched/agent.go:553-561 | merge patches (section 2 of RFC 7396) that meet only in objects commute on every document |
| StatusPatch.PatchIdempotent | internal/sched/agent.go:536-544 | sending a merge patch again changes nothing |
| StatusPatch.InterleavingsAgree | internal/sched/agent.go:511-561 | any two interleavings of the same per-node write-back sequences leave the same document |
| StatusPatch.WriteBackFrame | internal/sched/agent.go:553-561 | one write-back sets the counts it names and touches no other node and no other count |
| StatusPatch.LastCountStays | internal/sched/agent.go:511-515 | every policy a node ever named holds its last written count, also after the node stopped naming it |
| StatusPatch.CountedExactness | internal/sched/agent.go:534-545 | attempts equal patched documents if and only if every document exists and no patch fails |
| StatusPatch.WritebackPolicyStatus | internal/sched/agent.go:516-546 | every cached policy's document gets the same patch of all counts, failures are skipped and other documents kept, and the counter grows by the number of attempts |

## Left out

- ProportionalShare: assumes that a CPU takes its next task only after the previous one was stopped and, if runnable, queued again; `EagerExactness` says exactly when shares stay bounded otherwise.
- EagerExactness: treats two tasks that use their full slices; more tasks or shorter runs in that order are not covered.
- NoStarvation: covers a fixed set of tasks each of whose stops costs something, because with task creation the property is false (`NewcomersStarve`).
- AgentKernelAgreement: assumes complete cgroup resolution, disjoint and never reused cgroup ids and successful map operations; failing operations are modelled in the methods of `PodMaps.Maps`.
- PoliciesNeverStarveU64: requires that no task is 2^63 away from the waiting one when the measure is read, because signed differences would misread it.
- SingleFlightSafety: the clock of the concurrent cache is unbounded; its wrap is modelled in `CelCache.Cache` only.
- PeriodicStatsExport: the conversion to floating point is an arbitrary function that is exact up to 2^53, and the metrics library is taken to add whole numbers exactly.
- TrackingIsHistory: deleting a pod is no resolver operation, so counts do not drop with it.
- UpdatePodParams: BPF map capacity is not modelled separately; a full map is a failing put.
- Callbacks of one agent are serial: concurrent updates of the same pod are not modelled.
- BPF loading, pinning, struct_ops attach and the hand-over between agents: foreign calls and timing.
- Filesystem and `/proc` walks and the process cache with its time limit: their results are arguments.
- Informers, HTTP and debug endpoints, events, metric registration: plumbing.
- CEL compilation and evaluation, label selectors: library code behind an abstract function and predicate.
- Kernel scheduling beyond the stated contracts: affinity, preemption by other classes, core scheduling, the watchdog, the order inside local queues.
- The queueing of readers behind waiting writers in Go's lock: any caller allowed by the lock may step.
- A missing per-CPU stats record in the BPF program: the lookup of key 0 always finds one.
