# scx_cohort: a verified model of the policy logic and its protocols

scx_cohort is a CCD-affine Linux scheduler: a BPF fast path places tasks, and a
userspace daemon groups them into cohorts, balances cohorts over LLCs, spills
oversized ones and discovers relationships from sampled wakeups. This project
models six parts of it in Dafny and proves what they guarantee over every input,
every run and every interleaving.

| part | files |
|---|---|
| wake graph | `Connectivity`, `EdgeRates`, `MergePlanning`, `SplitPlanning`, `Cuts`, `WakeGraph` |
| daemon tick over the shared maps | `DaemonMaps`, `GarbageCollection`, `SpillSync`, `Scheduler`, `Tallies`, `IntegrityRuns` |
| balancer and spill planner | `Balancer`, `ClosedLoop`, `Spill`, `SpillRuns` |
| BPF fast path | `FastPath`, `LoadLedger`, `StealGate` |
| futex ping-pong benchmark | `PingPong`, `PingPongSinks`, `PingPongLoops` |
| Mann-Whitney test | `MannWhitney` |

`Domain` holds the snapshot types, `Collections` a stable sort and totals over maps, `Modular`
64-bit wrap-around.

How to read it:

- Code that updates objects in place is a class (`WakeGraph`, `Balancer`, `Scheduler`,
  `Bpf`, `Llcs`) whose methods are proved against functions or relations on values.
  The properties over runs are lemmas about those functions and relations.
- Functions that the methods compute are tied down by lemmas named `...Means`, which say in plain
  arithmetic, counts or cuts what the result is, without naming the function's own ingredients.
- Every loop over a hash map picks its next key arbitrarily, so each contract holds for
  every iteration order. Where the outcome depends on the order (`Merges`, `Splits`) the
  specification is a relation that all outcomes satisfy.
- Concurrency is modelled as atomic steps: the futex protocol at the level of single line
  accesses, loads, stores and futex calls; the BPF side as one step per callback; the
  daemon as one step per map operation or per tick.
- Wake rates are reals. Identifiers, times, loads and counters are unbounded naturals,
  except where wrap-around is the point: futex words, payload stamps and sums, and
  virtual time wrap explicitly.

## Where the code and its documentation differ

The model follows the code.

- `plan_spills` says it grows the set until the remaining home demand fits under the high
  mark. Its excess ignores what is already spilled, so under sustained overload the set grows
  every tick until no cold member is left (`SpillRuns.OverloadSaturates`; a two-tick run that
  spills on although the rest fits is `SpillRuns.SpillsPastFit`).
- A merge is documented to need consecutive over-threshold ticks. A tick in which an endpoint
  has no cohort neither counts nor resets (`MergePlanning.MergeNeedsConfirmation` and
  `ConfirmationMerges` say what is needed; `MergePlanning.MergeAcrossGap` is a run with a gap).
- `merges` says at most one merge per (into, from) pair. It plans at most one per cohort
  (`MergePlanning.MaximalMatching`).
- `assign_cohort` hands down the parent's cached cohort id. After a merge that id may be gone,
  and then the new tgid maps to a cohort without entries: a run from boot is
  `IntegrityRuns.StaleParentBreaksIntegrity`. Integrity holds throughout a run if and only if no
  fork hands down a cohort that has lost its entries (`IntegrityRuns.RunsKeepIntegrityWhen`). A
  spilled parent's cache is not refreshed at all.
- The steal gate is described by how long the head has waited. The timestamp is restarted by
  every consumption (`StealGate.HeadMeaning`), so a task that has waited past the delay can face a
  closed gate: a run is `StealGate.LongWaiterBehindClosedGate`. It does if and only if the queue is
  not deep and something was consumed from it within the last delay
  (`StealGate.WaiterBlockedExactlyWhen`). The other direction always holds: every steal is
  justified (`StealGate.StealsAreJustified`).
- `apply_spills` relies on its own record of the map. A pid that exits and comes back before the
  next tick breaks that: a run is `SpillSync.PidReuseBreaksSync`. A tick leaves the map as desired
  if and only if no entry it takes for written belongs to a pid that exited since
  (`SpillSync.RunsAgree`).
- A task's home time per tick is described as a subset of its duty. A re-created statistics
  entry can break that: a run is `LoadLedger.RecreatedEntryBreaksDuty`. It holds if and only if the
  home sum did not grow or the away sum did not shrink (`LoadLedger.HomeWithinDutyExactlyWhen`).

## Model

| member | source | states |
|---|---|---|
| `Connectivity.Find` | scx_cohort/src/wake_graph.rs:200-208 | terminates, returns the root, compresses the path, and changes no node's root |
| `Connectivity.RootsUnique` | scx_cohort/src/wake_graph.rs:199-208 | the parent map alone decides every root |
| `Connectivity.CompressKeepsForest` | scx_cohort/src/wake_graph.rs:205-207 | pointing a node at its root keeps the forest and every root |
| `Connectivity.LinkKeepsForest` | scx_cohort/src/wake_graph.rs:214-217 | linking one root under another keeps the structure an acyclic forest |
| `Connectivity.UniteEdge` | scx_cohort/src/wake_graph.rs:213-218 | joins exactly the two endpoint classes, never separates anyone, and stays sound for reachability |
| `Connectivity.RootsMeanJoined` | scx_cohort/src/wake_graph.rs:209-219 | two members share a root if and only if a path of live edges between members joins them |
| `Connectivity.Unite` | scx_cohort/src/wake_graph.rs:199-219 | for every edge set and iteration order, the union pass ends with roots that are exactly the classes of reachability |
| `Connectivity.Components` | scx_cohort/src/wake_graph.rs:221-225 | the groups are exactly the connected components, each once, in member order |
| `EdgeRates.EKey` | scx_cohort/src/wake_graph.rs:22-28 | the key is sorted and names the same two tgids |
| `EdgeRates.ObservedOrderFree` | scx_cohort/src/wake_graph.rs:112-115 | the result of an observation depends neither on the order of the deltas nor on the direction of any |
| `EdgeRates.DirectionFree` | scx_cohort/src/wake_graph.rs:112-115 | reversing one delta contributes the same |
| `EdgeRates.ObservedEdge` | scx_cohort/src/wake_graph.rs:117-134 | seen from one edge, a call blends its rate and drops it to zero below the floor, tracked before or not |
| `EdgeRates.ObservedMeans` | scx_cohort/src/wake_graph.rs:105-134 | on rates alone: over a tick a rate covers the share dt/(dt + tau) of its distance to the compensated wakeups per second, never overshooting; below a tenth of the split rate, and only there, the edge is dropped; its counter carries over |
| `EdgeRates.AlphaMeans` | scx_cohort/src/wake_graph.rs:109 | the new and the old rate are weighted as the tick length to the time constant |
| `EdgeRates.IdealMeans` | scx_cohort/src/wake_graph.rs:105-135 | the unpruned average obeys the same law without the floor |
| `EdgeRates.PrunedTracksIdeal` | scx_cohort/src/wake_graph.rs:105-135 | over any run, a tracked rate never exceeds the unpruned EWMA and falls short by at most floor/alpha for the smallest alpha used |
| `EdgeRates.PrunedTracksIdealFixedTick` | scx_cohort/src/wake_graph.rs:105-135 | with one tick length dt the shortfall is at most a tenth of the split rate times (dt + tau)/dt |
| `WakeGraph.WakeGraph.Observe` | scx_cohort/src/wake_graph.rs:105-135 | in any iteration order, the loops compute exactly the specified edge map |
| `WakeGraph.WakeGraph.TickTraffic` | scx_cohort/src/wake_graph.rs:112-115 | accumulates exactly each undirected edge's compensated traffic |
| `WakeGraph.WakeGraph.DecayKnown` | scx_cohort/src/wake_graph.rs:117-121 | every known edge is blended once with this tick's rate |
| `WakeGraph.WakeGraph.InsertNew` | scx_cohort/src/wake_graph.rs:122-131 | first-seen edges are added at their starting rate, known ones are left alone |
| `WakeGraph.WakeGraph.PruneNoise` | scx_cohort/src/wake_graph.rs:133-134 | exactly the edges below a tenth of the split rate are dropped |
| `WakeGraph.WakeGraph.Merges` | scx_cohort/src/wake_graph.rs:140-179 | for every iteration order the plans form a maximal matching of confirmed cross-cohort edges and the counters advance as specified |
| `MergePlanning.MaximalMatching` | scx_cohort/src/wake_graph.rs:164-176 | no cohort is in two plans, the absorber is at least as large, both cohorts are mapped, and every confirmed edge touches a planned cohort |
| `MergePlanning.PlanMeans` | scx_cohort/src/wake_graph.rs:148-176 | each plan in plain terms: two mapped different cohorts, both rates at the threshold, confirmed often enough; the one with more tasks absorbs, the lower tgid's wins a tie |
| `MergePlanning.CounterMeans` | scx_cohort/src/wake_graph.rs:148-163 | each counter in plain terms: frozen while unmapped, one more when hot, zero otherwise or after a plan; rates and keys stay |
| `MergePlanning.CoverageMeans` | scx_cohort/src/wake_graph.rs:160-176 | an edge that has earned its merge has one of its cohorts in a plan |
| `MergePlanning.MergeNeedsConfirmation` | scx_cohort/src/wake_graph.rs:148-177 | an edge triggers a merge only at the end of a stretch whose every mapped call was hot, at least the required number of them, with no trigger or loss of the edge inside |
| `MergePlanning.ConfirmationMerges` | scx_cohort/src/wake_graph.rs:160-176 | conversely, that much evidence makes this call plan a merge touching one of the edge's cohorts |
| `MergePlanning.CounterHasEvidence` | scx_cohort/src/wake_graph.rs:149-163 | the confirmation counter is exactly the number of hot calls in such a stretch |
| `MergePlanning.EvidenceCounted` | scx_cohort/src/wake_graph.rs:149-163 | no stretch of evidence outruns the counter |
| `MergePlanning.MergeAcrossGap` | scx_cohort/src/wake_graph.rs:148-163 | a run that merges after two hot calls with an unmapped one between them |
| `WakeGraph.WakeGraph.Splits` | scx_cohort/src/wake_graph.rs:184-255 | for every iteration order each cohort's streak and plans are as specified, and streaks of vanished cohorts are dropped |
| `WakeGraph.WakeGraph.SplitCohort` | scx_cohort/src/wake_graph.rs:192-252 | one cohort: reset when connected, count when disconnected, split and reset when confirmed; others untouched |
| `WakeGraph.WakeGraph.OffPlans` | scx_cohort/src/wake_graph.rs:238-251 | the plans are exactly the components other than one heaviest that reach the task floor |
| `SplitPlanning.SplitSound` | scx_cohort/src/wake_graph.rs:221-251 | a split-off set is one whole component, disjoint from the kept one, and no live edge between members is cut |
| `SplitPlanning.SortedSplitsOff` | scx_cohort/src/wake_graph.rs:240-251 | sorting by weight and skipping the first keeps a heaviest component and splits off every other heavy enough one, pairwise disjoint |
| `SplitPlanning.PartitionCount` | scx_cohort/src/wake_graph.rs:227-230 | two or more components exactly when two members are not joined |
| `Cuts.JoinedMeans` | scx_cohort/src/wake_graph.rs:198-219 | two members are joined exactly when no set separates them without cutting an edge at the rate |
| `Cuts.DisconnectedMeans` | scx_cohort/src/wake_graph.rs:198-230 | a cohort counts as disconnected exactly when its members fall into two parts with no edge at the rate between them |
| `Cuts.OffMeans` | scx_cohort/src/wake_graph.rs:221-251 | a split-off set is cut off only at edges below the rate, and every part of it is tied to the rest by one at the rate |
| `Tallies.WeightCounts` | scx_cohort/src/wake_graph.rs:241-247 | a component's weight is the number of scanned tasks under its tgids |
| `Tallies.PlannedSplit` | scx_cohort/src/wake_graph.rs:238-251 | a planned split takes at least the required number of tasks out of its cohort, leaves at least as many together behind, and cuts no edge at the split rate |
| `Tallies.HeavySplitsOff` | scx_cohort/src/wake_graph.rs:240-251 | every component but the kept one with at least the required number of tasks is split off as a whole |
| `SplitPlanning.StreakMeaning` | scx_cohort/src/wake_graph.rs:189-196 | the streak is the length of the disconnected stretch since the last connected call or reset |
| `SplitPlanning.SplitNeedsConfirmation` | scx_cohort/src/wake_graph.rs:227-252 | a split is planned only when the last confirming number of calls all saw the cohort disconnected, with no reset among them |
| `SplitPlanning.ConfirmationSplits` | scx_cohort/src/wake_graph.rs:227-252 | conversely, that many disconnected calls make this call split |
| `DaemonMaps.MergesRedirect` | scx_cohort/src/main.rs:647-686 | the plans of one tick, applied from the stale snapshot, act as one redirection of cohorts and delete exactly the absorbed ones |
| `DaemonMaps.RedirectMeaning` | scx_cohort/src/main.rs:670-679 | an absorbed cohort goes where its one plan says, every other stays, and no target is itself absorbed |
| `DaemonMaps.MergesAnyOrder` | scx_cohort/src/main.rs:752-754 | any order of the plans gives the same maps, and no tgid is left on an absorbed cohort |
| `DaemonMaps.MergesKeepIntegrity` | scx_cohort/src/main.rs:647-686 | merges keep referential integrity and the id bound, and lose no tgid |
| `DaemonMaps.SplitKeepsIntegrity` | scx_cohort/src/main.rs:688-738 | a split takes an unused id at or above 2^32, keeps integrity, loses no tgid and changes no existing cohort |
| `DaemonMaps.SplitsKeepIntegrity` | scx_cohort/src/main.rs:769-771 | so does any sequence of splits, and new ids fill exactly the range allocated |
| `DaemonMaps.SplitsAfterMerges` | scx_cohort/src/main.rs:752-771 | after this tick's merges a split of an absorbed cohort is skipped, and any other moves only tgids that are on its cohort at that moment |
| `DaemonMaps.SplitsMoveOwnMembers` | scx_cohort/src/main.rs:728-734 | until its own plan comes up, a planned tgid has not moved |
| `DaemonMaps.SplitsLand` | scx_cohort/src/main.rs:688-738 | after a tick's merges and splits the tgids of each surviving split are together on its own new cohort, at the home of the one they left; every other tgid followed its merge or stayed |
| `DaemonMaps.TickLands` | scx_cohort/src/main.rs:752-771 | the same for the whole tick against the maps it started from, with ids in use nowhere before |
| `DaemonMaps.CollectedFresh` | scx_cohort/src/main.rs:446-482 | collection and the balancer's decision leave every snapshotted cohort in place |
| `DaemonMaps.TickIntegrity` | scx_cohort/src/main.rs:887-905 | over a whole tick integrity and the id bound are restored, tgids are lost only to collection, and new ids are fresh and at least 2^32 |
| `DaemonMaps.NextIdsUnused` | scx_cohort/src/main.rs:699-700 | while every named id was handed out below the base by the BPF side or above it by the daemon, neither side's next id is in use |
| `DaemonMaps.MergesKeepIds` | scx_cohort/src/main.rs:647-686 | merges name no cohort that was not handed out, whatever their snapshot |
| `DaemonMaps.SplitsKeepIds` | scx_cohort/src/main.rs:688-738 | splits name nothing new but their own daemon ids |
| `Scheduler.Scheduler.SnapshotCohorts` | scx_cohort/src/main.rs:378-461 | snapshots every cohort in use once, sweeps those idle for a second tick, marks the others, and never collects on an empty scan |
| `Tallies.SnapshotMeans` | scx_cohort/src/main.rs:409-444 | a snapshot holds the policy's home and pin, the number of scanned tasks, and what the load sum grew by since the last tick |
| `Tallies.InUseMeans` | scx_cohort/src/main.rs:390-427 | a cohort is in use exactly when a scanned task is in it or a tgid maps to it |
| `Tallies.SizeMapMeans` | scx_cohort/src/main.rs:750 | the sizes handed to the wake graph are the snapshots' task counts |
| `Tallies.TgidTasksCounts` | scx_cohort/src/main.rs:756-768 | the count handed over with a tgid is the number of its scanned tasks |
| `Scheduler.Scheduler.GcTgidMap` | scx_cohort/src/main.rs:466-482 | sweeps exactly the idle tgids marked last tick and marks the other idle ones |
| `Scheduler.Scheduler.Apply` | scx_cohort/src/main.rs:799-822 | sets the home of the named cohort if its policy exists; every other home and every pin stays |
| `Scheduler.Scheduler.ApplySpills` | scx_cohort/src/main.rs:631-645 | writes changed entries, deletes dropped ones, records the new set |
| `Scheduler.Scheduler.ApplyMerge` | scx_cohort/src/main.rs:647-686 | applies one plan as specified and forgets the absorbed load sum, or does nothing when either cohort has no counters |
| `Scheduler.Scheduler.ApplySplit` | scx_cohort/src/main.rs:688-738 | applies one plan as specified; a taken id is an error that moves no tgid, and cannot happen under the id bound |
| `Scheduler.Scheduler.GroupTgids` | scx_cohort/src/main.rs:756-768 | groups every snapshotted tgid of a sized cohort once, with its task count |
| `Scheduler.SplitsAreOver` | scx_cohort/src/main.rs:760-771 | what the wake graph plans from those groups stays within each cohort's snapshot and never overlaps |
| `Scheduler.Scheduler.DiscoverRelationships` | scx_cohort/src/main.rs:740-773 | observes, merges and splits from the one snapshot; the new maps are those of the planned merges then splits |
| `Scheduler.Scheduler.CollectAndPlace` | scx_cohort/src/main.rs:888-903 | the first half of a tick: collection, the balancer's decision and the spill synchronisation |
| `Scheduler.Scheduler.Tick` | scx_cohort/src/main.rs:887-907 | the whole tick succeeds, keeps integrity and the id bound, loses tgids only to collection, takes only fresh daemon ids, and leaves every split-off set on its own new cohort and everyone else where the merges say |
| `GarbageCollection.TgidSweptAfterTwoScans` | scx_cohort/src/main.rs:466-482 | a tgid entry is swept only after two consecutive scans with no live task under it |
| `GarbageCollection.CohortSweptAfterTwoTicks` | scx_cohort/src/main.rs:390-457 | a cohort is swept only after two consecutive ticks with non-empty scans in which it was unreferenced and empty |
| `GarbageCollection.GoneWithinFourTicks` | scx_cohort/src/main.rs:887-893 | once abandoned and left alone, a cohort is gone within four ticks |
| `GarbageCollection.CountZero` | scx_cohort/src/main.rs:390-393 | the task count is zero exactly when no scanned task names the cohort |
| `SpillSync.SyncedExactlyWhen` | scx_cohort/src/main.rs:631-645 | the map ends up as desired if and only if every entry taken for written is there and nothing unknown is |
| `SpillSync.StepAgrees` | scx_cohort/src/main.rs:896-903 | starts, exits and ticks keep the map equal to the record less the pids that exited behind the daemon's back, and a tick makes it equal to the planned set exactly when it keeps no entry of such a pid |
| `SpillSync.RunsAgree` | scx_cohort/src/bpf/main.bpf.c:690-695 | the same over every run, pids reused or not |
| `SpillSync.RunsSync` | scx_cohort/src/main.rs:631-645 | every tick leaves the map as planned, over every run in which no pid comes back while the daemon still holds its entry |
| `SpillSync.PidReuseBreaksSync` | scx_cohort/src/main.rs:633-637 | a run that breaks it: spilled, exited and back between two ticks, and never written again |
| `IntegrityRuns.MergeKeepsIntegrityWhen` | scx_cohort/src/main.rs:665-682 | one merge keeps integrity exactly when the snapshot knows every tgid on the absorbed cohort |
| `IntegrityRuns.StepKeepsIntegrityWhen` | scx_cohort/src/main.rs:887-907 | a callback or a whole tick keeps integrity exactly when it does not hand down a cohort that has lost its entries |
| `IntegrityRuns.RunsKeepIntegrityWhen` | scx_cohort/src/main.rs:887-907 | over any run of callbacks and ticks integrity holds in every state if and only if no fork handed down a cohort that had lost its entries |
| `IntegrityRuns.StaleParentBreaksIntegrity` | scx_cohort/src/bpf/main.bpf.c:606-613 | a run from boot that breaks it: two cohorts merge and the absorbed one's task forks before it is placed again |
| `IntegrityRuns.RunsKeepIds` | scx_cohort/src/main.rs:699-700 | in every run each cohort named in a map or a cache was handed out by the BPF side below 2^32 or by the daemon from there on |
| `IntegrityRuns.IdsNeverReused` | scx_cohort/src/bpf/main.bpf.c:615-624 | a cohort that a step adds occurred in no earlier state of the run, not even in a stale cache |
| `Balancer.MaxLlc` | scx_cohort/src/balancer.rs:72 | an LLC no other is more loaded than |
| `Balancer.MinLlc` | scx_cohort/src/balancer.rs:73 | an LLC no other is less loaded than |
| `Balancer.MaxIsLast` | scx_cohort/src/balancer.rs:72 | among equals the last most loaded LLC is taken |
| `Balancer.MinIsFirst` | scx_cohort/src/balancer.rs:73 | among equals the first least loaded LLC is taken |
| `Balancer.Best` | scx_cohort/src/balancer.rs:89-111 | none exactly when no cohort is a candidate, otherwise a candidate that no other beats on remaining gap, then on load |
| `Balancer.BestIsFirst` | scx_cohort/src/balancer.rs:106-111 | among equally good candidates the first in the list is taken |
| `Balancer.RepairsWhen` | scx_cohort/src/balancer.rs:102-105 | a move shrinks the gap exactly when the load lies strictly between zero and the gap |
| `Balancer.PlanDecides` | scx_cohort/src/balancer.rs:62-124 | a move comes exactly when the imbalance is over threshold and confirmed and some movable cohort can repair it; the chosen one repairs best |
| `Balancer.PlanMeans` | scx_cohort/src/balancer.rs:62-124 | in plain numbers: a move comes exactly when the gap passes the threshold share of the idle LLC's capacity, the streak is confirmed and some cohort may move; it goes to the idle LLC, and no cohort that may move leaves less of the gap, or as much with less load |
| `Balancer.Balancer.Plan` | scx_cohort/src/balancer.rs:62-124 | updates streak and timestamps and decides as specified |
| `Balancer.Balancer.RetainCohorts` | scx_cohort/src/balancer.rs:57-60 | keeps exactly the timestamps of live cohorts, unchanged, and the streak |
| `Balancer.StreakMeaning` | scx_cohort/src/balancer.rs:77-84 | the streak counts the over-threshold plans since the last calm one or the last move |
| `Balancer.MoveNeedsConfirmation` | scx_cohort/src/balancer.rs:77-84 | a move means the last confirming number of plans were all over threshold and none of the others moved anything |
| `Balancer.MovesAreApart` | scx_cohort/src/balancer.rs:113-121 | two moves are at least the confirming number of plans apart |
| `Balancer.MoveRemembered` | scx_cohort/src/balancer.rs:58-60 | the timestamp of a cohort kept alive survives and never moves back |
| `Balancer.ResidencyHolds` | scx_cohort/src/balancer.rs:97-100 | two moves of a cohort kept throughout are at least its residency apart |
| `ClosedLoop.LoadShifts` | scx_cohort/src/main.rs:803-817 | an applied move shifts exactly the cohort's load from its old home to its new one |
| `ClosedLoop.MoveImproves` | scx_cohort/src/balancer.rs:72-123 | every applied move strictly lowers the sum of squared LLC loads and never raises the peak |
| `ClosedLoop.PlannedMoveIsBest` | scx_cohort/src/balancer.rs:102-111 | the planned move leaves its two LLCs no further apart than moving any other cohort that may move, and closer than before |
| `ClosedLoop.FinitelyManyMoves` | scx_cohort/src/balancer.rs:62-124 | over any run, moves made plus potential left never exceed the starting potential, and the peak never rises |
| `ClosedLoop.SettledMeans` | scx_cohort/src/balancer.rs:77-123 | with the streak confirmed and nobody immune, no move comes exactly when the gap is within threshold or no cohort on the loaded LLC can repair it |
| `Spill.Target` | scx_cohort/src/balancer.rs:195-201 | the spill target is never the home LLC |
| `Spill.TargetIsLeast` | scx_cohort/src/balancer.rs:195-201 | and no other foreign LLC is less loaded |
| `Spill.CapacityMeans` | scx_cohort/src/balancer.rs:173 | an LLC's capacity is that of its last entry |
| `Spill.ShedMeans` | scx_cohort/src/balancer.rs:224-234 | members shed their duties, and one for each that is fully idle |
| `Spill.PrefixFrom` | scx_cohort/src/balancer.rs:224-234 | the shortest prefix that sheds the excess, or everything |
| `Spill.PlanSpills` | scx_cohort/src/balancer.rs:162-237 | the nested loops compute exactly the specified desired set |
| `Spill.PlanCohort` | scx_cohort/src/balancer.rs:175-234 | one cohort adds its own spill set to what is desired so far |
| `Spill.ShedColdest` | scx_cohort/src/balancer.rs:224-234 | adds exactly the shortest prefix of the sorted members that sheds the excess |
| `Collections.SortStable` | scx_cohort/src/balancer.rs:222 | the sort keeps the order of members with equal duty |
| `SpillRuns.PlannedFromTasks` | scx_cohort/src/balancer.rs:182-229 | planned pids always come from the task snapshot |
| `SpillRuns.OwnCohortDecides` | scx_cohort/src/balancer.rs:175-234 | with unique pids and ids, a task's fate is decided by its own cohort alone |
| `SpillRuns.TaskFate` | scx_cohort/src/balancer.rs:188-234 | a spilled task stays exactly while the load is not below the low mark, keeping its target; another joins exactly when the load is above the high mark and it is in the chosen prefix |
| `SpillRuns.FateMeans` | scx_cohort/src/balancer.rs:175-234 | in plain numbers: a spilled task leaves exactly when the load is below the low share of the capacity; one joins only above the high share and under the cold ceiling, towards the least loaded other LLC |
| `SpillRuns.OnlyWatchedSpill` | scx_cohort/src/balancer.rs:175-186 | only tasks of snapshotted cohorts with a known home are ever spilled |
| `SpillRuns.LeavesOnlyBelowLow` | scx_cohort/src/balancer.rs:188-205 | over any run a spilled task leaves only on a tick below the low mark and keeps its target until then |
| `SpillRuns.EntersOnlyAboveHigh` | scx_cohort/src/balancer.rs:207-234 | over any run a task enters only on a tick above the high mark, cold, with the least loaded other LLC as target |
| `SpillRuns.GrowthIsColdestPrefix` | scx_cohort/src/balancer.rs:211-234 | an overloaded tick adds the shortest duty-sorted prefix of the unspilled cold members that sheds the excess, or all of them |
| `SpillRuns.OverloadGrows` | scx_cohort/src/balancer.rs:211-234 | an overloaded tick keeps every spilled cold member and adds one while any is left |
| `SpillRuns.OverloadSaturates` | scx_cohort/src/balancer.rs:211-234 | under sustained overload every cold member is spilled after as many ticks as there are cold members |
| `SpillRuns.SaturatedIsFixed` | scx_cohort/src/balancer.rs:211-234 | at that point nothing in the cohort changes any more |
| `SpillRuns.SpillsPastFit` | scx_cohort/src/balancer.rs:211-234 | a run of two ticks whose second spills on although what the first left at home fits under the high mark |
| `FastPath.Bpf.TaskHomeLlc` | scx_cohort/src/bpf/main.bpf.c:226-273 | a spilled task goes to its target; any other caches the cohort its tgid maps to and goes to that cohort's home, or stays at the CPU's LLC without one; no other context changes |
| `FastPath.Bpf.Stopping` | scx_cohort/src/bpf/main.bpf.c:552-590 | adds the same scaled amount to the cached cohort, if counted, and to the executing LLC, and the raw runtime to the task; nothing else moves |
| `FastPath.Bpf.AssignCohort` | scx_cohort/src/bpf/main.bpf.c:597-628 | maps the tgid to the existing, inherited or new cohort; changes no existing entry; a new cohort has both entries |
| `FastPath.Bpf.InitTask` | scx_cohort/src/bpf/main.bpf.c:630-669 | caches the cohort its tgid maps to, starts zero statistics, touches no other task |
| `FastPath.Bpf.ExitTask` | scx_cohort/src/bpf/main.bpf.c:671-700 | removes the task's context, statistics and spill entry and nothing else |
| `FastPath.ForkKeepsIntegrityWhen` | scx_cohort/src/bpf/main.bpf.c:597-628 | a fork keeps integrity if and only if the tgid is mapped, nothing is inherited, or the inherited cohort still has its entries |
| `FastPath.PlacedParentIsSafe` | scx_cohort/src/bpf/main.bpf.c:226-237 | a parent placed since the last map change hands down a live cohort |
| `FastPath.ForkKeepsIdSpaces` | scx_cohort/src/bpf/main.bpf.c:615-624 | a fork keeps the id spaces apart, and an id it hands out lies between 1 and 2^32 and occurred nowhere, caches included |
| `LoadLedger.StepConserves` | scx_cohort/src/bpf/main.bpf.c:563-576 | each callback and daemon step moves total LLC load and total live demand together, up to what it retires |
| `LoadLedger.LoadConserved` | scx_cohort/src/bpf/main.bpf.c:563-576 | over every run total LLC load equals live demand plus everything retired |
| `LoadLedger.HomeGrowsSlower` | scx_cohort/src/bpf/main.bpf.c:582-588 | without a restart, home runtime and away runtime both only grow between any two moments |
| `LoadLedger.HomeWithinRuntime` | scx_cohort/src/bpf/main.bpf.c:582-588 | home runtime never exceeds runtime |
| `LoadLedger.HomeWithinDuty` | scx_cohort/src/main.rs:520-553 | per tick home time is within duty, and duty is the exact difference, as long as the entry was not re-created |
| `LoadLedger.DutyExactlyWhen` | scx_cohort/src/main.rs:530-547 | for any two entries, home time is within duty if and only if the home sum did not grow or the away sum did not shrink |
| `LoadLedger.HomeWithinDutyExactlyWhen` | scx_cohort/src/main.rs:520-553 | the same between any two moments of any run, with both sums real amounts, and a failure means the task was started again |
| `LoadLedger.RecreatedEntryBreaksDuty` | scx_cohort/src/main.rs:530-547 | a run from boot that breaks it: 100 away from home, exit, restart, 50 at home |
| `StealGate.KeyBounded` | scx_cohort/src/bpf/main.bpf.c:446-466 | the queue key is at most one slice, plus the credit when granted, behind the frontier in wrapping order |
| `StealGate.BeforeMeans` | scx_cohort/src/bpf/main.bpf.c:48-51 | a time is before every other less than half the circle ahead of it, and not after it |
| `StealGate.KeyMeans` | scx_cohort/src/bpf/main.bpf.c:446-466 | a task ahead of the clamp keeps its vtime, one behind it is moved up to it, and the credit comes off exactly when granted |
| `StealGate.InsertedPosition` | scx_cohort/src/bpf/main.bpf.c:472 | the task is queued behind every entry it is not before, up to the first one it is before in wrapping order |
| `StealGate.InsertKeepsOrder` | scx_cohort/src/bpf/main.bpf.c:472 | queueing keeps keys earliest first and equal keys in arrival order |
| `StealGate.RunsKeepOrder` | scx_cohort/src/bpf/main.bpf.c:468-510 | so every queue is in order in every run whose keys lie within half the circle |
| `StealGate.Llcs.Enqueue` | scx_cohort/src/bpf/main.bpf.c:468-472 | queues the task and restarts the head timestamp only for an empty queue |
| `StealGate.Llcs.MoveToLocal` | scx_cohort/src/bpf/main.bpf.c:482 | removes the first task the CPU may run, if any |
| `StealGate.Llcs.Dispatch` | scx_cohort/src/bpf/main.bpf.c:475-516 | own queue first, then the first foreign queue with an open gate and a runnable task, else nothing |
| `StealGate.DispatchMeans` | scx_cohort/src/bpf/main.bpf.c:475-516 | in plain terms: takes the first runnable task of the own queue, else of the first other queue that is deep or old enough, restarting its timestamp; goes away empty-handed only when there is none |
| `StealGate.EnqueueKeepsHead` | scx_cohort/src/bpf/main.bpf.c:468-472 | enqueueing keeps the head timestamp no earlier than the oldest task |
| `StealGate.ConsumeKeepsHead` | scx_cohort/src/bpf/main.bpf.c:482-510 | so does consuming |
| `StealGate.GateMeansWaiting` | scx_cohort/src/bpf/main.bpf.c:507-508 | an open gate means a deep queue or a task that really waited longer than the delay |
| `StealGate.RunsAreHeadSafe` | scx_cohort/src/bpf/main.bpf.c:468-510 | every reachable state has safe head timestamps |
| `StealGate.StealsAreJustified` | scx_cohort/src/bpf/main.bpf.c:488-513 | over every run a steal happens only when the own queue has nothing to run and the victim is deep or has such a waiter |
| `StealGate.HeadMeaning` | scx_cohort/src/bpf/main.bpf.c:468-510 | over every run the head timestamp is the time of the last step that consumed from the queue or queued into it while empty |
| `StealGate.WaiterBlockedExactlyWhen` | scx_cohort/src/bpf/main.bpf.c:494-513 | over every run a queue holding a task past the delay has a closed gate if and only if it is not deep and something was consumed from it within the last delay |
| `StealGate.LongWaiterBehindClosedGate` | scx_cohort/src/bpf/main.bpf.c:482-513 | a run in which an idle CPU leaves such a waiter behind |
| `PingPong.WordsDiffer` | bench/ipc_pingpong/src/main.rs:166-190 | consecutive rounds never collide in a 32-bit word |
| `PingPong.ClientKeepsCore` | bench/ipc_pingpong/src/main.rs:175-205 | every client step keeps the protocol invariant |
| `PingPong.ServerKeepsCore` | bench/ipc_pingpong/src/main.rs:161-173 | every server step keeps the protocol invariant |
| `PingPong.SpuriousKeepsInv` | bench/ipc_pingpong/src/main.rs:87-95 | so does every spurious wakeup |
| `PingPong.RunsAreSafe` | bench/ipc_pingpong/src/main.rs:161-205 | every state of every interleaving satisfies the invariant |
| `PingPong.PayloadSafe` | bench/ipc_pingpong/src/main.rs:161-205 | client and server never touch the payload at the same time, and a reader sees on every line exactly the other's stamp for its round: the round number or its complement, plus the offset |
| `PingPong.NoLostWakeup` | bench/ipc_pingpong/src/main.rs:87-95 | a process blocked on a word that has reached its round has a wake pending |
| `PingPong.WordsMean` | bench/ipc_pingpong/src/main.rs:166-190 | each word holds, modulo 2^32, the last round its writer announced; a process blocked on a changed word has a wake pending |
| `PingPong.NoDeadlock` | bench/ipc_pingpong/src/main.rs:161-205 | until both are done, some process can work |
| `PingPong.ClientKeepsSinks` | bench/ipc_pingpong/src/main.rs:191 | the client's sink holds exactly the stamps of its finished rounds |
| `PingPong.ServerKeepsSinks` | bench/ipc_pingpong/src/main.rs:167 | the server's sink holds exactly the stamps of its finished rounds |
| `PingPong.FinalSinks` | bench/ipc_pingpong/src/main.rs:161-205 | every finished run leaves the same two sinks |
| `PingPongSinks.SinksClosedForm` | bench/ipc_pingpong/src/main.rs:97-116 | in closed form: the server has summed every round number, the client every complement, with the line offsets; together they add up to a constant of rounds and lines |
| `PingPong.RunsTerminate` | bench/ipc_pingpong/src/main.rs:161-205 | a run is no longer than a bound fixed by the configuration plus three steps per spurious wakeup |
| `PingPongLoops.PayloadWrite` | bench/ipc_pingpong/src/main.rs:100-106 | writes the stamp plus offset, wrapping, to every line below the length and nothing else |
| `PingPongLoops.PayloadRead` | bench/ipc_pingpong/src/main.rs:108-116 | sums every line below the length, wrapping |
| `PingPongLoops.ReadBack` | bench/ipc_pingpong/src/main.rs:97-116 | reading back a stamped payload gives the sum the protocol expects |
| `PingPongLoops.StrideCovers` | bench/ipc_pingpong/src/main.rs:207-210 | the stride is the smallest at which the buffer covers all iterations |
| `PingPongLoops.Sample` | bench/ipc_pingpong/src/main.rs:193-200 | keeps every stride-th round trip to the very end; the buffer bound never truncates |
| `MannWhitney.UStat` | bench/analyze.py:56-67 | the tie-run loops compute the midrank statistic |
| `MannWhitney.RunEnd` | bench/analyze.py:61-63 | finds the end of a run of ties and orders it against the rest |
| `MannWhitney.RunBeats` | bench/analyze.py:61-64 | the doubled midrank of a run is its start plus its end plus one |
| `MannWhitney.RankEqualsPairs` | bench/analyze.py:56-67 | for all samples, ties included, the rank form equals the pairwise count with half credit for ties |
| `MannWhitney.PairsSum` | bench/analyze.py:66-67 | U(a,b) + U(b,a) = n1 n2 |
| `MannWhitney.ChooseMember` | bench/analyze.py:78 | the enumeration yields exactly the index sets of the group size |
| `MannWhitney.ChooseSize` | bench/analyze.py:72 | and as many as the binomial coefficient |
| `MannWhitney.CountExtremes` | bench/analyze.py:75-82 | counts exactly the assignments at least as extreme, and all of them |
| `MannWhitney.ComplementDeviates` | bench/analyze.py:78-81 | an assignment and its complement deviate equally from the mean |
| `MannWhitney.ExtremesSymmetric` | bench/analyze.py:75-83 | both groups have equally many extreme assignments |
| `MannWhitney.ExtremesMean` | bench/analyze.py:75-82 | an assignment is extreme in pairwise terms: wins with half the ties differ from half the pairs by at least the observed distance |
| `MannWhitney.ObservedIsExtreme` | bench/analyze.py:76-81 | the observed split is itself counted |
| `MannWhitney.ExactIsProbability` | bench/analyze.py:48-100 | the verdict is symmetric in its arguments, and the exact p-value lies in (0, 1] |
| `MannWhitney.TieTerm` | bench/analyze.py:86-95 | the run loop computes the sum over all values of their squared multiplicity less one |
| `MannWhitney.VarianceVanishesWhen` | bench/analyze.py:96-98 | the tie-corrected variance is not positive exactly when all pooled values are equal |
| `MannWhitney.VarianceMeans` | bench/analyze.py:96 | the variance in its textbook form, cleared of fractions |
| `MannWhitney.MannWhitney` | bench/analyze.py:48-100 | no verdict without data, the exact count when feasible, certainty for an all-tied pool, otherwise the distance and the positive variance that z is made of |

## Left out

- Loading, libbpf batch calls, byte decoding, topology discovery, signals, capabilities and realtime priority: foreign calls; maps are Dafny maps and map writes succeed.
- `select_cpu` and cpumask handling: kernel idle masks; which queued tasks a CPU may run is an input of `StealGate.Llcs.Dispatch`, and the effective LLC an input of `Enqueue`.
- `cohort_runnable`, `cohort_running` and the vtime charge in `cohort_stopping`: straight-line updates; vtime, frontier, wake frequency and average runtime are inputs of `StealGate.QueueKey`. No starvation bound is claimed from the local clamp.
- `record_wake_edge`, LRU eviction, map capacities and increments lost while draining edges: sampled deltas are an input.
- `apply_rules`, configuration parsing and cgroup matching: residency overrides and pins are inputs.
- `nr_tasks` in the cohort counters: documented as approximate; the daemon derives counts from the task scan, which is modelled.
- Statistics, metrics, terminal view, scripts and packaging: formatting and I/O.
- A BPF cohort counter that reaches 2^32: `IntegrityRuns` and `LoadLedger` take forks only while it is below, as the daemon's id base presumes.
- Machine integers outside the wrap-around named above: streaks, confirmation counters, loads, runtime sums and percentage products are unbounded, so overflow after 2^32 ticks or loads near 2^62 is not modelled.
- Floating point: rates are reals, so rounding of the EWMA is not modelled; doubled integer ranks make the tolerance of 1e-9 in the exact test an exact comparison.
- MannWhitney.MannWhitney: does not apply `erfc` and `sqrt`, which are library code; in the normal branch it states the distance and the variance they are applied to.
- BPF steps in the middle of a tick: `Scheduler.Tick` assumes none; `IntegrityRuns.MergeKeepsIntegrityWhen` says exactly what one racing join would break.
- Weak memory: the ping-pong steps are sequentially consistent; timestamps and elapsed times are not modelled.
- `futex_wait_until`, `run_server` and `run_client` are modelled as steps of a state machine rather than as loops, because their steps interleave.
