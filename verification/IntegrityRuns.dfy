/** Referential integrity over whole runs: BPF callbacks between daemon ticks, and
    the exact conditions under which a fork or a racing merge would break it. */
module IntegrityRuns {
  import opened Domain
  import opened MergePlanning
  import opened DaemonMaps
  import opened FastPath

  /** One merge keeps integrity exactly when the snapshot knows every tgid that is on the absorbed
      cohort now; a tgid that joined it after the snapshot is left dangling. */
  lemma {:induction false} MergeKeepsIntegrityWhen(m: Maps, tc: map<Tgid, CohortId>, p: MergePlan)
    requires Integrity(m) && p.into != p.from
    requires p.into in m.counters && p.from in m.counters && p.into in m.policy
    ensures Integrity(Merged(m, tc, p)) <==>
      forall t :: t in m.tgidCohort && m.tgidCohort[t] == p.from ==> t in tc && tc[t] == p.from
  {
    var m' := Merged(m, tc, p);
    forall t | t in m.tgidCohort && m.tgidCohort[t] == p.from && !(t in tc && tc[t] == p.from)
      ensures t in m'.tgidCohort && m'.tgidCohort[t] !in m'.policy
    {
    }
  }

  /** A callback or a whole tick. */
  datatype Step =
    | Place(pid: Pid, cpuLlc: LlcId)
    | Stop(pid: Pid, delta: nat, weight: nat, cpuLlc: LlcId)
    | Start(pid: Pid, tgid: Tgid, parent: Option<Pid>, rr: nat)
    | Exit(pid: Pid)
    | Tick(deadTgids: set<Tgid>, deadCohorts: set<CohortId>, decision: Option<Decision>, spill: map<Pid, LlcId>,
           merges: seq<MergePlan>, splits: seq<SplitPlan>)

  function Next(w: World, a: Step): World
    requires Loaded(w)
  {
    match a
    case Place(pid, cpuLlc) => Placed(w, pid, cpuLlc)
    case Stop(pid, delta, weight, cpuLlc) => Stopped(w, pid, delta, weight, cpuLlc)
    case Start(pid, tgid, parent, rr) => Started(w, pid, tgid, parent, rr)
    case Exit(pid) => Exited(w, pid)
    case Tick(deadT, deadC, d, spill, merges, splits) =>
      var merged := MergedAll(Collected(w.maps, deadT, deadC, d), w.maps.tgidCohort, merges);
      var (m, s) := SplitAll(merged, w.daemonSeq, splits, |splits|);
      w.(maps := m, daemonSeq := s, spill := spill)
  }

  /** Ticks collect only unreferenced cohorts and carry plans made from their own snapshot, and
      BPF ids stay below the daemon's base; everything else can always happen. */
  ghost predicate Enabled(w: World, a: Step) {
    && Loaded(w)
    && match a
       case Start(_, _, _, _) => w.cohortSeq + 1 < DAEMON_COHORT_BASE
       case Tick(_, deadC, _, _, merges, _) =>
         deadC !! w.maps.tgidCohort.Values && IsMatching(merges) && PlansOver(merges, w.maps.tgidCohort)
       case _ => true
  }

  /** A fork does not hand down a cached cohort that has lost its entries. */
  ghost predicate InheritsLive(w: World, a: Step) {
    a.Start? ==>
      var id := Inherited(w, a.parent);
      a.tgid in w.maps.tgidCohort || id == COHORT_INVALID || (id in w.maps.policy && id in w.maps.counters)
  }

  ghost predicate Leads(w: World, a: Step, w': World) {
    Enabled(w, a) && w' == Next(w, a)
  }

  /** Callbacks and ticks in any order, from a world whose cohort ids have all been handed out. */
  ghost predicate IsRun(worlds: seq<World>, steps: seq<Step>) {
    && |worlds| == |steps| + 1 && IdsKnown(worlds[0])
    && forall i :: 0 <= i < |steps| ==> Leads(worlds[i], steps[i], worlds[i + 1])
  }

  // ----- Cohort ids -----

  /** No step names a cohort that was not handed out, and what a step adds was not handed out before. */
  lemma {:induction false} StepKeepsIds(w: World, a: Step)
    requires IdsKnown(w) && Enabled(w, a)
    ensures var v := Next(w, a);
      && IdsKnown(v) && w.cohortSeq <= v.cohortSeq && w.daemonSeq <= v.daemonSeq
      && forall c :: (c in v.maps.policy || c in v.maps.counters) && c !in w.maps.policy && c !in w.maps.counters ==>
           !Allocated(w.cohortSeq, w.daemonSeq, c)
  {
    match a
    case Place(pid, cpuLlc) => PlacedKeepsIds(w, pid, cpuLlc);
    case Stop(pid, delta, weight, cpuLlc) => StoppedKeepsIds(w, pid, delta, weight, cpuLlc);
    case Start(pid, tgid, parent, rr) => StartKeepsIds(w, pid, tgid, parent, rr);
    case Exit(pid) =>
    case Tick(deadT, deadC, d, spill, merges, splits) => TickKeepsIds(w, a);
  }

  lemma {:induction false} StartKeepsIds(w: World, pid: Pid, tgid: Tgid, parent: Option<Pid>, rr: nat)
    requires IdsKnown(w) && Loaded(w) && w.cohortSeq + 1 < DAEMON_COHORT_BASE
    ensures var v := Started(w, pid, tgid, parent, rr);
      && IdsKnown(v) && w.cohortSeq <= v.cohortSeq && w.daemonSeq <= v.daemonSeq
      && forall c :: (c in v.maps.policy || c in v.maps.counters) && c !in w.maps.policy && c !in w.maps.counters ==>
           !Allocated(w.cohortSeq, w.daemonSeq, c)
  {
    ForkKeepsIdSpaces(w, pid, tgid, parent, rr);
  }

  lemma {:induction false} TickKeepsIds(w: World, a: Step)
    requires IdsKnown(w) && Enabled(w, a) && a.Tick?
    ensures var v := Next(w, a);
      && IdsKnown(v) && w.cohortSeq <= v.cohortSeq && w.daemonSeq <= v.daemonSeq
      && forall c :: (c in v.maps.policy || c in v.maps.counters) && c !in w.maps.policy && c !in w.maps.counters ==>
           !Allocated(w.cohortSeq, w.daemonSeq, c)
  {
    hide IdSpaces, MergedAll, SplitAll, IsMatching, PlansOver;
    var collected, tc := Collected(w.maps, a.deadTgids, a.deadCohorts, a.decision), w.maps.tgidCohort;
    CollectKeepsIds(w.maps, a.deadTgids, a.deadCohorts, a.decision, w.cohortSeq, w.daemonSeq);
    MergesKeepIds(collected, tc, a.merges, w.cohortSeq, w.daemonSeq);
    SplitsKeepIds(MergedAll(collected, tc, a.merges), w.cohortSeq, w.daemonSeq, a.splits, |a.splits|);
    hide Loaded;
  }

  /** In every run, with stale forks or without, the two id spaces stay apart: every cohort named
      in the maps or cached by a task was handed out by the BPF side, below the daemon's base, or
      by the daemon, above it.  The allocation counters never step back. */
  lemma {:induction false} RunsKeepIds(worlds: seq<World>, steps: seq<Step>, i: nat, n: nat)
    requires IsRun(worlds, steps) && i <= n <= |steps|
    ensures IdsKnown(worlds[n])
    ensures worlds[i].cohortSeq <= worlds[n].cohortSeq && worlds[i].daemonSeq <= worlds[n].daemonSeq
    decreases n
  {
    hide IdsKnown, Enabled, Next;
    if n > 0 {
      RunsKeepIds(worlds, steps, if i < n then i else n - 1, n - 1);
      assert Leads(worlds[n - 1], steps[n - 1], worlds[n - 1 + 1]);
      StepKeepsIds(worlds[n - 1], steps[n - 1]);
    }
  }

  /** No cohort id is ever used twice: a cohort that a step adds occurred in no state of the run
      up to then, not even in a stale cache. */
  lemma {:induction false} IdsNeverReused(worlds: seq<World>, steps: seq<Step>, n: nat, i: nat, c: CohortId)
    requires IsRun(worlds, steps) && i <= n < |steps|
    requires c in worlds[n + 1].maps.policy || c in worlds[n + 1].maps.counters
    requires c !in worlds[n].maps.policy && c !in worlds[n].maps.counters
    ensures !Named(worlds[i], c)
  {
    hide IdsKnown, Enabled, Next, Named;
    RunsKeepIds(worlds, steps, i, n);
    RunsKeepIds(worlds, steps, i, i);
    assert Leads(worlds[n], steps[n], worlds[n + 1]);
    StepKeepsIds(worlds[n], steps[n]);
    if Named(worlds[i], c) { NamedIsAllocated(worlds[i], c); }
  }

  // ----- Integrity -----

  /** One step keeps integrity exactly when it does not hand down a dead cohort. */
  lemma {:induction false} StepKeepsIntegrityWhen(w: World, a: Step)
    requires IdsKnown(w) && Enabled(w, a) && Integrity(w.maps)
    ensures Integrity(Next(w, a).maps) <==> InheritsLive(w, a)
  {
    match a
    case Start(pid, tgid, parent, rr) =>
      hide Integrity, IdsKnown;
      ForkKeepsIntegrityWhen(w, tgid, parent, rr);
    case Stop(pid, delta, weight, cpuLlc) =>
      StopKeepsIntegrity(w, pid, delta, weight, cpuLlc);
    case Tick(deadT, deadC, d, spill, merges, splits) =>
      hide Integrity, IsMatching, SplitAll, MergedAll;
      TickIntegrity(w.maps, w.daemonSeq, deadT, deadC, d, merges, splits);
    case _ =>
  }

  lemma {:induction false} StopKeepsIntegrity(w: World, pid: Pid, delta: nat, weight: nat, cpuLlc: LlcId)
    requires Loaded(w) && Integrity(w.maps)
    ensures Integrity(Stopped(w, pid, delta, weight, cpuLlc).maps)
  {
    hide Scaled, Charged;
  }

  /** Integrity over whole runs: every mapped cohort has its policy and counters in every state up
      to `n`, if and only if no fork up to there handed down a cohort that had lost its entries. */
  lemma {:induction false} RunsKeepIntegrityWhen(worlds: seq<World>, steps: seq<Step>, n: nat)
    requires IsRun(worlds, steps) && n <= |steps| && Integrity(worlds[0].maps)
    ensures (forall i :: 0 <= i <= n ==> Integrity(worlds[i].maps)) <==>
            (forall i :: 0 <= i < n ==> InheritsLive(worlds[i], steps[i]))
  {
    hide IdsKnown, Enabled, Next, Integrity, InheritsLive;
    if n > 0 {
      RunsKeepIntegrityWhen(worlds, steps, n - 1);
      RunsKeepIds(worlds, steps, n - 1, n - 1);
      assert Leads(worlds[n - 1], steps[n - 1], worlds[n - 1 + 1]);
      if Integrity(worlds[n - 1].maps) { StepKeepsIntegrityWhen(worlds[n - 1], steps[n - 1]); }
    }
  }

  /** A run from boot that breaks it: tasks 4 and 5 start cohorts 1 and 2, a tick merges 2 into 1,
      and task 5, not placed since, forks task 6.  Only the last state is broken. */
  lemma {:induction false} StaleParentBreaksIntegrity() returns (worlds: seq<World>, steps: seq<Step>)
    ensures IsRun(worlds, steps) && |steps| == 4 && worlds[0] == Booted(1)
    ensures steps[0] == Start(4, 10, None, 0) && steps[1] == Start(5, 20, None, 0)
    ensures steps[2] == Tick({}, {}, None, map[], [MergePlan(1, 2)], []) && steps[3] == Start(6, 30, Some(5), 0)
    ensures forall i :: 0 <= i < 4 ==> Integrity(worlds[i].maps)
    ensures !Integrity(worlds[4].maps)
  {
    hide MergedAll, SplitAll, Collected, Zeroed, Assigned, Started, Integrity, IsMatching, PlansOver, Loaded;
    steps := [Start(4, 10, None, 0), Start(5, 20, None, 0),
              Tick({}, {}, None, map[], [MergePlan(1, 2)], []), Start(6, 30, Some(5), 0)];
    var w0 := Booted(1);
    var w1, w2 := BothStarted();
    var w3 := Next(w2, steps[2]);
    MergedAway(w2, steps[2]);
    var w4 := Started(w3, 6, 30, Some(5), 0);
    worlds := [w0, w1, w2, w3, w4];
    assert Leads(w0, steps[0], w1) && Leads(w1, steps[1], w2) && Leads(w2, steps[2], w3);
    assert Leads(w3, steps[3], w4);
    StaleFork(w3, w4);
  }

  lemma {:induction false} StaleFork(w: World, v: World)
    requires w.nrLlcs >= 1 && Integrity(w.maps) && v == Started(w, 6, 30, Some(5), 0)
    requires 30 !in w.maps.tgidCohort && 5 in w.ctxs && w.ctxs[5].cohortId == 2 && 2 !in w.maps.policy
    ensures !Integrity(v.maps)
  {
    hide Integrity;
    ForkKeepsIntegrityWhen(w, 30, Some(5), 0);
  }

  lemma {:induction false} BothStarted() returns (w1: World, w2: World)
    ensures Loaded(Booted(1)) && Integrity(Booted(1).maps) && IdsKnown(Booted(1)) && Booted(1).cohortSeq == 0
    ensures w1 == Started(Booted(1), 4, 10, None, 0) && w1.nrLlcs == 1 && w2 == Started(w1, 5, 20, None, 0)
    ensures Loaded(w1) && Integrity(w1.maps) && w1.cohortSeq == 1
    ensures Loaded(w2) && Integrity(w2.maps) && w2.cohortSeq == 2 && 5 in w2.ctxs && w2.ctxs[5].cohortId == 2
    ensures w2.maps.tgidCohort == map[10 := 1, 20 := 2] && w2.maps.policy.Keys == {1, 2} == w2.maps.counters.Keys
  {
    hide Started, Assigned, Zeroed;
    var w0 := Booted(1);
    w1 := Started(w0, 4, 10, None, 0);
    NewCohort(w0, 4, 10);
    w2 := Started(w1, 5, 20, None, 0);
    NewCohort(w1, 5, 20);
  }

  lemma {:induction false} NewCohort(w: World, pid: Pid, tgid: Tgid)
    requires Loaded(w) && Integrity(w.maps) && tgid !in w.maps.tgidCohort
    ensures var v, id := Started(w, pid, tgid, None, 0), w.cohortSeq + 1;
      && Loaded(v) && v.nrLlcs == w.nrLlcs && Integrity(v.maps) && v.cohortSeq == id
      && pid in v.ctxs && v.ctxs[pid].cohortId == id
      && v.maps.tgidCohort == w.maps.tgidCohort[tgid := id]
      && v.maps.policy.Keys == w.maps.policy.Keys + {id} && v.maps.counters.Keys == w.maps.counters.Keys + {id}
  {
  }

  lemma {:induction false} MergedAway(w: World, a: Step)
    requires Loaded(w) && w.maps.tgidCohort == map[10 := 1, 20 := 2]
    requires w.maps.policy.Keys == {1, 2} == w.maps.counters.Keys
    requires a == Tick({}, {}, None, map[], [MergePlan(1, 2)], [])
    ensures Enabled(w, a)
    ensures var v := Next(w, a);
      && v.maps.tgidCohort == map[10 := 1, 20 := 1] && v.maps.policy.Keys == {1} == v.maps.counters.Keys
      && v.ctxs == w.ctxs && v.cohortSeq == w.cohortSeq && Loaded(v) && v.nrLlcs >= 1 && Integrity(v.maps)
  {
    var m := Collected(w.maps, {}, {}, None);
    assert m == w.maps;
    assert [MergePlan(1, 2)][..0] == [];
    assert MergedAll(m, w.maps.tgidCohort, []) == m;
    assert 10 in w.maps.tgidCohort && 20 in w.maps.tgidCohort;
    assert w.maps.tgidCohort[10] in w.maps.tgidCohort.Values && w.maps.tgidCohort[20] in w.maps.tgidCohort.Values;
  }
}
