/** Conservation of charged runtime over any interleaving of BPF callbacks and
    daemon steps, and the home share of a task's runtime. */
module LoadLedger {
  import opened Domain
  import opened Collections
  import opened DaemonMaps
  import opened FastPath
  import Balancer

  /** One atomic step of either side. */
  datatype Step =
    | Place(pid: Pid, cpuLlc: LlcId)
    | Stop(pid: Pid, delta: nat, weight: nat, cpuLlc: LlcId)
    | Start(pid: Pid, tgid: Tgid, parent: Option<Pid>, rr: nat)
    | Exit(pid: Pid)
    | Collect(deadTgids: set<Tgid>, deadCohorts: set<CohortId>, decision: Option<Decision>)
    | Merge(tc: map<Tgid, CohortId>, merge: MergePlan)
    | Split(split: SplitPlan)
    | Spills(desired: map<Pid, LlcId>)

  /** BPF ids stay below the daemon's base; everything else can always happen. */
  ghost predicate Enabled(w: World, a: Step) {
    Loaded(w) && (a.Start? ==> w.cohortSeq + 1 < DAEMON_COHORT_BASE)
  }

  function Next(w: World, a: Step): World
    requires Loaded(w)
  {
    match a
    case Place(pid, cpuLlc) => Placed(w, pid, cpuLlc)
    case Stop(pid, delta, weight, cpuLlc) => Stopped(w, pid, delta, weight, cpuLlc)
    case Start(pid, tgid, parent, rr) => Started(w, pid, tgid, parent, rr)
    case Exit(pid) => Exited(w, pid)
    case Collect(deadT, deadC, d) => w.(maps := Collected(w.maps, deadT, deadC, d))
    case Merge(tc, p) => w.(maps := Merged(w.maps, tc, p))
    case Split(p) => w.(maps := SplitApplied(w.maps, w.daemonSeq, p), daemonSeq := SeqAfter(w.maps, w.daemonSeq, p))
    case Spills(desired) => w.(spill := desired)
  }

  // ----- Conservation -----

  /** What a step takes out of the live counters: deleted entries, and runtime stopped on an absent cohort. */
  ghost function RetiredBy(w: World, a: Step): nat {
    match a
    case Stop(pid, delta, weight, _) =>
      if pid in w.ctxs && w.ctxs[pid].cohortId !in w.maps.counters then Scaled(delta, weight) else 0
    case Collect(_, deadC, _) => Total(Restrict(w.maps.counters, deadC))
    case Merge(_, p) =>
      if p.into in w.maps.counters && p.from in w.maps.counters then w.maps.counters[p.from] else 0
    case _ => 0
  }

  function Restrict(m: map<CohortId, nat>, keys: set<CohortId>): map<CohortId, nat> {
    map k | k in m && k in keys :: m[k]
  }

  lemma {:induction false} TotalSplits(m: map<CohortId, nat>, keys: set<CohortId>)
    ensures Total(m) == Total(m - keys) + Total(Restrict(m, keys))
    decreases keys
  {
    if keys == {} {
      assert m - keys == m && Restrict(m, keys) == map[];
    } else {
      var k :| k in keys;
      var keys' := keys - {k};
      TotalSplits(m, keys');
      assert m - keys == m - keys' - {k};
      if k in m {
        TotalTake(m - keys', k);
        TotalTake(Restrict(m, keys), k);
        assert Restrict(m, keys) - {k} == Restrict(m, keys');
      } else {
        assert m - keys' - {k} == m - keys';
        assert Restrict(m, keys) == Restrict(m, keys');
      }
    }
  }

  /** One step moves the two totals together, up to what it retires. */
  lemma {:induction false} StepConserves(w: World, a: Step)
    requires Enabled(w, a) && IdsKnown(w)
    ensures Loaded(Next(w, a))
    ensures Total(Next(w, a).llcLoad) + Total(w.maps.counters) ==
            Total(w.llcLoad) + Total(Next(w, a).maps.counters) + RetiredBy(w, a)
  {
    var m := w.maps.counters;
    match a
    case Stop(pid, delta, weight, cpuLlc) =>
      StopConserves(w, pid, delta, weight, cpuLlc);
    case Start(pid, tgid, parent, rr) =>
      StartConserves(w, pid, tgid, parent, rr);
    case Collect(deadT, deadC, d) =>
      TotalSplits(m, deadC);
    case Merge(tc, p) =>
      if p.into in m && p.from in m { TotalTake(m, p.from); }
    case Split(p) =>
      assert DAEMON_COHORT_BASE + w.daemonSeq !in m;
      TotalUpdate<CohortId>(m, DAEMON_COHORT_BASE + w.daemonSeq, 0);
    case _ =>
  }

  /** No step names a cohort that was not handed out. */
  lemma {:induction false} StepKeepsIds(w: World, a: Step)
    requires Enabled(w, a) && IdsKnown(w)
    ensures IdsKnown(Next(w, a))
  {
    match a
    case Place(pid, cpuLlc) => PlacedKeepsIds(w, pid, cpuLlc);
    case Stop(pid, delta, weight, cpuLlc) => StoppedKeepsIds(w, pid, delta, weight, cpuLlc);
    case Start(pid, tgid, parent, rr) => ForkKeepsIdSpaces(w, pid, tgid, parent, rr);
    case Split(p) => SplitKeepsIds(w.maps, w.cohortSeq, w.daemonSeq, p);
    case _ => hide Allocated;
  }

  lemma {:induction false} StopConserves(w: World, pid: Pid, delta: nat, weight: nat, cpuLlc: LlcId)
    requires Loaded(w)
    ensures var v := Stopped(w, pid, delta, weight, cpuLlc);
      && Loaded(v)
      && Total(v.llcLoad) + Total(w.maps.counters) ==
         Total(w.llcLoad) + Total(v.maps.counters) + RetiredBy(w, Stop(pid, delta, weight, cpuLlc))
  {
    hide Total, Scaled, Charged;
    if pid in w.ctxs {
      var c, llc, scaled := w.ctxs[pid].cohortId, SafeLlc(w, cpuLlc), Scaled(delta, weight);
      TotalUpdate(w.llcLoad, llc, w.llcLoad[llc] + scaled);
      if c in w.maps.counters { TotalUpdate(w.maps.counters, c, w.maps.counters[c] + scaled); }
    }
  }

  lemma {:induction false} StartConserves(w: World, pid: Pid, tgid: Tgid, parent: Option<Pid>, rr: nat)
    requires Loaded(w)
    ensures var v := Started(w, pid, tgid, parent, rr);
      Loaded(v) && v.llcLoad == w.llcLoad && Total(v.maps.counters) == Total(w.maps.counters)
  {
    hide Total;
    TotalUpdate<CohortId>(w.maps.counters, w.cohortSeq + 1, 0);
  }

  // ----- Runs -----

  ghost predicate Leads(w: World, a: Step, w': World) {
    Enabled(w, a) && w' == Next(w, a)
  }

  /** Callbacks and daemon steps in any order, from a world whose cohort ids have all been handed out. */
  ghost predicate IsRun(worlds: seq<World>, steps: seq<Step>) {
    && |worlds| == |steps| + 1 && IdsKnown(worlds[0])
    && forall i :: 0 <= i < |steps| ==> Leads(worlds[i], steps[i], worlds[i + 1])
  }

  lemma {:induction false} RunsKeepIds(worlds: seq<World>, steps: seq<Step>, n: nat)
    requires IsRun(worlds, steps) && n <= |steps|
    ensures IdsKnown(worlds[n])
  {
    hide IdsKnown, Enabled, Next;
    if n > 0 {
      RunsKeepIds(worlds, steps, n - 1);
      assert Leads(worlds[n - 1], steps[n - 1], worlds[n - 1 + 1]);
      StepKeepsIds(worlds[n - 1], steps[n - 1]);
    }
  }

  /** Everything retired in the first `n` steps. */
  ghost function Retired(worlds: seq<World>, steps: seq<Step>, n: nat): nat
    requires n <= |steps| < |worlds|
  {
    if n == 0 then 0 else Retired(worlds, steps, n - 1) + RetiredBy(worlds[n - 1], steps[n - 1])
  }

  /** Load conservation: from a balanced start, the executed load of all LLCs is always the live
      cohorts' demand plus what has been retired. */
  lemma {:induction false} LoadConserved(worlds: seq<World>, steps: seq<Step>, n: nat)
    requires IsRun(worlds, steps) && n <= |steps|
    requires Total(worlds[0].llcLoad) == Total(worlds[0].maps.counters)
    ensures Total(worlds[n].llcLoad) == Total(worlds[n].maps.counters) + Retired(worlds, steps, n)
  {
    hide Total, RetiredBy, Next, Enabled, IdsKnown;
    if n > 0 {
      LoadConserved(worlds, steps, n - 1);
      RunsKeepIds(worlds, steps, n - 1);
      assert Leads(worlds[n - 1], steps[n - 1], worlds[n - 1 + 1]);
      StepConserves(worlds[n - 1], steps[n - 1]);
    }
  }

  // ----- The home share of a task's runtime -----

  /** Runtime spent away from home. */
  function Away(s: TaskStat): int {
    s.runtime - s.runtimeHome
  }

  /** A task that is not started again in steps `[i, j)`. */
  ghost predicate NotRestarted(steps: seq<Step>, pid: Pid, i: nat, j: nat)
    requires i <= j <= |steps|
  {
    forall k :: i <= k < j ==> !(steps[k].Start? && steps[k].pid == pid)
  }

  lemma {:induction false} StatStep(w: World, a: Step, pid: Pid)
    requires Enabled(w, a) && !(a.Start? && a.pid == pid)
    ensures pid in Next(w, a).stats ==>
      && pid in w.stats
      && w.stats[pid].runtime <= Next(w, a).stats[pid].runtime
      && w.stats[pid].runtimeHome <= Next(w, a).stats[pid].runtimeHome
      && Away(w.stats[pid]) <= Away(Next(w, a).stats[pid])
  {
    hide Scaled, Integrity;
  }

  /** Between any two moments without a restart, home runtime grows, and no faster than runtime: the
      part spent away does not shrink. */
  lemma {:induction false} HomeGrowsSlower(worlds: seq<World>, steps: seq<Step>, pid: Pid, i: nat, j: nat)
    requires IsRun(worlds, steps) && i <= j <= |steps| && NotRestarted(steps, pid, i, j)
    ensures pid in worlds[j].stats ==>
      && pid in worlds[i].stats
      && worlds[i].stats[pid].runtime <= worlds[j].stats[pid].runtime
      && worlds[i].stats[pid].runtimeHome <= worlds[j].stats[pid].runtimeHome
      && Away(worlds[i].stats[pid]) <= Away(worlds[j].stats[pid])
    decreases j - i
  {
    hide Next, Enabled;
    if i < j {
      HomeGrowsSlower(worlds, steps, pid, i, j - 1);
      assert Leads(worlds[j - 1], steps[j - 1], worlds[j - 1 + 1]);
      StatStep(worlds[j - 1], steps[j - 1], pid);
    }
  }

  /** Home runtime never exceeds runtime, for every task in every run. */
  lemma {:induction false} HomeWithinRuntime(worlds: seq<World>, steps: seq<Step>, pid: Pid, n: nat)
    requires IsRun(worlds, steps) && n <= |steps| && worlds[0].stats == map[]
    ensures pid in worlds[n].stats ==> worlds[n].stats[pid].runtimeHome <= worlds[n].stats[pid].runtime
  {
    if n > 0 {
      HomeWithinRuntime(worlds, steps, pid, n - 1);
      var w, a := worlds[n - 1], steps[n - 1];
      assert Leads(w, a, worlds[n - 1 + 1]);
      if a.Start? && a.pid == pid {
        StartedFresh(w, pid, a.tgid, a.parent, a.rr);
      } else {
        StatStep(w, a, pid);
      }
      hide Next, Enabled;
    }
  }

  lemma {:induction false} StartedFresh(w: World, pid: Pid, tgid: Tgid, parent: Option<Pid>, rr: nat)
    requires w.nrLlcs >= 1
    ensures var v := Started(w, pid, tgid, parent, rr);
      pid in v.stats && v.stats[pid].runtime == 0 && v.stats[pid].runtimeHome == 0
  {
  }

  // ----- The daemon's per-tick view -----

  /** `snapshot_tasks`: deltas against the previous tick's sums; a first sighting shows zero. */
  function Delta(prev: map<Pid, (nat, nat)>, pid: Pid, s: TaskStat): (r: (nat, nat))
    ensures pid !in prev ==> r == (0, 0)
    ensures pid in prev && prev[pid].0 <= s.runtime ==> prev[pid].0 + r.0 == s.runtime
    ensures pid in prev && prev[pid].1 <= s.runtimeHome ==> prev[pid].1 + r.1 == s.runtimeHome
    ensures pid in prev ==> (prev[pid].0 > s.runtime ==> r.0 == 0) && (prev[pid].1 > s.runtimeHome ==> r.1 == 0)
  {
    var p := if pid in prev then prev[pid] else (s.runtime, s.runtimeHome);
    (Balancer.SaturatingSub(s.runtime, p.0), Balancer.SaturatingSub(s.runtimeHome, p.1))
  }

  function Sums(stats: map<Pid, TaskStat>): map<Pid, (nat, nat)> {
    map p | p in stats :: (stats[p].runtime, stats[p].runtimeHome)
  }

  /** Per tick, a task's home time is within its duty, as long as its entry was not re-created. */
  lemma {:induction false} HomeWithinDuty(worlds: seq<World>, steps: seq<Step>, pid: Pid, i: nat, j: nat)
    requires IsRun(worlds, steps) && i <= j <= |steps| && pid in worlds[j].stats
    requires pid in worlds[i].stats ==> NotRestarted(steps, pid, i, j)
    ensures var (duty, home) := Delta(Sums(worlds[i].stats), pid, worlds[j].stats[pid]); home <= duty
    ensures pid in worlds[i].stats ==>
      Delta(Sums(worlds[i].stats), pid, worlds[j].stats[pid]).0 ==
        worlds[j].stats[pid].runtime - worlds[i].stats[pid].runtime
  {
    hide Next, Enabled;
    if pid in worlds[i].stats { HomeGrowsSlower(worlds, steps, pid, i, j); }
  }

  /** Home time is within duty exactly when the home sum did not grow, or the away sum did not
      shrink, since the previous sums; for any two entries, re-created or not. */
  lemma {:induction false} DutyExactlyWhen(prev: map<Pid, TaskStat>, pid: Pid, s: TaskStat)
    ensures var (duty, home) := Delta(Sums(prev), pid, s);
      home <= duty <==> pid in prev ==> s.runtimeHome <= prev[pid].runtimeHome || Away(s) >= Away(prev[pid])
  {
  }

  /** Over every run from a world without tasks and any two of its moments: home time is within
      duty exactly when the home sum did not grow or the away sum did not shrink; both are real
      amounts, never negative; and where it is not, the task was started again in between. */
  lemma {:induction false} HomeWithinDutyExactlyWhen(worlds: seq<World>, steps: seq<Step>, pid: Pid, i: nat, j: nat)
    requires IsRun(worlds, steps) && worlds[0].stats == map[] && i <= j <= |steps|
    requires pid in worlds[i].stats && pid in worlds[j].stats
    ensures var s, t := worlds[i].stats[pid], worlds[j].stats[pid];
      var (duty, home) := Delta(Sums(worlds[i].stats), pid, t);
      && 0 <= Away(s) && 0 <= Away(t)
      && (home <= duty <==> t.runtimeHome <= s.runtimeHome || Away(s) <= Away(t))
      && (home > duty ==> !NotRestarted(steps, pid, i, j))
  {
    hide Next, Enabled, IdsKnown, Leads, NotRestarted;
    HomeWithinRuntime(worlds, steps, pid, i);
    HomeWithinRuntime(worlds, steps, pid, j);
    DutyExactlyWhen(worlds[i].stats, pid, worlds[j].stats[pid]);
    if NotRestarted(steps, pid, i, j) { HomeWithinDuty(worlds, steps, pid, i, j); }
  }

  /** A run from boot in which it is not: task 7 runs 100 away from home, exits, and its pid comes
      back and runs 50 at home.  Against the sums seen before the exit, its duty is 0 and its home
      time 50. */
  lemma {:induction false} RecreatedEntryBreaksDuty() returns (worlds: seq<World>, steps: seq<Step>)
    ensures IsRun(worlds, steps) && worlds[0] == Booted(2)
    ensures steps == [Start(7, 3, None, 0), Stop(7, 100, 100, 1), Exit(7), Start(7, 3, None, 0), Stop(7, 50, 100, 0)]
    ensures 7 in worlds[2].stats && 7 in worlds[5].stats
    ensures Delta(Sums(worlds[2].stats), 7, worlds[5].stats[7]) == (0, 50)
  {
    hide Zeroed, Assigned, Scaled;
    steps := [Start(7, 3, None, 0), Stop(7, 100, 100, 1), Exit(7), Start(7, 3, None, 0), Stop(7, 50, 100, 0)];
    var w0 := Booted(2);
    var w1 := Next(w0, steps[0]);
    FirstStop(w0, w1, 100, 1);
    var w2 := Next(w1, steps[1]);
    var w3 := Next(w2, steps[2]);
    var w4 := Next(w3, steps[3]);
    FirstStop(w3, w4, 50, 0);
    var w5 := Next(w4, steps[4]);
    worlds := [w0, w1, w2, w3, w4, w5];
    assert Leads(w0, steps[0], w1) && Leads(w1, steps[1], w2) && Leads(w2, steps[2], w3);
    assert Leads(w3, steps[3], w4) && Leads(w4, steps[4], w5);
  }

  lemma {:induction false} FirstStop(w: World, v: World, delta: nat, llc: LlcId)
    requires Loaded(w) && w.nrLlcs == 2 && llc < 2 && v == Started(w, 7, 3, None, 0)
    ensures Loaded(v) && v.nrLlcs == 2 && v.cohortSeq <= w.cohortSeq + 1 && 7 in v.ctxs && 7 in v.stats
    ensures var s := Stopped(v, 7, delta, 100, llc);
      Loaded(s) && s.nrLlcs == 2 && s.cohortSeq == v.cohortSeq && 7 in s.ctxs && 7 in s.stats
      && s.stats[7].runtime == delta && s.stats[7].runtimeHome == (if llc == 0 then delta else 0)
  {
    hide Scaled;
  }
}
