/** Keeping the BPF spill map in step with the planner: what `apply_spills` leaves
    behind, when it equals the desired set, and which pid reuse is the exception. */
module SpillSync {
  import opened Domain
  import opened Collections
  import Spill
  import SpillRuns

  type SpillMap = Spill.SpillMap

  /** Desired entries that differ from the last written set. */
  function Changed(current: SpillMap, desired: SpillMap): SpillMap {
    map p | p in desired && !(p in current && current[p] == desired[p]) :: desired[p]
  }

  /** The BPF map after `apply_spills`: changed entries written, dropped ones deleted. */
  function Synced(spill: SpillMap, current: SpillMap, desired: SpillMap): SpillMap {
    (spill + Changed(current, desired)) - (current.Keys - desired.Keys)
  }

  /** Every entry taken for written is really there, and nothing is there that neither set knows. */
  ghost predicate InStep(spill: SpillMap, current: SpillMap, desired: SpillMap) {
    && (forall p :: p in desired && p in current && current[p] == desired[p] ==> p in spill && spill[p] == desired[p])
    && (forall p :: p in spill ==> p in desired || p in current)
  }

  /** The exact condition under which the map ends up as desired. */
  lemma {:induction false} SyncedExactlyWhen(spill: SpillMap, current: SpillMap, desired: SpillMap)
    ensures Synced(spill, current, desired) == desired <==> InStep(spill, current, desired)
  {
    var r := Synced(spill, current, desired);
    if InStep(spill, current, desired) {
      assert forall p :: p in r <==> p in desired;
      assert r == desired;
    }
    if r == desired {
      forall p | p in desired && p in current && current[p] == desired[p] ensures p in spill && spill[p] == desired[p] {
        assert p in r;
      }
      forall p | p in spill ensures p in desired || p in current {
        assert p in desired || p in current.Keys - desired.Keys || p in r;
      }
    }
  }

  // ----- Runs -----

  /** The BPF spill map, the daemon's record of it, the pids with a task_stats entry, and the pids
      that exited since the daemon last wrote or dropped their entry. */
  datatype World = World(spill: SpillMap, current: SpillMap, live: set<Pid>, exited: set<Pid>)

  datatype Step =
    | Start(pid: Pid)
    | Exit(pid: Pid)
    | Tick(cfg: Spill.SpillCfg, llcs: seq<LlcLoad>, cohorts: seq<CohortSnapshot>, tasks: seq<TaskSnapshot>)

  /** Only live tasks exit, and a tick scans live tasks; any pid may start, again or for the first time. */
  ghost predicate Enabled(w: World, a: Step) {
    match a
    case Start(_) => true
    case Exit(p) => p in w.live
    case Tick(_, llcs, _, tasks) => (|llcs| >= 2 ==> Spill.TwoIds(llcs)) && Spill.Pids(tasks) <= w.live
  }

  /** What the planner wants at this tick. */
  function Desired(w: World, a: Step): SpillMap
    requires a.Tick? && Enabled(w, a)
  {
    Spill.Planned(a.cfg, a.llcs, a.cohorts, a.tasks, w.current)
  }

  /** The entries a tick takes for written: wanted again with the target on record. */
  function Unchanged(current: SpillMap, desired: SpillMap): set<Pid> {
    set p | p in current && p in desired && current[p] == desired[p]
  }

  function Next(w: World, a: Step): World
    requires Enabled(w, a)
  {
    match a
    case Start(p) => w.(live := w.live + {p})
    case Exit(p) => w.(spill := w.spill - {p}, live := w.live - {p}, exited := w.exited + {p})
    case Tick(_, _, _, _) =>
      var desired := Desired(w, a);
      w.(spill := Synced(w.spill, w.current, desired), current := desired,
         exited := w.exited * Unchanged(w.current, desired))
  }

  ghost predicate Leads(w: World, a: Step, w': World) {
    Enabled(w, a) && w' == Next(w, a)
  }

  ghost predicate IsRun(worlds: seq<World>, steps: seq<Step>) {
    && |worlds| == |steps| + 1
    && worlds[0] == World(map[], map[], {}, {})
    && forall i :: 0 <= i < |steps| ==> Leads(worlds[i], steps[i], worlds[i + 1])
  }

  /** The map is the daemon's record less the pids that exited behind its back. */
  ghost predicate Agrees(w: World) {
    w.spill == w.current - w.exited
  }

  /** Every step keeps the agreement, and a tick leaves the map as desired exactly when no entry it
      takes for written belongs to a pid that exited since. */
  lemma {:induction false} StepAgrees(w: World, a: Step)
    requires Agrees(w) && Enabled(w, a)
    ensures Agrees(Next(w, a))
    ensures a.Tick? ==> (Next(w, a).spill == Desired(w, a) <==> w.exited !! Unchanged(w.current, Desired(w, a)))
  {
    if a.Tick? {
      hide Desired, Enabled;
      TickAgrees(w.spill, w.current, w.exited, Desired(w, a));
    }
  }

  lemma {:induction false} TickAgrees(spill: SpillMap, current: SpillMap, exited: set<Pid>, desired: SpillMap)
    requires spill == current - exited
    ensures Synced(spill, current, desired) == desired - (exited * Unchanged(current, desired))
    ensures Synced(spill, current, desired) == desired <==> exited !! Unchanged(current, desired)
  {
    SyncedExactlyWhen(spill, current, desired);
    hide Synced;
    assert Synced(spill, current, desired) == desired - (exited * Unchanged(current, desired)) by {
      SyncedMap(spill, current, exited, desired);
    }
  }

  lemma {:induction false} SyncedMap(spill: SpillMap, current: SpillMap, exited: set<Pid>, desired: SpillMap)
    requires spill == current - exited
    ensures Synced(spill, current, desired) == desired - (exited * Unchanged(current, desired))
  {
    var r, s := Synced(spill, current, desired), desired - (exited * Unchanged(current, desired));
    forall p ensures p in r <==> p in s {}
    forall p | p in r ensures r[p] == s[p] {}
    SameMap(r, s);
  }

  /** Spill map agreement over every run, pids reused or not: the map is always the record less the
      pids that exited behind the daemon's back, and a tick leaves it as desired exactly when no
      entry it takes for written belongs to such a pid. */
  lemma {:induction false} RunsAgree(worlds: seq<World>, steps: seq<Step>, n: nat)
    requires IsRun(worlds, steps) && n <= |steps|
    ensures Agrees(worlds[n])
    ensures n > 0 && steps[n - 1].Tick? ==>
      var w := worlds[n - 1];
      worlds[n].spill == worlds[n].current <==> w.exited !! Unchanged(w.current, worlds[n].current)
  {
    hide Enabled, Unchanged, Desired;
    if n > 0 {
      RunsAgree(worlds, steps, n - 1);
      assert Leads(worlds[n - 1], steps[n - 1], worlds[n - 1 + 1]);
      StepAgrees(worlds[n - 1], steps[n - 1]);
    }
  }

  /** No pid comes back while the daemon still holds an entry it had before it exited. */
  ghost predicate NoEarlyReuse(w: World, a: Step) {
    a.Start? ==> !(a.pid in w.exited && a.pid in w.current)
  }

  /** Without such a reuse every tick leaves the map as desired; a pid may come back after the tick
      that dropped it. */
  lemma {:induction false} RunsSync(worlds: seq<World>, steps: seq<Step>, n: nat)
    requires IsRun(worlds, steps) && n <= |steps|
    requires forall i :: 0 <= i < n ==> NoEarlyReuse(worlds[i], steps[i])
    ensures worlds[n].live !! worlds[n].exited * worlds[n].current.Keys
    ensures n > 0 && steps[n - 1].Tick? ==> worlds[n].spill == worlds[n].current
  {
    hide Agrees, Spill.Planned, Spill.TwoIds;
    if n > 0 {
      RunsSync(worlds, steps, n - 1);
      RunsAgree(worlds, steps, n);
      var w, a := worlds[n - 1], steps[n - 1];
      assert Leads(w, a, worlds[n - 1 + 1]) && NoEarlyReuse(w, a);
      if a.Tick? {
        SpillRuns.PlannedFromTasks(a.cfg, a.llcs, a.cohorts, a.tasks, w.current);
      }
    }
  }

  /** A run that breaks it: task 7 is spilled at a tick, exits, and its pid comes back before the
      next tick, which wants it spilled again and finds nothing to write. */
  lemma {:induction false} PidReuseBreaksSync() returns (worlds: seq<World>, steps: seq<Step>, tick: Step)
    ensures tick.Tick? && steps == [Start(7), tick, Exit(7), Start(7), tick]
    ensures IsRun(worlds, steps)
    ensures worlds[2].spill == worlds[2].current == map[7 := 1]
    ensures worlds[5].current == map[7 := 1] && worlds[5].spill == map[]
  {
    hide Spill.Planned, Spill.TwoIds;
    var llcs, cohort, task := OverloadedTick();
    tick := Tick(Spill.SpillCfg(95, 75, 25, 200), llcs, [cohort], [task]);
    steps := [Start(7), tick, Exit(7), Start(7), tick];
    var w0 := World(map[], map[], {}, {});
    var w1 := World(map[], map[], {7}, {});
    var w2 := World(map[7 := 1], map[7 := 1], {7}, {});
    var w3 := World(map[], map[7 := 1], {}, {7});
    var w4 := World(map[], map[7 := 1], {7}, {7});
    worlds := [w0, w1, w2, w3, w4, w4];
    assert Leads(w0, steps[0], w1);
    assert Leads(w1, steps[1], w2);
    assert Leads(w2, steps[2], w3);
    assert Leads(w3, steps[3], w4);
    assert Leads(w4, steps[4], w4);
  }

  /** One cold task of an overloaded cohort: spilled at the first tick, kept at the next. */
  lemma {:induction false} OverloadedTick() returns (llcs: seq<LlcLoad>, cohort: CohortSnapshot, task: TaskSnapshot)
    ensures |llcs| >= 2 && Spill.TwoIds(llcs) && task.pid == 7
    ensures Spill.Planned(Spill.SpillCfg(95, 75, 25, 200), llcs, [cohort], [task], map[]) == map[7 := 1]
    ensures Spill.Planned(Spill.SpillCfg(95, 75, 25, 200), llcs, [cohort], [task], map[7 := 1]) == map[7 := 1]
  {
    llcs := [LlcLoad(0, 100, 100), LlcLoad(1, 0, 100)];
    cohort := CohortSnapshot(1, 0, false, 1, 100, None);
    task := TaskSnapshot(7, 3, 1, 10, 10);
    assert llcs[0].llc != llcs[1].llc;
    TaskSpilled(llcs, cohort, task, map[]);
    TaskSpilled(llcs, cohort, task, map[7 := 1]);
  }

  lemma {:induction false} TaskSpilled(llcs: seq<LlcLoad>, cohort: CohortSnapshot, task: TaskSnapshot,
      current: SpillMap)
    requires llcs == [LlcLoad(0, 100, 100), LlcLoad(1, 0, 100)] && Spill.TwoIds(llcs)
    requires cohort == CohortSnapshot(1, 0, false, 1, 100, None) && task == TaskSnapshot(7, 3, 1, 10, 10)
    requires current == map[] || current == map[7 := 1]
    ensures Spill.Planned(Spill.SpillCfg(95, 75, 25, 200), llcs, [cohort], [task], current) == map[7 := 1]
  {
    hide Spill.Planned, Spill.Grown, Spill.Capacities, Spill.Target;
    var cfg := Spill.SpillCfg(95, 75, 25, 200);
    var t := SpillRuns.Tick(llcs, [cohort], [task]);
    var caps := Spill.Capacities(llcs);
    SpillRuns.HomeCapacity(llcs);
    SpillRuns.PlannedFromTasks(cfg, llcs, [cohort], [task], current);
    assert SpillRuns.ValidTick(t) && SpillRuns.Watched(t, cohort, task);
    SpillRuns.TaskFate(cfg, t, current, cohort, task);
    var desired := Spill.Planned(cfg, llcs, [cohort], [task], current);
    if current == map[] {
      assert Spill.Cold(cfg, task);
      assert SpillRuns.ColdPids(cfg, t, 1) == {7};
      var q := SpillRuns.SomeoneJoins(cfg, t, current, cohort, 1, {7}, 7);
      ForeignTarget(llcs);
    }
    assert desired.Keys == {7};
  }

  lemma {:induction false} ForeignTarget(llcs: seq<LlcLoad>)
    requires llcs == [LlcLoad(0, 100, 100), LlcLoad(1, 0, 100)] && Spill.TwoIds(llcs)
    ensures Spill.Target(llcs, 0) == 1
  {
    Spill.TargetIsLeast(llcs, 0);
  }
}
