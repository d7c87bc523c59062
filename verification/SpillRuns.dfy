/** What the spill planner guarantees a task: hysteresis, sticky targets and
    coldest-first growth, over any run of ticks. */
module SpillRuns {
  import opened Domain
  import opened Collections
  import opened Spill

  /** One tick's snapshots. */
  datatype Tick = Tick(llcs: seq<LlcLoad>, cohorts: seq<CohortSnapshot>, tasks: seq<TaskSnapshot>)

  /** At least two LLCs, no cohort id twice, no pid twice. */
  ghost predicate ValidTick(t: Tick) {
    && |t.llcs| >= 2 && TwoIds(t.llcs)
    && (forall i, j :: 0 <= i < j < |t.cohorts| ==> t.cohorts[i].id != t.cohorts[j].id)
    && (forall i, j :: 0 <= i < j < |t.tasks| ==> t.tasks[i].pid != t.tasks[j].pid)
  }

  ghost function After(cfg: SpillCfg, t: Tick, current: SpillMap): SpillMap
    requires ValidTick(t)
  {
    Planned(cfg, t.llcs, t.cohorts, t.tasks, current)
  }

  // ----- Whose tasks a cohort spills -----

  lemma {:induction false} SpillsOwnMembers(cfg: SpillCfg, llcs: seq<LlcLoad>, c: CohortSnapshot,
      tasks: seq<TaskSnapshot>, current: SpillMap, p: Pid)
    requires TwoIds(llcs) && p in CohortSpills(cfg, llcs, c, tasks, current)
    ensures exists t :: t in tasks && t.pid == p && t.cohortId == c.id
  {
    hide Mark, Target, Capacities, TwoIds, Grown;
    var cap := Capacities(llcs)[c.homeLlc];
    if p !in Already(tasks, c.id, current) {
      var g := Grown(cfg, c.id, current, tasks, c.load - Mark(cap, cfg.highPct));
      var t :| t in g && t.pid == p;
      GrownEligible(cfg, c.id, current, tasks, c.load - Mark(cap, cfg.highPct), t);
    }
  }

  lemma {:induction false} GrownEligible(cfg: SpillCfg, c: CohortId, current: SpillMap, tasks: seq<TaskSnapshot>,
      excess: nat, t: TaskSnapshot)
    requires t in Grown(cfg, c, current, tasks, excess)
    ensures t in tasks && Eligible(cfg, c, current, tasks, t)
  {
    hide SortBy, Eligible;
    var e := Eligibles(cfg, c, current, tasks, |tasks|);
    SameMembers(SortBy(e, Duty), e);
    assert tasks[..|tasks|] == tasks;
  }

  /** Planned pids always come from the task snapshot. */
  lemma {:induction false} PlannedFromTasks(cfg: SpillCfg, llcs: seq<LlcLoad>, cohorts: seq<CohortSnapshot>,
      tasks: seq<TaskSnapshot>, current: SpillMap)
    requires |llcs| >= 2 ==> TwoIds(llcs)
    ensures Planned(cfg, llcs, cohorts, tasks, current).Keys <= Pids(tasks)
  {
    if |llcs| >= 2 {
      PlannedToFromTasks(cfg, llcs, cohorts, tasks, current, |cohorts|);
    }
  }

  lemma {:induction false} PlannedToFromTasks(cfg: SpillCfg, llcs: seq<LlcLoad>, cohorts: seq<CohortSnapshot>,
      tasks: seq<TaskSnapshot>, current: SpillMap, n: nat)
    requires TwoIds(llcs) && n <= |cohorts|
    ensures PlannedTo(cfg, llcs, cohorts, tasks, current, n).Keys <= Pids(tasks)
  {
    hide CohortSpills, TwoIds;
    if n > 0 {
      PlannedToFromTasks(cfg, llcs, cohorts, tasks, current, n - 1);
      forall p | p in CohortSpills(cfg, llcs, cohorts[n - 1], tasks, current) ensures p in Pids(tasks) {
        SpillsOwnMembers(cfg, llcs, cohorts[n - 1], tasks, current, p);
      }
    }
  }

  lemma {:induction false} SamePid(t: Tick, u: TaskSnapshot, v: TaskSnapshot)
    requires ValidTick(t) && u in t.tasks && v in t.tasks && u.pid == v.pid
    ensures u == v
  {
    var i :| 0 <= i < |t.tasks| && t.tasks[i] == u;
    var j :| 0 <= j < |t.tasks| && t.tasks[j] == v;
  }

  /** A member's fate is decided by its own cohort. */
  lemma {:induction false} OwnCohortDecides(cfg: SpillCfg, t: Tick, current: SpillMap, k: nat, n: nat, u: TaskSnapshot)
    requires ValidTick(t) && k < |t.cohorts| && n <= |t.cohorts|
    requires u in t.tasks && u.cohortId == t.cohorts[k].id
    ensures var all, own := PlannedTo(cfg, t.llcs, t.cohorts, t.tasks, current, n),
        CohortSpills(cfg, t.llcs, t.cohorts[k], t.tasks, current);
      && (u.pid in all <==> k < n && u.pid in own)
      && (u.pid in all ==> all[u.pid] == own[u.pid])
  {
    hide CohortSpills, TwoIds;
    if n > 0 {
      OwnCohortDecides(cfg, t, current, k, n - 1, u);
      if n - 1 != k && u.pid in CohortSpills(cfg, t.llcs, t.cohorts[n - 1], t.tasks, current) {
        SpillsOwnMembers(cfg, t.llcs, t.cohorts[n - 1], t.tasks, current, u.pid);
        var v :| v in t.tasks && v.pid == u.pid && v.cohortId == t.cohorts[n - 1].id;
        SamePid(t, u, v);
        assert false;
      }
    }
  }

  // ----- One tick, one task -----

  /** `u` is a live task of the snapshotted cohort `c`, whose home LLC is known. */
  ghost predicate Watched(t: Tick, c: CohortSnapshot, u: TaskSnapshot) {
    && c in t.cohorts && c.homeLlc in Capacities(t.llcs)
    && u in t.tasks && u.cohortId == c.id
  }

  function LowMark(cfg: SpillCfg, t: Tick, c: CohortSnapshot): nat
    requires c.homeLlc in Capacities(t.llcs)
  {
    Mark(Capacities(t.llcs)[c.homeLlc], cfg.lowPct)
  }

  function HighMark(cfg: SpillCfg, t: Tick, c: CohortSnapshot): nat
    requires c.homeLlc in Capacities(t.llcs)
  {
    Mark(Capacities(t.llcs)[c.homeLlc], cfg.highPct)
  }

  /** The planned set seen from one watched task. */
  lemma {:induction false} TaskFate(cfg: SpillCfg, t: Tick, current: SpillMap, c: CohortSnapshot, u: TaskSnapshot)
    requires ValidTick(t) && Watched(t, c, u)
    ensures u.pid in current ==>
      && (u.pid in After(cfg, t, current) <==> c.load >= LowMark(cfg, t, c))
      && (u.pid in After(cfg, t, current) ==> After(cfg, t, current)[u.pid] == current[u.pid])
    ensures u.pid !in current ==>
      && (u.pid in After(cfg, t, current) <==>
            && c.load >= LowMark(cfg, t, c) && c.load > HighMark(cfg, t, c)
            && u in Grown(cfg, c.id, current, t.tasks, c.load - HighMark(cfg, t, c)))
      && (u.pid in After(cfg, t, current) ==> After(cfg, t, current)[u.pid] == Target(t.llcs, c.homeLlc))
  {
    hide Capacities, TwoIds, Mark, Target, Grown;
    var k :| 0 <= k < |t.cohorts| && t.cohorts[k] == c;
    OwnCohortDecides(cfg, t, current, k, |t.cohorts|, u);
    if c.load >= HighMark(cfg, t, c) {
      GrownHolds(cfg, t, current, c.id, c.load - HighMark(cfg, t, c), u);
    }
  }

  lemma {:induction false} GrownHolds(cfg: SpillCfg, t: Tick, current: SpillMap, c: CohortId, excess: nat,
      u: TaskSnapshot)
    requires ValidTick(t) && u in t.tasks && u.cohortId == c
    ensures u.pid in Pids(Grown(cfg, c, current, t.tasks, excess)) <==> u in Grown(cfg, c, current, t.tasks, excess)
    ensures u in Grown(cfg, c, current, t.tasks, excess) ==> u.pid !in current && excess > 0
  {
    hide Capacities, TwoIds, Grown, ValidTick;
    var g := Grown(cfg, c, current, t.tasks, excess);
    if u.pid in Pids(g) {
      var v :| v in g && v.pid == u.pid;
      GrownEligible(cfg, c, current, t.tasks, excess, v);
      SamePid(t, u, v);
    }
    if excess == 0 { NothingGrown(cfg, c, current, t.tasks); }
  }

  lemma {:induction false} NothingGrown(cfg: SpillCfg, c: CohortId, current: SpillMap, tasks: seq<TaskSnapshot>)
    ensures Grown(cfg, c, current, tasks, 0) == []
  {
  }

  /** The fate of a task in plain numbers, for a home of capacity `cap`: a spilled one stays, at its target,
      unless one unit more of load would still not pass the low share; a task joins only if the load passes the
      high share and its duty is under the cold ceiling, and then goes to the least loaded other LLC. */
  lemma {:induction false} FateMeans(cfg: SpillCfg, t: Tick, current: SpillMap, c: CohortSnapshot,
      u: TaskSnapshot, cap: nat)
    requires ValidTick(t) && Watched(t, c, u) && cap == Capacities(t.llcs)[c.homeLlc]
    ensures var next := After(cfg, t, current);
      && (u.pid in current ==> (u.pid !in next <==> 100 * (c.load + 1) <= cap * cfg.lowPct))
      && (u.pid in current && u.pid in next ==> next[u.pid] == current[u.pid])
      && (u.pid !in current && u.pid in next ==>
            && 100 * c.load > cap * cfg.highPct && 100 * (u.duty + 1) <= cfg.tickNs * cfg.coldMaxPct
            && next[u.pid] != c.homeLlc
            && exists l :: l in t.llcs && l.llc == next[u.pid] && LeastForeign(t.llcs, c.homeLlc, l))
  {
    hide Capacities, TwoIds, Target, Grown, After, Mark;
    TaskFate(cfg, t, current, c, u);
    MarkMeans(cap, cfg.lowPct, c.load);
    MarkMeans(cap, cfg.highPct, c.load);
    if u.pid !in current && u.pid in After(cfg, t, current) {
      GrownEligible(cfg, c.id, current, t.tasks, c.load - HighMark(cfg, t, c), u);
      ColdMeans(cfg, u);
      TargetIsLeast(t.llcs, c.homeLlc);
    }
  }

  predicate LeastForeign(llcs: seq<LlcLoad>, home: LlcId, l: LlcLoad) {
    forall m :: m in llcs && m.llc != home ==> l.load <= m.load
  }

  lemma {:induction false} MarkMeans(cap: nat, pct: nat, load: nat)
    ensures load < Mark(cap, pct) <==> 100 * (load + 1) <= cap * pct
    ensures load > Mark(cap, pct) <==> 100 * load > cap * pct
  {
  }

  /** Only tasks of snapshotted cohorts with a known home are ever spilled. */
  lemma {:induction false} OnlyWatchedSpill(cfg: SpillCfg, t: Tick, current: SpillMap, p: Pid)
    requires ValidTick(t) && p in After(cfg, t, current)
    ensures exists c, u :: Watched(t, c, u) && u.pid == p
  {
    hide CohortSpills, TwoIds;
    SomeCohortSpills(cfg, t, current, p, |t.cohorts|);
  }

  lemma {:induction false} KnownHome(cfg: SpillCfg, llcs: seq<LlcLoad>, c: CohortSnapshot,
      tasks: seq<TaskSnapshot>, current: SpillMap, p: Pid)
    requires TwoIds(llcs) && p in CohortSpills(cfg, llcs, c, tasks, current)
    ensures c.homeLlc in Capacities(llcs)
  {
    hide Capacities, Grown, Target, TwoIds;
  }

  lemma {:induction false} SomeCohortSpills(cfg: SpillCfg, t: Tick, current: SpillMap, p: Pid, n: nat)
    requires ValidTick(t) && n <= |t.cohorts| && p in PlannedTo(cfg, t.llcs, t.cohorts, t.tasks, current, n)
    ensures exists c, u :: Watched(t, c, u) && u.pid == p
  {
    hide Capacities, TwoIds, CohortSpills;
    var c := t.cohorts[n - 1];
    if p in CohortSpills(cfg, t.llcs, c, t.tasks, current) {
      SpillsOwnMembers(cfg, t.llcs, c, t.tasks, current, p);
      KnownHome(cfg, t.llcs, c, t.tasks, current, p);
      var u :| u in t.tasks && u.pid == p && u.cohortId == c.id;
      assert Watched(t, c, u);
    } else {
      SomeCohortSpills(cfg, t, current, p, n - 1);
    }
  }

  // ----- Hysteresis over runs -----

  ghost predicate IsRun(cfg: SpillCfg, ticks: seq<Tick>, spills: seq<SpillMap>) {
    && |spills| == |ticks| + 1
    && (forall i :: 0 <= i < |ticks| ==> ValidTick(ticks[i]))
    && (forall i, j :: 0 <= i < |ticks| && j == i + 1 ==> spills[j] == After(cfg, ticks[i], spills[i]))
  }

  /** A task the planner sees throughout: as snapshot `us[i]` in cohort `cs[i]` at tick i. */
  ghost predicate Follows(ticks: seq<Tick>, cs: seq<CohortSnapshot>, us: seq<TaskSnapshot>, p: Pid) {
    && |cs| == |ticks| && |us| == |ticks|
    && forall i :: 0 <= i < |ticks| ==> Watched(ticks[i], cs[i], us[i]) && us[i].pid == p
  }

  /** Once in, a task leaves only on a tick whose load is below the low mark; until then its target stands. */
  lemma {:induction false} LeavesOnlyBelowLow(cfg: SpillCfg, ticks: seq<Tick>, spills: seq<SpillMap>,
      cs: seq<CohortSnapshot>, us: seq<TaskSnapshot>, p: Pid, a: nat, b: nat)
    requires IsRun(cfg, ticks, spills) && Follows(ticks, cs, us, p) && a <= b <= |ticks|
    requires p in spills[a]
    requires forall i :: a <= i < b ==> cs[i].load >= LowMark(cfg, ticks[i], cs[i])
    ensures p in spills[b] && spills[b][p] == spills[a][p]
    decreases b
  {
    hide After, LowMark, Capacities, TwoIds;
    if a < b {
      LeavesOnlyBelowLow(cfg, ticks, spills, cs, us, p, a, b - 1);
      TaskFate(cfg, ticks[b - 1], spills[b - 1], cs[b - 1], us[b - 1]);
    }
  }

  /** A task enters only on a tick whose load is above the high mark, as one of its coldest
      members, and gets that tick's least loaded other LLC. */
  lemma {:induction false} EntersOnlyAboveHigh(cfg: SpillCfg, ticks: seq<Tick>, spills: seq<SpillMap>,
      cs: seq<CohortSnapshot>, us: seq<TaskSnapshot>, p: Pid, a: nat, b: nat) returns (i: nat)
    requires IsRun(cfg, ticks, spills) && Follows(ticks, cs, us, p) && a <= b <= |ticks|
    requires p !in spills[a] && p in spills[b]
    ensures a <= i < b && p !in spills[i] && p in spills[i + 1]
    ensures cs[i].load > HighMark(cfg, ticks[i], cs[i]) && Cold(cfg, us[i])
    ensures spills[i + 1][p] == Target(ticks[i].llcs, cs[i].homeLlc) != cs[i].homeLlc
    decreases b
  {
    hide After, Capacities, TwoIds, Target, Grown;
    if p in spills[b - 1] {
      i := EntersOnlyAboveHigh(cfg, ticks, spills, cs, us, p, a, b - 1);
    } else {
      i := b - 1;
      TaskFate(cfg, ticks[i], spills[i], cs[i], us[i]);
      GrownEligible(cfg, cs[i].id, spills[i], ticks[i].tasks, cs[i].load - HighMark(cfg, ticks[i], cs[i]), us[i]);
    }
  }

  // ----- Growth -----

  /** One overloaded tick adds the shortest prefix of the duty-sorted cold members that
      sheds the excess, or all of them. */
  lemma {:induction false} GrowthIsColdestPrefix(cfg: SpillCfg, t: Tick, current: SpillMap, c: CohortSnapshot)
    returns (s: seq<TaskSnapshot>, k: nat)
    requires ValidTick(t) && c in t.cohorts && c.homeLlc in Capacities(t.llcs)
    requires c.load > HighMark(cfg, t, c) && c.load >= LowMark(cfg, t, c)
    ensures forall u :: u in s <==> u in t.tasks && u.cohortId == c.id && u.pid !in current && Cold(cfg, u)
    ensures SortedBy(s, Duty) && IsShortest(s, c.load - HighMark(cfg, t, c), k)
    ensures forall u :: u in t.tasks && u.cohortId == c.id && u.pid !in current ==>
      (u.pid in After(cfg, t, current) <==> u in s[..k])
  {
    hide Capacities, TwoIds, After, LowMark, HighMark, SortBy;
    var excess := c.load - HighMark(cfg, t, c);
    var e := Eligibles(cfg, c.id, current, t.tasks, |t.tasks|);
    s := SortBy(e, Duty);
    k := PrefixFrom(s, excess, 0);
    SameMembers(s, e);
    assert t.tasks[..|t.tasks|] == t.tasks;
    forall u | u in t.tasks && u.cohortId == c.id && u.pid !in current
      ensures u.pid in After(cfg, t, current) <==> u in s[..k]
    {
      TaskFate(cfg, t, current, c, u);
    }
  }

  /** The cold members of a cohort. */
  function ColdPids(cfg: SpillCfg, t: Tick, c: CohortId): set<Pid> {
    set u | u in t.tasks && u.cohortId == c && Cold(cfg, u) :: u.pid
  }

  /** Cohort `c.id` is over its high mark, and its cold members are exactly `cold`. */
  ghost predicate Overloaded(cfg: SpillCfg, t: Tick, c: CohortSnapshot, id: CohortId, cold: set<Pid>) {
    && c in t.cohorts && c.id == id && c.homeLlc in Capacities(t.llcs)
    && c.load > HighMark(cfg, t, c) && c.load >= LowMark(cfg, t, c)
    && ColdPids(cfg, t, id) == cold
  }

  /** An overloaded tick keeps every spilled cold member and adds one more while any is left. */
  lemma {:induction false} OverloadGrows(cfg: SpillCfg, t: Tick, current: SpillMap, c: CohortSnapshot, id: CohortId,
      cold: set<Pid>)
    requires ValidTick(t) && Overloaded(cfg, t, c, id, cold)
    ensures cold * current.Keys <= After(cfg, t, current).Keys
    ensures cold <= current.Keys || |cold - After(cfg, t, current).Keys| < |cold - current.Keys|
  {
    hide Capacities, TwoIds, After, LowMark, HighMark;
    var next := After(cfg, t, current);
    forall p | p in cold && p in current ensures p in next {
      var u :| u in t.tasks && u.cohortId == id && Cold(cfg, u) && u.pid == p;
      TaskFate(cfg, t, current, c, u);
    }
    if !(cold <= current.Keys) {
      var p :| p in cold && p !in current;
      var q := SomeoneJoins(cfg, t, current, c, id, cold, p);
      assert cold - next.Keys <= cold - current.Keys - {q};
      SubsetSize(cold - next.Keys, cold - current.Keys - {q});
    }
  }

  lemma {:induction false} SomeoneJoins(cfg: SpillCfg, t: Tick, current: SpillMap, c: CohortSnapshot, id: CohortId,
      cold: set<Pid>, p: Pid)
    returns (q: Pid)
    requires ValidTick(t) && Overloaded(cfg, t, c, id, cold) && p in cold && p !in current
    ensures q in cold && q !in current && q in After(cfg, t, current)
  {
    hide Capacities, TwoIds, After, LowMark, HighMark;
    var s, k := GrowthIsColdestPrefix(cfg, t, current, c);
    var u :| u in t.tasks && u.cohortId == id && Cold(cfg, u) && u.pid == p;
    assert u in s;
    assert Shed(s[..0]) == 0;
    assert k > 0;
    assert s[0] in s && s[0] in s[..k];
    q := s[0].pid;
  }

  /** Spill growth: under sustained overload the spilled cold members only grow, and after as
      many ticks as there are cold members all of them are spilled. */
  lemma {:induction false} OverloadSaturates(cfg: SpillCfg, ticks: seq<Tick>, spills: seq<SpillMap>,
      cs: seq<CohortSnapshot>, id: CohortId, cold: set<Pid>, n: nat)
    requires IsRun(cfg, ticks, spills) && |cs| == |ticks| && n <= |ticks|
    requires forall i :: 0 <= i < |ticks| ==> Overloaded(cfg, ticks[i], cs[i], id, cold)
    ensures cold <= spills[n].Keys || |cold - spills[n].Keys| + n <= |cold|
    ensures n >= |cold| ==> cold <= spills[n].Keys
  {
    hide Overloaded, After, ValidTick;
    if n == 0 {
      SubsetSize(cold - spills[0].Keys, cold);
    } else {
      OverloadSaturates(cfg, ticks, spills, cs, id, cold, n - 1);
      OverloadGrows(cfg, ticks[n - 1], spills[n - 1], cs[n - 1], id, cold);
    }
    var left := cold - spills[n].Keys;
    assert |left| == 0 ==> left == {};
    assert forall p :: p in cold && p !in left ==> p in spills[n].Keys;
  }

  /** At the fixed point no further member of the cohort joins. */
  lemma {:induction false} SaturatedIsFixed(cfg: SpillCfg, t: Tick, current: SpillMap, c: CohortSnapshot,
      id: CohortId, cold: set<Pid>, u: TaskSnapshot)
    requires ValidTick(t) && Overloaded(cfg, t, c, id, cold) && cold <= current.Keys
    requires u in t.tasks && u.cohortId == id
    ensures u.pid in After(cfg, t, current) <==> u.pid in current
    ensures u.pid in current ==> After(cfg, t, current)[u.pid] == current[u.pid]
  {
    hide Capacities, TwoIds, After, LowMark, HighMark, Grown;
    TaskFate(cfg, t, current, c, u);
    if u.pid !in current && u.pid in After(cfg, t, current) {
      GrownEligible(cfg, id, current, t.tasks, c.load - HighMark(cfg, t, c), u);
      assert false;
    }
  }

  // ----- Growth does not stop when the rest fits -----

  lemma {:induction false} HomeCapacity(llcs: seq<LlcLoad>)
    requires llcs == [LlcLoad(0, 100, 100), LlcLoad(1, 0, 100)]
    ensures 0 in Capacities(llcs) && Capacities(llcs)[0] == 100
  {
    assert llcs[..1] == [LlcLoad(0, 100, 100)] && llcs[..1][..0] == [];
  }

  /** Two equal ticks of a cohort at load 100 with a high mark of 95.  The first spills task 7, and
      what stays at home is 90; the second spills task 8 all the same. */
  lemma {:induction false} SpillsPastFit() returns (cfg: SpillCfg, t: Tick, c: CohortSnapshot, spills: seq<SpillMap>)
    ensures IsRun(cfg, [t, t], spills) && spills[0] == map[]
    ensures t.tasks == [TaskSnapshot(7, 3, 1, 10, 10), TaskSnapshot(8, 3, 1, 20, 20)]
    ensures t.cohorts == [c] && c.id == 1 && c.homeLlc in Capacities(t.llcs)
    ensures spills[1].Keys == {7} && c.load - t.tasks[0].duty < HighMark(cfg, t, c)
    ensures spills[2].Keys == {7, 8}
  {
    hide Capacities, After, HighMark, Overloaded, Pids, ValidTick;
    cfg, c := SpillCfg(95, 75, 25, 200), CohortSnapshot(1, 0, false, 2, 100, None);
    var llcs := [LlcLoad(0, 100, 100), LlcLoad(1, 0, 100)];
    t := Tick(llcs, [c], [TaskSnapshot(7, 3, 1, 10, 10), TaskSnapshot(8, 3, 1, 20, 20)]);
    BothCold(cfg, t, c, llcs);
    var first := After(cfg, t, map[]);
    FirstJoins(cfg, t, c, first);
    var second := After(cfg, t, first);
    OverloadGrows(cfg, t, first, c, 1, {7, 8});
    AfterFromTasks(cfg, t, first);
    assert {7, 8} - first.Keys == {8};
    assert |{7, 8} - second.Keys| == 0;
    assert {7, 8} - second.Keys == {};
    spills := [map[], first, second];
  }

  lemma {:induction false} AfterFromTasks(cfg: SpillCfg, t: Tick, current: SpillMap)
    requires ValidTick(t)
    ensures After(cfg, t, current).Keys <= Pids(t.tasks)
  {
    PlannedFromTasks(cfg, t.llcs, t.cohorts, t.tasks, current);
  }

  lemma {:induction false} BothCold(cfg: SpillCfg, t: Tick, c: CohortSnapshot, llcs: seq<LlcLoad>)
    requires cfg == SpillCfg(95, 75, 25, 200) && c == CohortSnapshot(1, 0, false, 2, 100, None)
    requires llcs == [LlcLoad(0, 100, 100), LlcLoad(1, 0, 100)]
    requires t == Tick(llcs, [c], [TaskSnapshot(7, 3, 1, 10, 10), TaskSnapshot(8, 3, 1, 20, 20)])
    ensures c.homeLlc in Capacities(t.llcs)
    ensures ValidTick(t) && Overloaded(cfg, t, c, 1, {7, 8}) && HighMark(cfg, t, c) == 95
    ensures Pids(t.tasks) == {7, 8}
  {
    HomeCapacity(llcs);
    hide Capacities;
    assert llcs[0].llc != llcs[1].llc;
    assert t.tasks[0] in t.tasks && t.tasks[1] in t.tasks && t.cohorts[0] == c;
    assert ColdPids(cfg, t, 1) == {7, 8};
  }

  lemma {:induction false} FirstJoins(cfg: SpillCfg, t: Tick, c: CohortSnapshot, first: SpillMap)
    requires ValidTick(t) && Overloaded(cfg, t, c, 1, {7, 8}) && c.load == 100
    requires c.homeLlc in Capacities(t.llcs) && HighMark(cfg, t, c) == 95
    requires t.tasks == [TaskSnapshot(7, 3, 1, 10, 10), TaskSnapshot(8, 3, 1, 20, 20)] && Pids(t.tasks) == {7, 8}
    requires cfg.coldMaxPct == 25 && cfg.tickNs == 200 && first == After(cfg, t, map[])
    ensures first.Keys == {7}
  {
    hide Capacities, After, TwoIds, HighMark, LowMark;
    var u, v := t.tasks[0], t.tasks[1];
    var s, k := GrowthIsColdestPrefix(cfg, t, map[], c);
    AfterFromTasks(cfg, t, map[]);
    assert u in t.tasks && v in t.tasks;
    ColdestFirst(s, u, v, k);
  }

  lemma {:induction false} ColdestFirst(s: seq<TaskSnapshot>, u: TaskSnapshot, v: TaskSnapshot, k: nat)
    requires u in s && (forall x :: x in s ==> x == u || x == v) && SortedBy(s, Duty) && IsShortest(s, 5, k)
    requires u.duty == 10 && v.duty == 20
    ensures s[..k] == [u]
  {
    var i :| 0 <= i < |s| && s[i] == u;
    assert s[0] in s;
    assert s[0] == u by { assert Duty(s[0]) <= Duty(s[i]); }
    assert s[..0] == [] && s[..1] == [u];
    assert Shed(s[..0]) == 0 && Shed([u]) == 10 by { assert [u][..0] == []; }
    assert k == 1;
  }
}
