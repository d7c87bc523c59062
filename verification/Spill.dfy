/** Spill planning for cohorts whose demand exceeds one LLC: one tick's desired set,
    with two marks and coldest-first growth, as a function and as the loops compute it. */
module Spill {
  import opened Domain
  import opened Collections
  import Balancer

  datatype SpillCfg = SpillCfg(highPct: nat, lowPct: nat, coldMaxPct: nat, tickNs: nat)

  type SpillMap = map<Pid, LlcId>

  // ----- Ingredients -----

  /** LLC capacities; a repeated id keeps its last entry. */
  function Capacities(llcs: seq<LlcLoad>): map<LlcId, nat> {
    if llcs == [] then map[]
    else
      var l := llcs[|llcs| - 1];
      Capacities(llcs[..|llcs| - 1])[l.llc := l.capacity]
  }

  /** The capacity of an LLC is that of its last entry. */
  lemma {:induction false} CapacityMeans(llcs: seq<LlcLoad>, llc: LlcId)
    ensures llc in Capacities(llcs) <==> exists l :: l in llcs && l.llc == llc
    ensures llc in Capacities(llcs) ==> exists i ::
      && 0 <= i < |llcs| && llcs[i].llc == llc && Capacities(llcs)[llc] == llcs[i].capacity
      && forall j :: i < j < |llcs| ==> llcs[j].llc != llc
  {
    if llcs != [] {
      var n := |llcs| - 1;
      CapacityMeans(llcs[..n], llc);
      assert llcs == llcs[..n] + [llcs[n]];
      if llcs[n].llc == llc {
        assert llcs[n] in llcs;
      } else if llc in Capacities(llcs) {
        var i :| 0 <= i < n && llcs[..n][i].llc == llc && Capacities(llcs[..n])[llc] == llcs[..n][i].capacity
          && forall j :: i < j < n ==> llcs[..n][j].llc != llc;
        assert llcs[i].llc == llc && forall j :: i < j < n ==> llcs[j] == llcs[..n][j];
      }
    }
  }

  predicate TwoIds(llcs: seq<LlcLoad>) {
    exists i, j :: 0 <= i < |llcs| && 0 <= j < |llcs| && llcs[i].llc != llcs[j].llc
  }

  function Others(llcs: seq<LlcLoad>, home: LlcId): (r: seq<LlcLoad>)
    ensures forall l :: l in r <==> l in llcs && l.llc != home
  {
    if llcs == [] then []
    else
      var n := |llcs| - 1;
      assert llcs == llcs[..n] + [llcs[n]];
      Others(llcs[..n], home) + (if llcs[n].llc != home then [llcs[n]] else [])
  }

  /** The least loaded LLC other than the home absorbs the spill. */
  function Target(llcs: seq<LlcLoad>, home: LlcId): (t: LlcId)
    requires TwoIds(llcs)
    ensures t != home
  {
    var i, j :| 0 <= i < |llcs| && 0 <= j < |llcs| && llcs[i].llc != llcs[j].llc;
    assert llcs[i] in llcs && llcs[j] in llcs;
    assert llcs[i] in Others(llcs, home) || llcs[j] in Others(llcs, home);
    Balancer.MinLlc(Others(llcs, home)).llc
  }

  lemma {:induction false} TargetIsLeast(llcs: seq<LlcLoad>, home: LlcId)
    requires TwoIds(llcs)
    ensures exists l ::
      && l in llcs && l.llc == Target(llcs, home)
      && forall m :: m in llcs && m.llc != home ==> l.load <= m.load
  {
    var l := Balancer.MinLlc(Others(llcs, home));
    assert l in llcs && l.llc == Target(llcs, home);
  }

  /** The share of a capacity, rounded down. */
  function Mark(cap: nat, pct: nat): (r: nat)
    ensures 100 * r <= cap * pct < 100 * (r + 1)
  {
    cap * pct / 100
  }

  predicate Cold(cfg: SpillCfg, t: TaskSnapshot) {
    t.duty < cfg.tickNs * cfg.coldMaxPct / 100
  }

  /** Members of the cohort that are spilled already. */
  function Already(tasks: seq<TaskSnapshot>, c: CohortId, current: SpillMap): set<Pid> {
    set t | t in tasks && t.cohortId == c && t.pid in current :: t.pid
  }

  predicate Eligible(cfg: SpillCfg, c: CohortId, current: SpillMap, tasks: seq<TaskSnapshot>, t: TaskSnapshot) {
    t.cohortId == c && t.pid !in Already(tasks, c, current) && Cold(cfg, t)
  }

  /** The cold, not yet spilled members of the cohort among the first `n` tasks. */
  function Eligibles(cfg: SpillCfg, c: CohortId, current: SpillMap, tasks: seq<TaskSnapshot>,
      n: nat): (r: seq<TaskSnapshot>)
    requires n <= |tasks|
    ensures forall t :: t in r <==> t in tasks[..n] && Eligible(cfg, c, current, tasks, t)
  {
    if n == 0 then []
    else
      assert tasks[..n] == tasks[..n - 1] + [tasks[n - 1]];
      Eligibles(cfg, c, current, tasks, n - 1) +
      (if Eligible(cfg, c, current, tasks, tasks[n - 1]) then [tasks[n - 1]] else [])
  }

  function Duty(t: TaskSnapshot): real {
    t.duty as real
  }

  /** What one member sheds: its duty, and at least one. */
  function Share(t: TaskSnapshot): nat {
    if t.duty < 1 then 1 else t.duty
  }

  function Shed(s: seq<TaskSnapshot>): nat {
    if s == [] then 0 else Shed(s[..|s| - 1]) + Share(s[|s| - 1])
  }

  function DutySum(s: seq<TaskSnapshot>): nat {
    if s == [] then 0 else DutySum(s[..|s| - 1]) + s[|s| - 1].duty
  }

  ghost function IdleOnes(s: seq<TaskSnapshot>): set<nat> {
    set i | 0 <= i < |s| && s[i].duty == 0
  }

  /** What members shed together: their duties, and one for each that is fully idle. */
  lemma {:induction false} ShedMeans(s: seq<TaskSnapshot>)
    ensures Shed(s) == DutySum(s) + |IdleOnes(s)|
  {
    if s == [] {
      assert IdleOnes(s) == {};
    } else {
      var n := |s| - 1;
      ShedMeans(s[..n]);
      assert IdleOnes(s) == if s[n].duty == 0 then IdleOnes(s[..n]) + {n} else IdleOnes(s[..n]);
    }
  }

  /** Cold means one unit more would still be within the ceiling. */
  lemma {:induction false} ColdMeans(cfg: SpillCfg, t: TaskSnapshot)
    ensures Cold(cfg, t) <==> 100 * (t.duty + 1) <= cfg.tickNs * cfg.coldMaxPct
  {
  }

  /** `k` is the shortest prefix of `s` that sheds `excess`, or all of `s`. */
  ghost predicate IsShortest(s: seq<TaskSnapshot>, excess: nat, k: nat) {
    && k <= |s|
    && (k < |s| ==> Shed(s[..k]) >= excess)
    && (forall j :: 0 <= j < k ==> Shed(s[..j]) < excess)
  }

  function PrefixFrom(s: seq<TaskSnapshot>, excess: nat, k: nat): (r: nat)
    requires k <= |s| && forall j :: 0 <= j < k ==> Shed(s[..j]) < excess
    ensures IsShortest(s, excess, r)
    decreases |s| - k
  {
    if k == |s| || Shed(s[..k]) >= excess then k else PrefixFrom(s, excess, k + 1)
  }

  function Grown(cfg: SpillCfg, c: CohortId, current: SpillMap, tasks: seq<TaskSnapshot>,
      excess: nat): seq<TaskSnapshot> {
    var s := SortBy(Eligibles(cfg, c, current, tasks, |tasks|), Duty);
    s[..PrefixFrom(s, excess, 0)]
  }

  function Pids(tasks: seq<TaskSnapshot>): set<Pid> {
    set t | t in tasks :: t.pid
  }

  // ----- The plan -----

  function Kept(pids: set<Pid>, current: SpillMap): SpillMap
    requires pids <= current.Keys
  {
    map p | p in pids :: current[p]
  }

  function AllTo(pids: set<Pid>, target: LlcId): SpillMap {
    map p | p in pids :: target
  }

  /** The spill set of one cohort. */
  function CohortSpills(cfg: SpillCfg, llcs: seq<LlcLoad>, c: CohortSnapshot, tasks: seq<TaskSnapshot>,
      current: SpillMap): SpillMap
    requires TwoIds(llcs)
  {
    if c.homeLlc !in Capacities(llcs) then map[]
    else
      var cap := Capacities(llcs)[c.homeLlc];
      if c.load < Mark(cap, cfg.lowPct) then map[]
      else
        var kept := Kept(Already(tasks, c.id, current), current);
        if c.load < Mark(cap, cfg.highPct) then kept
        else
          kept + AllTo(Pids(Grown(cfg, c.id, current, tasks, c.load - Mark(cap, cfg.highPct))), Target(llcs, c.homeLlc))
  }

  /** The complete desired set after the first `n` cohorts. */
  function PlannedTo(cfg: SpillCfg, llcs: seq<LlcLoad>, cohorts: seq<CohortSnapshot>, tasks: seq<TaskSnapshot>,
      current: SpillMap, n: nat): SpillMap
    requires TwoIds(llcs) && n <= |cohorts|
  {
    if n == 0 then map[]
    else PlannedTo(cfg, llcs, cohorts, tasks, current, n - 1) + CohortSpills(cfg, llcs, cohorts[n - 1], tasks, current)
  }

  function Planned(cfg: SpillCfg, llcs: seq<LlcLoad>, cohorts: seq<CohortSnapshot>, tasks: seq<TaskSnapshot>,
      current: SpillMap): SpillMap
    requires |llcs| >= 2 ==> TwoIds(llcs)
  {
    if |llcs| < 2 then map[] else PlannedTo(cfg, llcs, cohorts, tasks, current, |cohorts|)
  }

  /** `plan_spills`, as the loops compute it. */
  method PlanSpills(cfg: SpillCfg, llcs: seq<LlcLoad>, cohorts: seq<CohortSnapshot>, tasks: seq<TaskSnapshot>,
      current: SpillMap)
    returns (desired: SpillMap)
    requires |llcs| >= 2 ==> TwoIds(llcs)
    ensures desired == Planned(cfg, llcs, cohorts, tasks, current)
  {
    hide CohortSpills, TwoIds;
    desired := map[];
    if |llcs| < 2 {
      return;
    }
    for i := 0 to |cohorts|
      invariant desired == PlannedTo(cfg, llcs, cohorts, tasks, current, i)
    {
      desired := PlanCohort(cfg, llcs, cohorts[i], tasks, current, desired);
    }
  }

  /** One cohort: nothing below the low mark, the sticky set between the marks, growth above the high one. */
  method PlanCohort(cfg: SpillCfg, llcs: seq<LlcLoad>, cohort: CohortSnapshot, tasks: seq<TaskSnapshot>,
      current: SpillMap, desired: SpillMap)
    returns (desired': SpillMap)
    requires TwoIds(llcs)
    ensures desired' == desired + CohortSpills(cfg, llcs, cohort, tasks, current)
  {
    hide Grown, Target, Capacities, TwoIds, Mark, Kept, AllTo;
    desired' := desired;
    var capacity := Capacities(llcs);
    if cohort.homeLlc !in capacity {
      return;
    }
    var high, low := Mark(capacity[cohort.homeLlc], cfg.highPct), Mark(capacity[cohort.homeLlc], cfg.lowPct);
    if cohort.load < low {
      return;
    }
    var target := Target(llcs, cohort.homeLlc);
    desired' := KeepAlready(Already(tasks, cohort.id, current), current, desired');
    if cohort.load < high {
      return;
    }
    desired' := Grow(cfg, cohort, current, tasks, cohort.load - high, target, desired');
  }

  /** Already-spilled members stay chosen, with the target they have. */
  method KeepAlready(already: set<Pid>, current: SpillMap, desired: SpillMap) returns (desired': SpillMap)
    requires already <= current.Keys
    ensures desired' == desired + Kept(already, current)
  {
    desired' := desired;
    var rest := already;
    while rest != {}
      invariant rest <= already
      invariant desired' == desired + Kept(already - rest, current)
      decreases |rest|
    {
      var pid :| pid in rest;
      rest := rest - {pid};
      desired' := desired'[pid := current[pid]];
    }
    assert already - rest == already;
  }

  /** Add the coldest members until the excess is shed. */
  method Grow(cfg: SpillCfg, cohort: CohortSnapshot, current: SpillMap, tasks: seq<TaskSnapshot>,
      excess: nat, target: LlcId, desired: SpillMap) returns (desired': SpillMap)
    ensures desired' == desired + AllTo(Pids(Grown(cfg, cohort.id, current, tasks, excess)), target)
  {
    hide SortBy, Eligibles, SortedBy, AllTo, Pids, PrefixFrom;
    var members := SortBy(Eligibles(cfg, cohort.id, current, tasks, |tasks|), Duty);
    desired' := ShedColdest(members, excess, target, desired);
  }

  method ShedColdest(members: seq<TaskSnapshot>, excess: nat, target: LlcId, desired: SpillMap)
    returns (desired': SpillMap)
    ensures desired' == desired + AllTo(Pids(members[..PrefixFrom(members, excess, 0)]), target)
  {
    hide PrefixFrom, Pids;
    ghost var k := PrefixFrom(members, excess, 0);
    desired' := desired;
    var shed, i := 0, 0;
    assert members[..0] == [];
    PidsNone();
    while i < |members| && shed < excess
      invariant 0 <= i <= k && shed == Shed(members[..i])
      invariant desired' == desired + AllTo(Pids(members[..i]), target)
    {
      var t := members[i];
      assert members[..i + 1][..i] == members[..i];
      PidsNext(members, i);
      desired' := desired'[t.pid := target];
      shed := shed + (if t.duty < 1 then 1 else t.duty);
      i := i + 1;
    }
    assert i == k;
  }

  lemma {:induction false} PidsNone()
    ensures Pids([]) == {}
  {
  }

  lemma {:induction false} PidsNext(s: seq<TaskSnapshot>, i: nat)
    requires i < |s|
    ensures Pids(s[..i + 1]) == Pids(s[..i]) + {s[i].pid}
  {
    assert s[..i + 1] == s[..i] + [s[i]];
  }
}
