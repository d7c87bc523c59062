/** The daemon: one tick over the shared maps.  Several steps work from the
    `tgid_cohort` snapshot taken at the start of the tick, after earlier steps
    have changed the live map. */
module Scheduler {
  import opened Domain
  import opened Collections
  import opened DaemonMaps
  import Connectivity
  import EdgeRates
  import MergePlanning
  import SplitPlanning
  import GC = GarbageCollection
  import WG = WakeGraph
  import B = Balancer
  import Spill
  import SpillSync

  // ----- Membership handed to the wake graph -----

  /** Every tgid is listed under the cohort the snapshot has it on. */
  ghost predicate Groups(tc: map<Tgid, CohortId>, groups: map<CohortId, seq<Member>>) {
    forall c, m :: c in groups && m in groups[c] ==> m.0 in tc && tc[m.0] == c
  }

  function TgidTasks(tasks: seq<TaskSnapshot>, t: Tgid): nat {
    if tasks == [] then 0
    else TgidTasks(tasks[..|tasks| - 1], t) + (if tasks[|tasks| - 1].tgid == t then 1 else 0)
  }

  /** Every snapshotted tgid of a sized cohort, once, under its cohort and with its task count. */
  ghost predicate GroupsOf(tc: map<Tgid, CohortId>, sizes: map<CohortId, nat>, tasks: seq<TaskSnapshot>,
      groups: map<CohortId, seq<Member>>) {
    && groups.Keys <= sizes.Keys
    && Groups(tc, groups)
    && (forall c, m :: c in groups && m in groups[c] ==> m.1 == TgidTasks(tasks, m.0))
    && (forall c, i, j :: c in groups && 0 <= i < j < |groups[c]| ==> groups[c][i].0 != groups[c][j].0)
    && (forall t :: t in tc && tc[t] in sizes ==> tc[t] in groups && t in Connectivity.Tgids(groups[tc[t]]))
  }

  function SizeMap(cohorts: seq<CohortSnapshot>): map<CohortId, nat> {
    if cohorts == [] then map[]
    else SizeMap(cohorts[..|cohorts| - 1])[cohorts[|cohorts| - 1].id := cohorts[|cohorts| - 1].nrTasks]
  }

  /** What the wake graph was asked and what it planned in one tick. */
  datatype Discovery = Discovery(groups: map<CohortId, seq<Member>>, merges: seq<MergePlan>, triggers: seq<Edge>,
      splits: seq<SplitPlan>)

  /** The wake graph observed the tick's traffic, planned merges on the snapshot, then splits on its groups. */
  ghost predicate Discovered(cfg: WakeGraphCfg, edges: map<Edge, EdgeState>, edges': map<Edge, EdgeState>,
      streaks: map<CohortId, nat>, streaks': map<CohortId, nat>, obs: EdgeRates.Observation,
      tc: map<Tgid, CohortId>, cohorts: seq<CohortSnapshot>, tasks: seq<TaskSnapshot>, d: Discovery)
    requires EdgeRates.ValidCfg(cfg)
  {
    && MergePlanning.MergeOutcome(cfg, EdgeRates.Observed(cfg, edges, obs), edges', tc, SizeMap(cohorts), d.merges,
        d.triggers)
    && GroupsOf(tc, SizeMap(cohorts), tasks, d.groups)
    && SplitPlanning.SplitOutcome(cfg, edges', streaks, streaks', d.groups, d.splits)
  }

  lemma {:induction false} OffsForAt(plans: seq<SplitPlan>, i: nat) returns (k: nat)
    requires i < |plans|
    ensures var offs := SplitPlanning.OffsFor(plans, plans[i].cohort); k < |offs| && offs[k] == plans[i].offTgids
  {
    var n := |plans| - 1;
    var c := plans[i].cohort;
    if i == n {
      k := |SplitPlanning.OffsFor(plans[..n], c)|;
    } else {
      k := OffsForAt(plans[..n], i);
    }
  }

  lemma {:induction false} OffsForOrder(plans: seq<SplitPlan>, i: nat, j: nat) returns (k: nat, l: nat)
    requires i < j < |plans| && plans[i].cohort == plans[j].cohort
    ensures var offs := SplitPlanning.OffsFor(plans, plans[i].cohort);
      k < l < |offs| && offs[k] == plans[i].offTgids && offs[l] == plans[j].offTgids
  {
    var n := |plans| - 1;
    var c := plans[i].cohort;
    if j == n {
      l := |SplitPlanning.OffsFor(plans[..n], c)|;
      k := OffsForAt(plans[..n], i);
    } else {
      k, l := OffsForOrder(plans[..n], i, j);
    }
  }

  /** What a splits call planned for a cohort stays within it and does not overlap. */
  lemma {:induction false} PlannedOffs(cfg: WakeGraphCfg, edges: map<Edge, EdgeState>, streaks: map<CohortId, nat>,
      streaks': map<CohortId, nat>, tc: map<Tgid, CohortId>, groups: map<CohortId, seq<Member>>,
      plans: seq<SplitPlan>, c: CohortId)
    requires Groups(tc, groups) && SplitPlanning.CohortOutcome(cfg, edges, streaks, streaks', groups, plans, c)
    ensures var offs := SplitPlanning.OffsFor(plans, c);
      && SplitPlanning.PairwiseDisjoint(offs)
      && (forall k :: 0 <= k < |offs| ==> offs[k] != [])
      && forall k, t :: 0 <= k < |offs| && t in offs[k] ==> t in tc && tc[t] == c
  {
    hide SplitPlanning.Disconnected, SplitPlanning.IsHeaviest, Connectivity.Joined, Connectivity.Live;
    var offs, live := SplitPlanning.OffsFor(plans, c), Connectivity.Live(edges, cfg.splitMinWakesPerSec);
    if offs != [] {
      var keep :| SplitPlanning.SplitsOff(live, groups[c], cfg.splitMinTasks, offs, keep);
      forall k, t | 0 <= k < |offs| && t in offs[k] ensures t in tc && tc[t] == c {
        assert SplitPlanning.IsSomeOff(live, groups[c], cfg.splitMinTasks, keep, offs[k]);
        var r :| SplitPlanning.IsOff(live, groups[c], cfg.splitMinTasks, keep, r, offs[k]);
        SplitPlanning.OffNames(live, groups[c], cfg.splitMinTasks, keep, r, offs[k], t);
        var m :| m in groups[c] && m.0 == t;
      }
      forall k | 0 <= k < |offs| ensures offs[k] != [] {
        assert SplitPlanning.IsSomeOff(live, groups[c], cfg.splitMinTasks, keep, offs[k]);
        var r :| SplitPlanning.IsOff(live, groups[c], cfg.splitMinTasks, keep, r, offs[k]);
        SplitPlanning.OffNames(live, groups[c], cfg.splitMinTasks, keep, r, offs[k], r);
        Connectivity.JoinedRefl(live, Connectivity.Tgids(groups[c]), r);
      }
    }
  }

  lemma {:induction false} SplitsAreOver(cfg: WakeGraphCfg, edges: map<Edge, EdgeState>, streaks: map<CohortId, nat>,
      streaks': map<CohortId, nat>, tc: map<Tgid, CohortId>, groups: map<CohortId, seq<Member>>, plans: seq<SplitPlan>)
    requires Groups(tc, groups) && SplitPlanning.SplitOutcome(cfg, edges, streaks, streaks', groups, plans)
    ensures SplitsOver(plans, tc)
  {
    hide SplitPlanning.CohortOutcome, SplitPlanning.OffsFor, Groups;
    forall i | 0 <= i < |plans| ensures plans[i].offTgids != [] {
      PlannedOffs(cfg, edges, streaks, streaks', tc, groups, plans, plans[i].cohort);
      var k := OffsForAt(plans, i);
    }
    forall i, t | 0 <= i < |plans| && t in plans[i].offTgids ensures t in tc && tc[t] == plans[i].cohort {
      PlannedOffs(cfg, edges, streaks, streaks', tc, groups, plans, plans[i].cohort);
      var k := OffsForAt(plans, i);
    }
    forall i, j, t | 0 <= i < j < |plans| && t in plans[i].offTgids ensures t !in plans[j].offTgids {
      assert tc[t] == plans[i].cohort;
      if plans[i].cohort == plans[j].cohort {
        PlannedOffs(cfg, edges, streaks, streaks', tc, groups, plans, plans[i].cohort);
        var k, l := OffsForOrder(plans, i, j);
      }
    }
  }

  // ----- The cohort snapshot -----

  /** One cohort as the balancer sees it. */
  function SnapshotOf(policy: map<CohortId, Policy>, counters: map<CohortId, nat>, prev: map<CohortId, nat>,
      overrides: map<CohortId, nat>, tasks: seq<TaskSnapshot>, id: CohortId): CohortSnapshot
    requires id in counters
  {
    var p := if id in policy then policy[id] else Policy(0, false);
    CohortSnapshot(id, p.homeLlc, p.pinned, GC.TaskCount(tasks, id),
                   B.SaturatingSub(counters[id], if id in prev then prev[id] else counters[id]),
                   if id in overrides then Some(overrides[id]) else None)
  }

  /** Cohorts with a live task or a referencing tgid. */
  function InUse(counters: map<CohortId, nat>, tc: map<Tgid, CohortId>, tasks: seq<TaskSnapshot>): set<CohortId> {
    set c | c in counters && !GC.Unused(tc, tasks, c)
  }

  /** `out` snapshots every cohort in `ids`, once. */
  ghost predicate Snapshots(out: seq<CohortSnapshot>, ids: set<CohortId>, policy: map<CohortId, Policy>,
      counters: map<CohortId, nat>, prev: map<CohortId, nat>, overrides: map<CohortId, nat>, tasks: seq<TaskSnapshot>)
  {
    && (forall i :: 0 <= i < |out| ==>
          && out[i].id in ids && out[i].id in counters
          && out[i] == SnapshotOf(policy, counters, prev, overrides, tasks, out[i].id))
    && (forall i, j :: 0 <= i < j < |out| ==> out[i].id != out[j].id)
    && (forall c :: c in ids ==> exists i :: 0 <= i < |out| && out[i].id == c)
  }

  lemma {:induction false} SnapshotOne(out: seq<CohortSnapshot>, ids: set<CohortId>, policy: map<CohortId, Policy>,
      counters: map<CohortId, nat>, prev: map<CohortId, nat>, overrides: map<CohortId, nat>, tasks: seq<TaskSnapshot>,
      id: CohortId)
    requires Snapshots(out, ids, policy, counters, prev, overrides, tasks) && id in counters && id !in ids
    ensures Snapshots(out + [SnapshotOf(policy, counters, prev, overrides, tasks, id)], ids + {id}, policy, counters,
        prev, overrides, tasks)
  {
    hide GC.TaskCount;
    var s := SnapshotOf(policy, counters, prev, overrides, tasks, id);
    var out' := out + [s];
    assert out'[|out|].id == id;
    forall c | c in ids + {id} ensures exists i :: 0 <= i < |out'| && out'[i].id == c {
      if c in ids {
        var i :| 0 <= i < |out| && out[i].id == c;
        assert out'[i].id == c;
      }
    }
  }

  class Scheduler {
    const graph: WG.WakeGraph
    const balancer: B.Balancer
    const spillCfg: Spill.SpillCfg
    const dt: real
    const sampleMult: nat

    // Shared with the BPF side.
    var tgidCohort: map<Tgid, CohortId>
    var policy: map<CohortId, Policy>
    var counters: map<CohortId, nat>
    var spillTasks: map<Pid, LlcId>

    // The daemon's own state.
    var deadCohorts: set<CohortId>
    var deadTgids: set<Tgid>
    var prevLoadSum: map<CohortId, nat>
    var residencyOverrides: map<CohortId, nat>
    var daemonSeq: nat
    var currentSpills: map<Pid, LlcId>

    function Shared(): Maps
      reads this
    {
      Maps(tgidCohort, policy, counters)
    }

    ghost function GcView(): GC.State
      reads this
    {
      GC.State(tgidCohort, counters.Keys, deadTgids, deadCohorts)
    }

    constructor (graph: WG.WakeGraph, balancer: B.Balancer, spillCfg: Spill.SpillCfg, dt: real, sampleMult: nat)
      ensures this.graph == graph && this.balancer == balancer && this.spillCfg == spillCfg
      ensures this.dt == dt && this.sampleMult == sampleMult
      ensures Shared() == Maps(map[], map[], map[]) && GcView() == GC.State(map[], {}, {}, {})
      ensures daemonSeq == 0 && spillTasks == map[] && currentSpills == map[]
      ensures prevLoadSum == map[] && residencyOverrides == map[]
    {
      this.graph, this.balancer, this.spillCfg, this.dt, this.sampleMult := graph, balancer, spillCfg, dt, sampleMult;
      tgidCohort, policy, counters, spillTasks := map[], map[], map[], map[];
      deadCohorts, deadTgids, prevLoadSum, residencyOverrides := {}, {}, map[], map[];
      daemonSeq, currentSpills := 0, map[];
    }

    /** Snapshot the cohorts in use and collect the dead ones, two ticks after they were last in use. */
    method SnapshotCohorts(tasks: seq<TaskSnapshot>, tc: map<Tgid, CohortId>) returns (out: seq<CohortSnapshot>)
      modifies `counters, `policy, `deadCohorts, `prevLoadSum
      ensures var idle := GC.IdleCohorts(old(counters).Keys, tc, tasks);
        && counters == old(counters) - (idle * old(deadCohorts))
        && policy == old(policy) - (idle * old(deadCohorts))
        && deadCohorts == idle - old(deadCohorts)
      ensures var ids := InUse(old(counters), tc, tasks);
        && Snapshots(out, ids, old(policy), old(counters), old(prevLoadSum), residencyOverrides, tasks)
        && prevLoadSum == map c | c in ids :: old(counters)[c]
    {
      hide GC.TaskCount, Snapshots;
      var dead, deadNow;
      out, prevLoadSum, dead, deadNow := ScanCounters(tasks, tc);
      counters, policy := counters - dead, policy - dead;
      deadCohorts := deadNow;
    }

    /** One pass over the counters map: cohorts in use are snapshotted, unused ones are marked or condemned. */
    method ScanCounters(tasks: seq<TaskSnapshot>, tc: map<Tgid, CohortId>)
      returns (out: seq<CohortSnapshot>, seen: map<CohortId, nat>, dead: set<CohortId>, deadNow: set<CohortId>)
      ensures var idle := GC.IdleCohorts(counters.Keys, tc, tasks);
        dead == idle * deadCohorts && deadNow == idle - deadCohorts
      ensures var ids := InUse(counters, tc, tasks);
        && Snapshots(out, ids, policy, counters, prevLoadSum, residencyOverrides, tasks)
        && seen == map c | c in ids :: counters[c]
    {
      hide GC.TaskCount, Snapshots, GC.Unused, GC.IdleCohorts, InUse, SnapshotOf;
      var gcSafe := tasks != [];
      var referenced := tc.Values;
      out, seen, dead, deadNow := [], map[], {}, {};
      ghost var used: set<CohortId> := {};
      SnapshotNone(policy, counters, prevLoadSum, residencyOverrides, tasks);
      var rest := counters.Keys;
      while rest != {}
        invariant rest <= counters.Keys
        invariant forall c :: c in dead <==>
          gcSafe && c in counters && c !in rest && GC.Unused(tc, tasks, c) && c in deadCohorts
        invariant forall c :: c in deadNow <==>
          gcSafe && c in counters && c !in rest && GC.Unused(tc, tasks, c) && c !in deadCohorts
        invariant forall c :: c in used <==> c in counters && c !in rest && !GC.Unused(tc, tasks, c)
        invariant Snapshots(out, used, policy, counters, prevLoadSum, residencyOverrides, tasks)
        invariant seen.Keys == used && forall c :: c in seen ==> seen[c] == counters[c]
        decreases |rest|
      {
        var id :| id in rest;
        rest := rest - {id};
        var nrTasks := GC.TaskCount(tasks, id);
        UnusedWhen(tc, tasks, id);
        if nrTasks == 0 && id !in referenced {
          if gcSafe {
            if id in deadCohorts { dead := dead + {id}; } else { deadNow := deadNow + {id}; }
          }
        } else {
          SnapshotOne(out, used, policy, counters, prevLoadSum, residencyOverrides, tasks, id);
          used := used + {id};
          seen := seen[id := counters[id]];
          out := out + [SnapshotOf(policy, counters, prevLoadSum, residencyOverrides, tasks, id)];
        }
      }
      ScanSets(counters, tc, tasks, deadCohorts, used, dead, deadNow);
    }

    static lemma {:induction false} UnusedWhen(tc: map<Tgid, CohortId>, tasks: seq<TaskSnapshot>, c: CohortId)
      ensures GC.Unused(tc, tasks, c) <==> GC.TaskCount(tasks, c) == 0 && c !in tc.Values
    {
    }

    static lemma {:induction false} ScanSets(counters: map<CohortId, nat>, tc: map<Tgid, CohortId>,
        tasks: seq<TaskSnapshot>, marked: set<CohortId>, used: set<CohortId>, dead: set<CohortId>,
        deadNow: set<CohortId>)
      requires forall c :: c in used <==> c in counters && !GC.Unused(tc, tasks, c)
      requires forall c :: c in dead <==> tasks != [] && c in counters && GC.Unused(tc, tasks, c) && c in marked
      requires forall c :: c in deadNow <==> tasks != [] && c in counters && GC.Unused(tc, tasks, c) && c !in marked
      ensures used == InUse(counters, tc, tasks)
      ensures var idle := GC.IdleCohorts(counters.Keys, tc, tasks); dead == idle * marked && deadNow == idle - marked
    {
      hide GC.Unused;
    }

    static lemma {:induction false} SnapshotNone(policy: map<CohortId, Policy>, counters: map<CohortId, nat>,
        prev: map<CohortId, nat>, overrides: map<CohortId, nat>, tasks: seq<TaskSnapshot>)
      ensures Snapshots([], {}, policy, counters, prev, overrides, tasks)
    {
    }

    /** Drop tgid entries with no live task, two ticks in a row. */
    method GcTgidMap(tc: map<Tgid, CohortId>, tasks: seq<TaskSnapshot>)
      modifies `tgidCohort, `deadTgids
      ensures tgidCohort == old(tgidCohort) - (GC.IdleTgids(tc, tasks) * old(deadTgids))
      ensures deadTgids == GC.IdleTgids(tc, tasks) - old(deadTgids)
    {
      var live := LiveTgids(tasks);
      assert GC.IdleTgids(tc, tasks) == tc.Keys - live;
      SweepIdle(tc, live);
    }

    method SweepIdle(tc: map<Tgid, CohortId>, live: set<Tgid>)
      modifies `tgidCohort, `deadTgids
      ensures tgidCohort == old(tgidCohort) - ((tc.Keys - live) * old(deadTgids))
      ensures deadTgids == tc.Keys - live - old(deadTgids)
    {
      var deadNow: set<Tgid> := {};
      var rest := tc.Keys;
      while rest != {}
        invariant rest <= tc.Keys
        invariant forall t :: t in tgidCohort <==>
          t in old(tgidCohort) && !(t in tc && t !in live && t in deadTgids && t !in rest)
        invariant forall t :: t in tgidCohort ==> tgidCohort[t] == old(tgidCohort)[t]
        invariant deadTgids == old(deadTgids)
        invariant forall t :: t in deadNow <==> t in tc && t !in live && t !in deadTgids && t !in rest
        decreases |rest|
      {
        var t :| t in rest;
        rest := rest - {t};
        if t !in live {
          if t in deadTgids { tgidCohort := tgidCohort - {t}; } else { deadNow := deadNow + {t}; }
        }
      }
      SameMap(tgidCohort, old(tgidCohort) - ((tc.Keys - live) * deadTgids));
      deadTgids := deadNow;
    }

    static function LiveTgids(tasks: seq<TaskSnapshot>): (r: set<Tgid>)
      ensures forall t :: t in r <==> GC.TgidLive(tasks, t)
    {
      set u | u in tasks :: u.tgid
    }

    /** Rewrite the home of the cohort a decision names, if it still has a policy. */
    method Apply(decision: Option<Decision>)
      modifies `policy
      ensures policy == Rehomed(old(policy), decision)
      ensures policy.Keys == old(policy).Keys
      ensures forall c :: c in policy ==>
        && policy[c].pinned == old(policy)[c].pinned
        && policy[c].homeLlc ==
             (if decision.Some? && decision.value.id == c then decision.value.to else old(policy)[c].homeLlc)
    {
      if decision.Some? && decision.value.id in policy {
        policy := policy[decision.value.id := policy[decision.value.id].(homeLlc := decision.value.to)];
      }
    }

    /** Sync the desired spill set into the BPF map. */
    method ApplySpills(desired: map<Pid, LlcId>)
      modifies `spillTasks, `currentSpills
      ensures spillTasks == SpillSync.Synced(old(spillTasks), old(currentSpills), desired)
      ensures currentSpills == desired
    {
      WriteChanged(desired);
      DeleteDropped(desired);
      currentSpills := desired;
    }

    method WriteChanged(desired: map<Pid, LlcId>)
      modifies `spillTasks
      ensures spillTasks == old(spillTasks) + SpillSync.Changed(currentSpills, desired)
    {
      ghost var changed := SpillSync.Changed(currentSpills, desired);
      var rest := desired.Keys;
      while rest != {}
        invariant rest <= desired.Keys
        invariant forall p :: p in spillTasks <==> p in old(spillTasks) || (p in changed && p !in rest)
        invariant forall p :: p in spillTasks ==>
          spillTasks[p] == if p in changed && p !in rest then changed[p] else old(spillTasks)[p]
        decreases |rest|
      {
        var pid :| pid in rest;
        rest := rest - {pid};
        if !(pid in currentSpills && currentSpills[pid] == desired[pid]) {
          spillTasks := spillTasks[pid := desired[pid]];
        }
      }
      SameMap(spillTasks, old(spillTasks) + changed);
    }

    method DeleteDropped(desired: map<Pid, LlcId>)
      modifies `spillTasks
      ensures spillTasks == old(spillTasks) - (currentSpills.Keys - desired.Keys)
    {
      var rest := currentSpills.Keys;
      while rest != {}
        invariant rest <= currentSpills.Keys
        invariant forall p :: p in spillTasks <==>
          p in old(spillTasks) && !(p in currentSpills && p !in desired && p !in rest)
        invariant forall p :: p in spillTasks ==> spillTasks[p] == old(spillTasks)[p]
        decreases |rest|
      {
        var pid :| pid in rest;
        rest := rest - {pid};
        if pid !in desired { spillTasks := spillTasks - {pid}; }
      }
      SameMap(spillTasks, old(spillTasks) - (currentSpills.Keys - desired.Keys));
    }

    /** Fold cohort `from` into `into`, touching the entries the snapshot has on `from`. */
    method ApplyMerge(plan: MergePlan, tc: map<Tgid, CohortId>)
      modifies `tgidCohort, `policy, `counters, `prevLoadSum
      ensures Shared() == Merged(old(Shared()), tc, plan)
      ensures prevLoadSum ==
        if plan.into in old(counters) && plan.from in old(counters) then old(prevLoadSum) - {plan.from}
        else old(prevLoadSum)
    {
      if plan.into !in counters || plan.from !in counters {
        return;
      }
      Redirect(plan, tc);
      counters, policy := counters - {plan.from}, policy - {plan.from};
      prevLoadSum := prevLoadSum - {plan.from};
    }

    method Redirect(plan: MergePlan, tc: map<Tgid, CohortId>)
      modifies `tgidCohort
      ensures tgidCohort.Keys == old(tgidCohort).Keys
      ensures forall t :: t in tgidCohort ==>
        tgidCohort[t] == (if t in tc && tc[t] == plan.from then plan.into else old(tgidCohort)[t])
    {
      var rest := tc.Keys;
      while rest != {}
        invariant rest <= tc.Keys
        invariant tgidCohort.Keys == old(tgidCohort).Keys
        invariant forall t :: t in tgidCohort ==>
          tgidCohort[t] == (if t in tc && t !in rest && tc[t] == plan.from then plan.into else old(tgidCohort)[t])
        decreases |rest|
      {
        var t :| t in rest;
        rest := rest - {t};
        if tc[t] == plan.from && t in tgidCohort {
          tgidCohort := tgidCohort[t := plan.into];
        }
      }
    }

    /** Split a component off into a fresh cohort at the same home.  A taken id is an error. */
    method ApplySplit(plan: SplitPlan) returns (ok: bool)
      modifies `tgidCohort, `policy, `counters, `daemonSeq
      ensures daemonSeq == SeqAfter(old(Shared()), old(daemonSeq), plan)
      ensures ok ==> Shared() == SplitApplied(old(Shared()), old(daemonSeq), plan)
      ensures !ok ==> tgidCohort == old(tgidCohort)
      ensures IdsBelow(old(Shared()), old(daemonSeq)) ==> ok
    {
      if plan.cohort !in policy {
        return true;
      }
      var home := policy[plan.cohort].homeLlc;
      var id := DAEMON_COHORT_BASE + daemonSeq;
      daemonSeq := daemonSeq + 1;
      if id in policy {
        return false;
      }
      policy := policy[id := Policy(home, false)];
      if id in counters {
        return false;
      }
      counters := counters[id := 0];
      Reassign(plan.offTgids, id);
      return true;
    }

    method Reassign(off: seq<Tgid>, id: CohortId)
      modifies `tgidCohort
      ensures tgidCohort.Keys == old(tgidCohort).Keys
      ensures forall t :: t in tgidCohort ==> tgidCohort[t] == (if t in off then id else old(tgidCohort)[t])
    {
      for i := 0 to |off|
        invariant tgidCohort.Keys == old(tgidCohort).Keys
        invariant forall t :: t in tgidCohort ==> tgidCohort[t] == (if t in off[..i] then id else old(tgidCohort)[t])
      {
        assert off[..i + 1] == off[..i] + [off[i]];
        if off[i] in tgidCohort {
          tgidCohort := tgidCohort[off[i] := id];
        }
      }
      assert off[..|off|] == off;
    }

    /** Merges, then splits, both from the tick's snapshot. */
    method DiscoverRelationships(cohorts: seq<CohortSnapshot>, tasks: seq<TaskSnapshot>, tc: map<Tgid, CohortId>,
        deltas: seq<EdgeRates.Delta>) returns (ok: bool, ghost d: Discovery)
      requires EdgeRates.ValidCfg(graph.cfg)
      requires FreshFrom(Shared(), tc) && IdsBelow(Shared(), daemonSeq)
      modifies graph, `tgidCohort, `policy, `counters, `prevLoadSum, `daemonSeq
      ensures ok && MergePlanning.IsMatching(d.merges) && PlansOver(d.merges, tc) && SplitsOver(d.splits, tc)
      ensures Discovered(graph.cfg, old(graph.edges), graph.edges, old(graph.splitStreak), graph.splitStreak,
                         EdgeRates.Observation(deltas, dt, sampleMult), tc, cohorts, tasks, d)
      ensures (Shared(), daemonSeq) ==
        SplitAll(MergedAll(old(Shared()), tc, d.merges), old(daemonSeq), d.splits, |d.splits|)
    {
      hide MergedAll, SplitAll, MergePlanning.IsMatching, IdsBelow, FreshFrom;
      hide MergePlanning.MergeOutcome, SplitPlanning.SplitOutcome, EdgeRates.Observed, SizeMap;
      graph.Observe(deltas, dt, sampleMult);
      var sizes := SizeMap(cohorts);
      ghost var merges, triggers := PlanAndMerge(tc, sizes);
      MergesKeepIntegrity(old(Shared()), tc, merges, daemonSeq);
      var groups := GroupTgids(tc, sizes, tasks);
      ghost var splits;
      ok, splits := PlanAndSplit(tc, groups);
      d := Discovery(groups, merges, triggers, splits);
    }

    method PlanAndMerge(tc: map<Tgid, CohortId>, sizes: map<CohortId, nat>)
      returns (ghost merges: seq<MergePlan>, ghost triggers: seq<Edge>)
      modifies graph`edges, `tgidCohort, `policy, `counters, `prevLoadSum
      ensures MergePlanning.MergeOutcome(graph.cfg, old(graph.edges), graph.edges, tc, sizes, merges, triggers)
      ensures MergePlanning.IsMatching(merges) && PlansOver(merges, tc)
      ensures Shared() == MergedAll(old(Shared()), tc, merges)
    {
      hide Merged, MergePlanning.MergeOutcome, MergePlanning.IsMatching;
      ghost var edges := graph.edges;
      var plans;
      plans, triggers := graph.Merges(tc, sizes);
      MergePlanning.MaximalMatching(graph.cfg, edges, graph.edges, tc, sizes, plans, triggers);
      assert PlansOver(plans, tc);
      for i := 0 to |plans|
        invariant MergePlanning.MergeOutcome(graph.cfg, edges, graph.edges, tc, sizes, plans, triggers)
        invariant Shared() == MergedAll(old(Shared()), tc, plans[..i])
      {
        ApplyMerge(plans[i], tc);
        assert plans[..i + 1][..i] == plans[..i];
      }
      assert plans[..|plans|] == plans;
      merges := plans;
    }

    method PlanAndSplit(tc: map<Tgid, CohortId>, groups: map<CohortId, seq<Member>>)
      returns (ok: bool, ghost splits: seq<SplitPlan>)
      requires Groups(tc, groups) && Integrity(Shared()) && IdsBelow(Shared(), daemonSeq)
      modifies graph`splitStreak, `tgidCohort, `policy, `counters, `daemonSeq
      ensures ok && SplitsOver(splits, tc)
      ensures SplitPlanning.SplitOutcome(graph.cfg, graph.edges, old(graph.splitStreak), graph.splitStreak, groups,
          splits)
      ensures (Shared(), daemonSeq) == SplitAll(old(Shared()), old(daemonSeq), splits, |splits|)
    {
      hide SplitApplied, SplitPlanning.SplitOutcome, Integrity, IdsBelow, Groups, SplitsOver;
      ghost var streaks := graph.splitStreak;
      var plans := graph.Splits(groups);
      SplitsAreOver(graph.cfg, graph.edges, streaks, graph.splitStreak, tc, groups, plans);
      ok := true;
      for i := 0 to |plans|
        invariant SplitPlanning.SplitOutcome(graph.cfg, graph.edges, streaks, graph.splitStreak, groups, plans)
        invariant (Shared(), daemonSeq) == SplitAll(old(Shared()), old(daemonSeq), plans, i) && ok
      {
        SplitsKeepIntegrity(old(Shared()), old(daemonSeq), plans, i);
        ok := ApplySplit(plans[i]);
      }
      splits := plans;
    }

    /** The snapshot's tgids by cohort, with their task counts, in any order. */
    static method GroupTgids(tc: map<Tgid, CohortId>, sizes: map<CohortId, nat>, tasks: seq<TaskSnapshot>)
      returns (groups: map<CohortId, seq<Member>>)
      ensures GroupsOf(tc, sizes, tasks, groups)
    {
      hide GroupsOf, TgidTasks;
      groups := map[];
      var rest := tc.Keys;
      ghost var done: map<Tgid, CohortId> := map[];
      GroupNone(sizes, tasks);
      while rest != {}
        invariant rest <= tc.Keys
        invariant forall u :: u in done <==> u in tc && u !in rest
        invariant forall u :: u in done ==> done[u] == tc[u]
        invariant GroupsOf(done, sizes, tasks, groups)
        decreases |rest|
      {
        var t :| t in rest;
        rest := rest - {t};
        GroupOne(done, sizes, tasks, groups, t, tc[t]);
        done := done[t := tc[t]];
        if tc[t] in sizes {
          groups := groups[tc[t] := (if tc[t] in groups then groups[tc[t]] else []) + [(t, TgidTasks(tasks, t))]];
        }
      }
      SameMap(done, tc);
    }

    static lemma {:induction false} GroupNone(sizes: map<CohortId, nat>, tasks: seq<TaskSnapshot>)
      ensures GroupsOf(map[], sizes, tasks, map[])
    {
    }

    static lemma {:induction false} GroupOne(tc: map<Tgid, CohortId>, sizes: map<CohortId, nat>,
        tasks: seq<TaskSnapshot>, groups: map<CohortId, seq<Member>>, t: Tgid, c: CohortId)
      requires GroupsOf(tc, sizes, tasks, groups) && t !in tc
      ensures c !in sizes ==> GroupsOf(tc[t := c], sizes, tasks, groups)
      ensures c in sizes ==> GroupsOf(tc[t := c], sizes, tasks,
                groups[c := (if c in groups then groups[c] else []) + [(t, TgidTasks(tasks, t))]])
    {
      hide GroupsOf;
      if c in sizes {
        GroupAdd(tc, sizes, tasks, groups, t, c);
      } else {
        GroupSkip(tc, sizes, tasks, groups, t, c);
      }
    }

    static lemma {:induction false} GroupSkip(tc: map<Tgid, CohortId>, sizes: map<CohortId, nat>,
        tasks: seq<TaskSnapshot>, groups: map<CohortId, seq<Member>>, t: Tgid, c: CohortId)
      requires GroupsOf(tc, sizes, tasks, groups) && t !in tc && c !in sizes
      ensures GroupsOf(tc[t := c], sizes, tasks, groups)
    {
      hide TgidTasks;
    }

    static lemma {:induction false} GroupAdd(tc: map<Tgid, CohortId>, sizes: map<CohortId, nat>,
        tasks: seq<TaskSnapshot>, groups: map<CohortId, seq<Member>>, t: Tgid, c: CohortId)
      requires GroupsOf(tc, sizes, tasks, groups) && t !in tc && c in sizes
      ensures GroupsOf(tc[t := c], sizes, tasks,
                groups[c := (if c in groups then groups[c] else []) + [(t, TgidTasks(tasks, t))]])
    {
      hide TgidTasks;
      var m, tc' := (t, TgidTasks(tasks, t)), tc[t := c];
      var mine := if c in groups then groups[c] else [];
      var groups' := groups[c := mine + [m]];
      forall x ensures x in mine + [m] <==> x in mine || x == m {}
      forall i | 0 <= i < |mine| ensures mine[i].0 != t { assert mine[i] in groups[c]; }
      forall u | u in tc' && tc'[u] in sizes ensures tc'[u] in groups' && u in Connectivity.Tgids(groups'[tc'[u]]) {
        if u == t {
          assert m in groups'[c];
        } else {
          var x :| x in groups[tc[u]] && x.0 == u;
          assert x in groups'[tc[u]];
        }
      }
    }

    /** The first half of a tick: collect, balance, spill. */
    method CollectAndPlace(tasks: seq<TaskSnapshot>, now: nat, llcs: seq<LlcLoad>)
      returns (cohorts: seq<CohortSnapshot>, ghost decision: Option<Decision>)
      requires |llcs| >= 2 ==> Spill.TwoIds(llcs)
      modifies balancer, `tgidCohort, `policy, `counters, `spillTasks, `deadCohorts, `deadTgids, `prevLoadSum,
          `currentSpills
      ensures Shared() == Collected(old(Shared()), SweptTgids(old(GcView()), tasks),
          SweptCohorts(old(GcView()), tasks), decision)
      ensures deadTgids == GC.GcTick(old(GcView()), tasks).deadTgids
      ensures deadCohorts == GC.GcTick(old(GcView()), tasks).deadCohorts
      ensures Snapshots(cohorts, InUse(old(counters), old(tgidCohort), tasks), old(policy), old(counters),
          old(prevLoadSum), residencyOverrides, tasks)
      ensures (balancer.View(), decision) ==
        B.PlanStep(balancer.cfg, B.Retained(old(balancer.View()), InUse(old(counters), old(tgidCohort), tasks)),
                   now, llcs, cohorts)
      ensures currentSpills == Spill.Planned(spillCfg, llcs, cohorts, tasks, old(currentSpills))
      ensures spillTasks == SpillSync.Synced(old(spillTasks), old(currentSpills), currentSpills)
    {
      hide B.PlanStep, B.Retained, Spill.Planned, SpillSync.Synced, SnapshotOf, GC.IdleCohorts, GC.IdleTgids, InUse,
          Rehomed, Spill.TwoIds;
      var tc := tgidCohort;
      cohorts := SnapshotCohorts(tasks, tc);
      assert (set c | c in cohorts :: c.id) == InUse(old(counters), tc, tasks);
      balancer.RetainCohorts(set c | c in cohorts :: c.id);
      GcTgidMap(tc, tasks);
      var d := balancer.Plan(now, llcs, cohorts);
      Apply(d);
      decision := d;
      var desired := Spill.PlanSpills(spillCfg, llcs, cohorts, tasks, currentSpills);
      ApplySpills(desired);
    }

    /** One whole tick: collect, balance, spill, then merge and split from the snapshot taken at its start. */
    method Tick(tasks: seq<TaskSnapshot>, deltas: seq<EdgeRates.Delta>, now: nat, llcs: seq<LlcLoad>)
      returns (ok: bool, cohorts: seq<CohortSnapshot>, ghost decision: Option<Decision>,
               ghost d: Discovery)
      requires EdgeRates.ValidCfg(graph.cfg) && (|llcs| >= 2 ==> Spill.TwoIds(llcs))
      requires Integrity(Shared()) && IdsBelow(Shared(), daemonSeq)
      modifies this, graph, balancer
      // The map writes all succeed, and integrity and the id bound hold again.
      ensures ok && Integrity(Shared()) && IdsBelow(Shared(), daemonSeq)
      // The new maps: collected, then merged, then split, all from the old snapshot.
      ensures MergePlanning.IsMatching(d.merges) && PlansOver(d.merges, old(tgidCohort))
      ensures SplitsOver(d.splits, old(tgidCohort))
      ensures Discovered(graph.cfg, old(graph.edges), graph.edges, old(graph.splitStreak), graph.splitStreak,
                         EdgeRates.Observation(deltas, dt, sampleMult), old(tgidCohort), cohorts, tasks, d)
      ensures var collected := Collected(old(Shared()), SweptTgids(old(GcView()), tasks),
          SweptCohorts(old(GcView()), tasks), decision);
        (Shared(), daemonSeq) ==
          SplitAll(MergedAll(collected, old(tgidCohort), d.merges), old(daemonSeq), d.splits, |d.splits|)
      // Split-off tgids are together on a new cohort at the home they left; the others follow their merges.
      ensures exists ids :: Landed(old(tgidCohort), old(Shared()), d.merges, d.splits, Shared(), ids)
      // tgids are lost only to garbage collection, and the marks are those of one GC tick.
      ensures tgidCohort.Keys == GC.GcTick(old(GcView()), tasks).tgidCohort.Keys
      ensures deadTgids == GC.GcTick(old(GcView()), tasks).deadTgids
      ensures deadCohorts == GC.GcTick(old(GcView()), tasks).deadCohorts
      // Every new cohort id is fresh and lies in the daemon's own id space.
      ensures forall c :: c in policy && c !in old(policy) ==>
        DAEMON_COHORT_BASE + old(daemonSeq) <= c < DAEMON_COHORT_BASE + daemonSeq && c !in old(tgidCohort).Values
      // The spill map is synchronised with the planner's set.
      ensures currentSpills == Spill.Planned(spillCfg, llcs, cohorts, tasks, old(currentSpills))
      ensures spillTasks == SpillSync.Synced(old(spillTasks), old(currentSpills), currentSpills)
    {
      hide MergedAll, SplitAll, Collected, IdsBelow, Integrity, FreshFrom, MergePlanning.IsMatching, PlansOver,
          SplitsOver, Discovered, Landed;
      hide Spill.Planned, SpillSync.Synced, Spill.TwoIds, GC.IdleCohorts, GC.IdleTgids, InUse;
      ghost var deadT, deadC := SweptTgids(GcView(), tasks), SweptCohorts(GcView(), tasks);
      ghost var before := Shared();
      var tc := tgidCohort;
      cohorts, decision := CollectAndPlace(tasks, now, llcs);
      SweptUnreferenced(old(GcView()), tasks);
      CollectedFresh(before, deadT, deadC, decision, daemonSeq);
      ok, d := DiscoverRelationships(cohorts, tasks, tc, deltas);
      TickIntegrity(before, old(daemonSeq), deadT, deadC, decision, d.merges, d.splits);
      ghost var ids := TickLands(before, old(daemonSeq), deadT, deadC, decision, d.merges, d.splits);
    }

    static ghost function SweptTgids(g: GC.State, tasks: seq<TaskSnapshot>): set<Tgid> {
      GC.IdleTgids(g.tgidCohort, tasks) * g.deadTgids
    }

    static ghost function SweptCohorts(g: GC.State, tasks: seq<TaskSnapshot>): set<CohortId> {
      GC.IdleCohorts(g.cohorts, g.tgidCohort, tasks) * g.deadCohorts
    }

    static lemma {:induction false} SweptUnreferenced(g: GC.State, tasks: seq<TaskSnapshot>)
      ensures SweptCohorts(g, tasks) !! g.tgidCohort.Values
    {
    }
  }
}
