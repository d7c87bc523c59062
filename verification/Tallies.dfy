/** The numbers the daemon plans with, as counts and differences a reader can check against the
    task scan: task counts per tgid and per cohort, component weights, and cohort snapshots. */
module Tallies {
  import opened Domain
  import opened Collections
  import opened Connectivity
  import opened DaemonMaps
  import GC = GarbageCollection
  import SplitPlanning
  import opened Cuts
  import opened Scheduler

  // ----- Counting tasks -----

  /** The scanned tasks whose tgid is in `ts`, by position. */
  ghost function Under(tasks: seq<TaskSnapshot>, ts: set<Tgid>): set<nat> {
    set i | 0 <= i < |tasks| && tasks[i].tgid in ts
  }

  /** The scanned tasks of a cohort, by position. */
  ghost function Of(tasks: seq<TaskSnapshot>, c: CohortId): set<nat> {
    set i | 0 <= i < |tasks| && tasks[i].cohortId == c
  }

  lemma {:induction false} TgidTasksCounts(tasks: seq<TaskSnapshot>, t: Tgid)
    ensures TgidTasks(tasks, t) == |Under(tasks, {t})|
  {
    if tasks == [] {
      assert Under(tasks, {t}) == {};
    } else {
      var n := |tasks| - 1;
      TgidTasksCounts(tasks[..n], t);
      UnderNext(tasks, t);
    }
  }

  lemma {:induction false} UnderNext(tasks: seq<TaskSnapshot>, t: Tgid)
    requires tasks != []
    ensures var n := |tasks| - 1;
      |Under(tasks, {t})| == |Under(tasks[..n], {t})| + (if tasks[n].tgid == t then 1 else 0)
  {
    var n := |tasks| - 1;
    var before := Under(tasks[..n], {t});
    assert n !in before;
    if tasks[n].tgid == t {
      assert Under(tasks, {t}) == before + {n};
    } else {
      assert Under(tasks, {t}) == before;
    }
  }

  lemma {:induction false} TaskCountCounts(tasks: seq<TaskSnapshot>, c: CohortId)
    ensures GC.TaskCount(tasks, c) == |Of(tasks, c)|
  {
    if tasks == [] {
      assert Of(tasks, c) == {};
    } else {
      var n := |tasks| - 1;
      TaskCountCounts(tasks[..n], c);
      OfNext(tasks, c);
    }
  }

  lemma {:induction false} OfNext(tasks: seq<TaskSnapshot>, c: CohortId)
    requires tasks != []
    ensures var n := |tasks| - 1;
      |Of(tasks, c)| == |Of(tasks[..n], c)| + (if tasks[n].cohortId == c then 1 else 0)
  {
    var n := |tasks| - 1;
    var before := Of(tasks[..n], c);
    assert n !in before;
    if tasks[n].cohortId == c {
      assert Of(tasks, c) == before + {n};
    } else {
      assert Of(tasks, c) == before;
    }
  }

  /** Each tgid once, with the number of its tasks. */
  ghost predicate Tallied(tasks: seq<TaskSnapshot>, members: seq<Member>) {
    && (forall m :: m in members ==> m.1 == TgidTasks(tasks, m.0))
    && (forall i, j :: 0 <= i < j < |members| ==> members[i].0 != members[j].0)
  }

  /** The weight of tallied members is the number of scanned tasks under their tgids. */
  lemma {:induction false} WeightCounts(tasks: seq<TaskSnapshot>, members: seq<Member>)
    requires Tallied(tasks, members)
    ensures SplitPlanning.Weight(members) == |Under(tasks, Tgids(members))|
  {
    hide TgidTasks, Under, Tallied;
    if members == [] {
      NobodyUnder(tasks);
      assert Tgids(members) == {};
    } else {
      var n := |members| - 1;
      var before, m := members[..n], members[n];
      TalliedBefore(tasks, members);
      WeightCounts(tasks, before);
      TgidTasksCounts(tasks, m.0);
      UnderSplits(tasks, Tgids(before), m.0);
    }
  }

  lemma {:induction false} NobodyUnder(tasks: seq<TaskSnapshot>)
    ensures Under(tasks, {}) == {}
  {
  }

  lemma {:induction false} TalliedBefore(tasks: seq<TaskSnapshot>, members: seq<Member>)
    requires Tallied(tasks, members) && members != []
    ensures var n := |members| - 1; var before, m := members[..n], members[n];
      && Tallied(tasks, before) && m.1 == TgidTasks(tasks, m.0)
      && m.0 !in Tgids(before) && Tgids(members) == Tgids(before) + {m.0}
  {
    hide TgidTasks;
    var n := |members| - 1;
    var before, m := members[..n], members[n];
    assert members == before + [m];
    forall x | x in before ensures x.0 != m.0 && x in members {
      var i :| 0 <= i < n && members[i] == x;
    }
  }

  lemma {:induction false} UnderSplits(tasks: seq<TaskSnapshot>, ts: set<Tgid>, t: Tgid)
    requires t !in ts
    ensures |Under(tasks, ts + {t})| == |Under(tasks, ts)| + |Under(tasks, {t})|
  {
    var a, b := Under(tasks, ts), Under(tasks, {t});
    assert Under(tasks, ts + {t}) == a + b && a !! b;
  }

  lemma {:induction false} ComponentTallied(tasks: seq<TaskSnapshot>, live: set<Edge>, all: set<Tgid>,
      members: seq<Member>, t: Tgid)
    requires Tallied(tasks, members)
    ensures Tallied(tasks, ComponentOf(live, all, members, t))
    ensures forall m :: m in ComponentOf(live, all, members, t) ==> m in members
  {
    hide TgidTasks, Joined;
    if members != [] {
      var n := |members| - 1;
      var before := members[..n];
      assert members == before + [members[n]];
      ComponentTallied(tasks, live, all, before, t);
      var comp := ComponentOf(live, all, before, t);
      forall i | 0 <= i < |comp| ensures comp[i].0 != members[n].0 {
        assert comp[i] in before;
        var j :| 0 <= j < n && members[j] == comp[i];
      }
    }
  }

  /** Split sizes: what is split off has at least the required number of tasks, and a component with at
      least as many tasks as any of it stays behind. */
  lemma {:induction false} SplitSizes(tasks: seq<TaskSnapshot>, live: set<Edge>, members: seq<Member>, minTasks: nat,
      offs: seq<seq<Tgid>>, keep: Tgid, i: nat) returns (stays: set<Tgid>)
    requires Tallied(tasks, members) && SplitPlanning.SplitsOff(live, members, minTasks, offs, keep) && i < |offs|
    ensures var off := Elements(offs[i]);
      && minTasks <= |Under(tasks, off)| <= |Under(tasks, stays)|
      && keep in stays && stays <= Tgids(members) && forall j, t :: 0 <= j < |offs| && t in offs[j] ==> t !in stays
  {
    hide SplitPlanning.SplitsOff, SplitPlanning.Weight, Tallied, Under, Joined, ComponentOf, Elements;
    var all := Tgids(members);
    var r := OffWeight(live, members, minTasks, offs, keep, i);
    ComponentWeight(tasks, live, members, r);
    ComponentWeight(tasks, live, members, keep);
    stays := Tgids(ComponentOf(live, all, members, keep));
    StaysBehind(live, members, minTasks, offs, keep);
  }

  lemma {:induction false} OffWeight(live: set<Edge>, members: seq<Member>, minTasks: nat, offs: seq<seq<Tgid>>,
      keep: Tgid, i: nat) returns (r: Tgid)
    requires SplitPlanning.SplitsOff(live, members, minTasks, offs, keep) && i < |offs|
    ensures var all := Tgids(members);
      var comp, kept := ComponentOf(live, all, members, r), ComponentOf(live, all, members, keep);
      && Elements(offs[i]) == Tgids(comp)
      && minTasks <= SplitPlanning.Weight(comp) <= SplitPlanning.Weight(kept)
  {
    hide Joined, ComponentOf, SplitPlanning.Weight;
    assert SplitPlanning.IsSomeOff(live, members, minTasks, keep, offs[i]);
    r :| SplitPlanning.IsOff(live, members, minTasks, keep, r, offs[i]);
  }

  lemma {:induction false} ComponentWeight(tasks: seq<TaskSnapshot>, live: set<Edge>, members: seq<Member>, t: Tgid)
    requires Tallied(tasks, members)
    ensures var comp := ComponentOf(live, Tgids(members), members, t);
      SplitPlanning.Weight(comp) == |Under(tasks, Tgids(comp))|
  {
    hide Tallied;
    ComponentTallied(tasks, live, Tgids(members), members, t);
    WeightCounts(tasks, ComponentOf(live, Tgids(members), members, t));
  }

  lemma {:induction false} StaysBehind(live: set<Edge>, members: seq<Member>, minTasks: nat, offs: seq<seq<Tgid>>,
      keep: Tgid)
    requires SplitPlanning.SplitsOff(live, members, minTasks, offs, keep)
    ensures var stays := Tgids(ComponentOf(live, Tgids(members), members, keep));
      && keep in stays && stays <= Tgids(members) && forall j, t :: 0 <= j < |offs| && t in offs[j] ==> t !in stays
  {
    hide Joined;
    var all := Tgids(members);
    var comp := ComponentOf(live, all, members, keep);
    forall m ensures m in comp <==> m in members && Joined(live, all, keep, m.0) {
      ComponentMembers(live, all, members, keep, m);
    }
    JoinedRefl(live, all, keep);
    var m :| m in members && m.0 == keep;
    assert m in comp;
    forall j, t | 0 <= j < |offs| && t in offs[j] ensures t !in Tgids(comp) {
      if t in Tgids(comp) {
        SplitPlanning.SplitSound(live, members, minTasks, offs, keep, j, t, t);
        assert false;
      }
    }
  }

  /** Nothing large enough is forgotten: every component but the kept one with at least the required number
      of tasks is split off as a whole. */
  lemma {:induction false} HeavySplitsOff(tasks: seq<TaskSnapshot>, edges: map<Edge, EdgeState>, minRate: real,
      members: seq<Member>, minTasks: nat, offs: seq<seq<Tgid>>, keep: Tgid, t: Tgid)
    requires Tallied(tasks, members) && SplitPlanning.SplitsOff(Live(edges, minRate), members, minTasks, offs, keep)
    requires t in Tgids(members) && t !in Reach(edges, minRate, Tgids(members), keep)
    requires minTasks <= |Under(tasks, Reach(edges, minRate, Tgids(members), t))|
    ensures exists off :: off in offs && Elements(off) == Reach(edges, minRate, Tgids(members), t)
  {
    hide Joined, SplitPlanning.Weight, Tallied, Under;
    var live, all := Live(edges, minRate), Tgids(members);
    var comp := ComponentOf(live, all, members, t);
    ComponentReach(edges, minRate, members, t);
    ComponentWeight(tasks, live, members, t);
    var off := SplitPlanning.Names(comp);
    assert SplitPlanning.IsOff(live, members, minTasks, keep, t, off);
    assert Elements(off) == Tgids(comp);
  }

  lemma {:induction false} ComponentReach(edges: map<Edge, EdgeState>, minRate: real, members: seq<Member>, t: Tgid)
    ensures Tgids(ComponentOf(Live(edges, minRate), Tgids(members), members, t)) ==
            Reach(edges, minRate, Tgids(members), t)
  {
    hide Joined;
    var live, all := Live(edges, minRate), Tgids(members);
    forall m ensures m in ComponentOf(live, all, members, t) <==> m in members && Joined(live, all, t, m.0) {
      ComponentMembers(live, all, members, t, m);
    }
    hide ComponentOf;
  }

  /** A planned split, against the tick's own scan and snapshot: it takes at least the required number of
      tasks out of its cohort, leaves at least as many together behind, and cuts no edge at the split rate. */
  lemma {:induction false} PlannedSplit(cfg: WakeGraphCfg, edges: map<Edge, EdgeState>, streaks: map<CohortId, nat>,
      streaks': map<CohortId, nat>, tc: map<Tgid, CohortId>, sizes: map<CohortId, nat>, tasks: seq<TaskSnapshot>,
      groups: map<CohortId, seq<Member>>, plans: seq<SplitPlan>, i: nat) returns (stays: set<Tgid>)
    requires GroupsOf(tc, sizes, tasks, groups) && i < |plans|
    requires SplitPlanning.SplitOutcome(cfg, edges, streaks, streaks', groups, plans)
    ensures var off, c := Elements(plans[i].offTgids), plans[i].cohort;
      && cfg.splitMinTasks <= |Under(tasks, off)| <= |Under(tasks, stays)|
      && stays != {} && (forall t :: t in stays ==> t in tc && tc[t] == c && t !in off)
      && forall a, b :: a in tc && b in tc && tc[a] == c == tc[b] && (a, b) in edges ==>
           (a in off <==> b in off) || edges[(a, b)].rate < cfg.splitMinWakesPerSec
  {
    hide SplitPlanning.SplitsOff, SplitPlanning.OffsFor, SplitPlanning.Disconnected, TgidTasks, Under;
    var c := plans[i].cohort;
    var members, offs := if c in groups then groups[c] else [], SplitPlanning.OffsFor(plans, c);
    var k := OffsForAt(plans, i);
    assert SplitPlanning.CohortOutcome(cfg, edges, streaks, streaks', groups, plans, c);
    var live := Live(edges, cfg.splitMinWakesPerSec);
    var keep :| SplitPlanning.SplitsOff(live, members, cfg.splitMinTasks, offs, keep);
    assert Tallied(tasks, members);
    stays := SplitSizes(tasks, live, members, cfg.splitMinTasks, offs, keep, k);
    OffMeans(edges, cfg.splitMinWakesPerSec, members, cfg.splitMinTasks, offs, keep, k, {});
    GroupHolds(tc, sizes, tasks, groups, c);
    NothingCut(edges, cfg.splitMinWakesPerSec, Tgids(members), offs[k]);
  }

  lemma {:induction false} GroupHolds(tc: map<Tgid, CohortId>, sizes: map<CohortId, nat>, tasks: seq<TaskSnapshot>,
      groups: map<CohortId, seq<Member>>, c: CohortId)
    requires GroupsOf(tc, sizes, tasks, groups) && c in groups
    ensures forall t :: t in Tgids(groups[c]) <==> t in tc && tc[t] == c
  {
    hide TgidTasks;
    forall t | t in Tgids(groups[c]) ensures t in tc && tc[t] == c {
      var m :| m in groups[c] && m.0 == t;
    }
  }

  lemma {:induction false} NothingCut(edges: map<Edge, EdgeState>, minRate: real, all: set<Tgid>, off: seq<Tgid>)
    requires forall e :: !Crosses(edges, minRate, all, Elements(off), e)
    ensures forall a, b :: (a, b) in edges && minRate <= edges[(a, b)].rate && a in all && b in all ==>
      (a in Elements(off) <==> b in Elements(off))
  {
    forall a, b | (a, b) in edges && minRate <= edges[(a, b)].rate && a in all && b in all
      ensures a in Elements(off) <==> b in Elements(off)
    {
      assert !Crosses(edges, minRate, all, Elements(off), (a, b));
    }
  }

  // ----- Cohort snapshots -----

  /** What the balancer is told about a cohort: home and pin from its policy, the number of its scanned
      tasks, what its load sum grew by since the last tick, nothing at first sight or after a reset, and
      its own residency if it has one. */
  lemma {:induction false} SnapshotMeans(policy: map<CohortId, Policy>, counters: map<CohortId, nat>,
      prev: map<CohortId, nat>, overrides: map<CohortId, nat>, tasks: seq<TaskSnapshot>, id: CohortId)
    requires id in counters
    ensures var s := SnapshotOf(policy, counters, prev, overrides, tasks, id);
      && s.id == id && s.nrTasks == |Of(tasks, id)|
      && (id in policy ==> s.homeLlc == policy[id].homeLlc && s.pinned == policy[id].pinned)
      && (id !in policy ==> s.homeLlc == 0 && !s.pinned)
      && (id in prev && prev[id] <= counters[id] ==> prev[id] + s.load == counters[id])
      && (id !in prev || prev[id] > counters[id] ==> s.load == 0)
      && (id in overrides ==> s.residency == Some(overrides[id])) && (id !in overrides ==> s.residency == None)
  {
    TaskCountCounts(tasks, id);
  }

  /** A cohort is in use exactly when a scanned task is in it or a snapshotted tgid maps to it. */
  lemma {:induction false} InUseMeans(counters: map<CohortId, nat>, tc: map<Tgid, CohortId>, tasks: seq<TaskSnapshot>,
      c: CohortId)
    ensures c in InUse(counters, tc, tasks) <==>
      c in counters && ((exists u :: u in tasks && u.cohortId == c) || (exists t :: t in tc && tc[t] == c))
  {
    GC.CountZero(tasks, c);
    hide GC.TaskCount;
  }

  /** The sizes handed to the wake graph are the snapshots' task counts. */
  lemma {:induction false} SizeMapMeans(cohorts: seq<CohortSnapshot>, c: CohortId)
    requires forall i, j :: 0 <= i < j < |cohorts| ==> cohorts[i].id != cohorts[j].id
    ensures c in SizeMap(cohorts) <==> exists s :: s in cohorts && s.id == c
    ensures forall s :: s in cohorts ==> s.id in SizeMap(cohorts) && SizeMap(cohorts)[s.id] == s.nrTasks
  {
    if cohorts != [] {
      var n := |cohorts| - 1;
      SizeMapMeans(cohorts[..n], c);
      assert cohorts == cohorts[..n] + [cohorts[n]];
      forall s | s in cohorts[..n] ensures s.id != cohorts[n].id {
        var i :| 0 <= i < n && cohorts[i] == s;
      }
    }
  }
}
