/** The wake graph: edge rates, merge confirmation counters and split streaks,
    updated in place by `Observe`, `Merges` and `Splits`.  Every loop over a
    hash map picks its next key arbitrarily. */
module WakeGraph {
  import opened Domain
  import opened Collections
  import opened Connectivity
  import EdgeRates
  import opened MergePlanning
  import SplitPlanning

  class WakeGraph {
    const cfg: WakeGraphCfg
    var edges: map<Edge, EdgeState>
    var splitStreak: map<CohortId, nat>

    constructor (cfg: WakeGraphCfg)
      ensures this.cfg == cfg && edges == map[] && splitStreak == map[]
    {
      this.cfg := cfg;
      edges, splitStreak := map[], map[];
    }

    /** Fold one tick's sampled counter deltas into the edge rates. */
    method Observe(deltas: seq<EdgeRates.Delta>, dt: real, sampleMult: nat)
      requires EdgeRates.ValidCfg(cfg)
      modifies `edges
      ensures edges == EdgeRates.Observed(cfg, old(edges), EdgeRates.Observation(deltas, dt, sampleMult))
    {
      if dt <= 0.0 {
        return;
      }
      ghost var o := EdgeRates.Observation(deltas, dt, sampleMult);
      var traffic := TickTraffic(deltas, sampleMult);
      DecayKnown(o, traffic, dt);
      InsertNew(old(edges), o, traffic, dt);
      PruneNoise(old(edges), o);
    }

    /** Decay every known edge and blend in this tick's traffic. */
    method DecayKnown(ghost o: EdgeRates.Observation, traffic: map<Edge, nat>, dt: real)
      requires EdgeRates.ValidCfg(cfg) && dt == o.dt > 0.0 && IsTraffic(o, traffic)
      modifies `edges
      ensures edges.Keys == old(edges).Keys
      ensures forall e :: e in edges ==> edges[e] == EdgeRates.Blended(cfg, old(edges), o, e)
    {
      hide EdgeRates.Alpha, EdgeRates.Blend, EdgeRates.Normal, EdgeRates.Traffic;
      var alpha := EdgeRates.Alpha(cfg, dt);
      var rest := edges.Keys;
      while rest != {}
        invariant rest <= old(edges).Keys == edges.Keys
        invariant forall e :: e in rest ==> edges[e] == old(edges)[e]
        invariant forall e :: e in edges && e !in rest ==> edges[e] == EdgeRates.Blended(cfg, old(edges), o, e)
        decreases |rest|
      {
        var e :| e in rest;
        rest := rest - {e};
        var count := if e in traffic then traffic[e] else 0;
        var inst := count as real / dt;
        var st := edges[e];
        edges := edges[e := EdgeState(EdgeRates.Blend(alpha, st.rate, inst), inst, st.overTicks)];
      }
    }

    /** Start every edge seen for the first time. */
    method InsertNew(ghost start: map<Edge, EdgeState>, ghost o: EdgeRates.Observation, traffic: map<Edge, nat>,
        dt: real)
      requires EdgeRates.ValidCfg(cfg) && dt == o.dt > 0.0 && IsTraffic(o, traffic)
      requires edges.Keys == start.Keys
      requires forall e :: e in edges ==> edges[e] == EdgeRates.Blended(cfg, start, o, e)
      modifies `edges
      ensures edges.Keys == start.Keys + traffic.Keys
      ensures forall e :: e in edges ==> edges[e] == EdgeRates.Blended(cfg, start, o, e)
    {
      hide EdgeRates.Alpha, EdgeRates.FirstRate, EdgeRates.Blended, IsTraffic;
      var alpha := EdgeRates.Alpha(cfg, dt);
      var rest := traffic.Keys;
      while rest != {}
        invariant rest <= traffic.Keys
        invariant forall e :: e in edges <==> e in start || (e in traffic && e !in rest)
        invariant forall e :: e in edges ==> edges[e] == EdgeRates.Blended(cfg, start, o, e)
        decreases |rest|
      {
        var e :| e in rest;
        rest := rest - {e};
        if e !in edges {
          var inst := traffic[e] as real / dt;
          NewEdge(cfg, start, o, traffic, e);
          edges := edges[e := EdgeState(EdgeRates.FirstRate(alpha, inst), inst, 0)];
        }
      }
    }

    static lemma {:induction false} NewEdge(cfg: WakeGraphCfg, start: map<Edge, EdgeState>, o: EdgeRates.Observation,
        traffic: map<Edge, nat>, e: Edge)
      requires EdgeRates.ValidCfg(cfg) && o.dt > 0.0 && IsTraffic(o, traffic) && e in traffic && e !in start
      ensures var inst := traffic[e] as real / o.dt;
        EdgeRates.Blended(cfg, start, o, e) == EdgeState(EdgeRates.FirstRate(EdgeRates.Alpha(cfg, o.dt), inst), inst, 0)
    {
      hide EdgeRates.Alpha, EdgeRates.FirstRate, EdgeRates.Normal;
    }

    /** Edges decayed to noise are dropped entirely. */
    method PruneNoise(ghost start: map<Edge, EdgeState>, ghost o: EdgeRates.Observation)
      requires EdgeRates.ValidCfg(cfg) && o.dt > 0.0
      requires edges.Keys == start.Keys + EdgeRates.Touched(EdgeRates.Normal(o.deltas, o.sampleMult))
      requires forall e :: e in edges ==> edges[e] == EdgeRates.Blended(cfg, start, o, e)
      modifies `edges
      ensures edges == EdgeRates.Observed(cfg, start, o)
    {
      hide EdgeRates.Blended, EdgeRates.Normal, EdgeRates.Touched;
      edges := map e | e in edges && edges[e].rate >= cfg.splitMinWakesPerSec / 10.0 :: edges[e];
    }

    ghost static predicate IsTraffic(o: EdgeRates.Observation, traffic: map<Edge, nat>) {
      var n := EdgeRates.Normal(o.deltas, o.sampleMult);
      && traffic.Keys == EdgeRates.Touched(n)
      && forall e :: EdgeRates.Traffic(n, e) == if e in traffic then traffic[e] else 0
    }

    /** Sample-compensated traffic per undirected edge. */
    static method TickTraffic(deltas: seq<EdgeRates.Delta>, sampleMult: nat) returns (traffic: map<Edge, nat>)
      ensures forall dt :: IsTraffic(EdgeRates.Observation(deltas, dt, sampleMult), traffic)
    {
      hide EdgeRates.Traffic, EdgeRates.Touched;
      ghost var n := EdgeRates.Normal(deltas, sampleMult);
      traffic := map[];
      NoTraffic(n[..0]);
      for i := 0 to |deltas|
        invariant traffic.Keys == EdgeRates.Touched(n[..i])
        invariant forall e :: EdgeRates.Traffic(n[..i], e) == if e in traffic then traffic[e] else 0
      {
        var (a, b, count) := deltas[i];
        var e := EdgeRates.EKey(a, b);
        traffic := traffic[e := (if e in traffic then traffic[e] else 0) + count * sampleMult];
        TrafficStep(n, i);
      }
      assert n[..|deltas|] == n;
    }

    static lemma {:induction false} NoTraffic(n: seq<(Edge, nat)>)
      requires n == []
      ensures EdgeRates.Touched(n) == {} && forall e :: EdgeRates.Traffic(n, e) == 0
    {
    }

    static lemma {:induction false} TrafficStep(n: seq<(Edge, nat)>, i: nat)
      requires i < |n|
      ensures EdgeRates.Touched(n[..i + 1]) == EdgeRates.Touched(n[..i]) + {n[i].0}
      ensures forall e ::
        EdgeRates.Traffic(n[..i + 1], e) == EdgeRates.Traffic(n[..i], e) + (if n[i].0 == e then n[i].1 else 0)
    {
      assert n[..i + 1] == n[..i] + [n[i]];
      assert n[..i + 1][..i] == n[..i];
    }

    /** Cross-cohort edges sustaining the merge rate; `triggers` lists the edge behind each plan. */
    method Merges(tc: map<Tgid, CohortId>, sizes: map<CohortId, nat>)
      returns (out: seq<MergePlan>, ghost triggers: seq<Edge>)
      modifies `edges
      ensures MergeOutcome(cfg, old(edges), edges, tc, sizes, out, triggers)
    {
      hide Progress, IsTaken;
      out, triggers := [], [];
      var merged: set<CohortId> := {};
      var rest := edges.Keys;
      ProgressNone(cfg, edges, tc, sizes);
      while rest != {}
        invariant rest <= old(edges).Keys == edges.Keys
        invariant Progress(cfg, old(edges), edges, old(edges).Keys - rest, tc, sizes, out, triggers)
        invariant forall e :: e in rest ==> edges[e] == old(edges)[e]
        invariant IsTaken(merged, out)
        decreases |rest|
      {
        var e :| e in rest;
        ghost var done := old(edges).Keys - rest;
        rest := rest - {e};
        assert old(edges).Keys - rest == done + {e};
        var (a, b) := e;
        var st := edges[e];
        if a !in tc || b !in tc {
          SkipEdge(cfg, old(edges), edges, done, tc, sizes, out, triggers, e);
          assert edges[e := st] == edges;
          continue;
        }
        var ca, cb := tc[a], tc[b];
        TakenIs(merged, out, ca);
        TakenIs(merged, out, cb);
        if ca == cb || st.rate < cfg.mergeWakesPerSec || st.inst < cfg.mergeWakesPerSec {
          SkipEdge(cfg, old(edges), edges, done, tc, sizes, out, triggers, e);
          edges := edges[e := st.(overTicks := 0)];
          continue;
        }
        st := st.(overTicks := st.overTicks + 1);
        if st.overTicks < cfg.mergeConfirmTicks || ca in merged || cb in merged {
          SkipEdge(cfg, old(edges), edges, done, tc, sizes, out, triggers, e);
          edges := edges[e := st];
          continue;
        }
        var sa := if ca in sizes then sizes[ca] else 0;
        var sb := if cb in sizes then sizes[cb] else 0;
        var plan := if sa >= sb then MergePlan(ca, cb) else MergePlan(cb, ca);
        PlanEdge(cfg, old(edges), edges, done, tc, sizes, out, triggers, e);
        GrowMerged(merged, out, plan);
        merged := merged + {ca, cb};
        edges := edges[e := st.(overTicks := 0)];
        out, triggers := out + [plan], triggers + [e];
      }
      assert old(edges).Keys - rest == old(edges).Keys;
    }

    /** `merged` holds exactly the cohorts some plan has taken. */
    static ghost predicate IsTaken(merged: set<CohortId>, plans: seq<MergePlan>) {
      forall c :: c in merged <==> Taken(plans, c)
    }

    static lemma {:induction false} TakenIs(merged: set<CohortId>, plans: seq<MergePlan>, c: CohortId)
      requires IsTaken(merged, plans)
      ensures c in merged <==> Taken(plans, c)
    {
    }

    static lemma {:induction false} GrowMerged(merged: set<CohortId>, plans: seq<MergePlan>, p: MergePlan)
      requires IsTaken(merged, plans)
      ensures IsTaken(merged + {p.into, p.from}, plans + [p]) && IsTaken(merged + {p.from, p.into}, plans + [p])
    {
      hide Taken;
      forall c ensures Taken(plans + [p], c) <==> Taken(plans, c) || c in Cohorts(p) { GrowTaken(plans, p, c); }
    }

    static lemma {:induction false} ProgressNone(cfg: WakeGraphCfg, edges: map<Edge, EdgeState>,
        tc: map<Tgid, CohortId>, sizes: map<CohortId, nat>)
      ensures Progress(cfg, edges, edges, edges.Keys - edges.Keys, tc, sizes, [], [])
      ensures IsTaken({}, [])
    {
    }

    /** Cohorts whose internal wake graph has stayed disconnected. */
    method Splits(cohortTgids: map<CohortId, seq<Member>>) returns (out: seq<SplitPlan>)
      modifies `splitStreak
      ensures SplitPlanning.SplitOutcome(cfg, edges, old(splitStreak), splitStreak, cohortTgids, out)
    {
      hide InProgress;
      ghost var start := splitStreak;
      out := [];
      splitStreak := map c | c in splitStreak && c in cohortTgids :: splitStreak[c];
      StartSplits(cfg, edges, start, splitStreak, cohortTgids);
      var rest := cohortTgids.Keys;
      while rest != {}
        invariant rest <= cohortTgids.Keys
        invariant InProgress(cfg, edges, start, splitStreak, cohortTgids, out, rest)
        decreases |rest|
      {
        var c :| c in rest;
        ghost var streak0 := splitStreak;
        StillPending(cfg, edges, start, splitStreak, cohortTgids, out, rest, c);
        var plans := SplitCohort(cohortTgids, c, start);
        StepSplits(cfg, edges, start, streak0, splitStreak, cohortTgids, out, plans, rest, c);
        rest := rest - {c};
        out := out + plans;
      }
      EndSplits(cfg, edges, start, splitStreak, cohortTgids, out);
    }

    /** Cohorts in `rest` are untouched, the others have their outcome. */
    ghost static predicate InProgress(cfg: WakeGraphCfg, edges: map<Edge, EdgeState>, start: map<CohortId, nat>,
        streaks: map<CohortId, nat>, cohorts: map<CohortId, seq<Member>>, out: seq<SplitPlan>, rest: set<CohortId>)
    {
      && (forall c :: c in rest ==> SplitPlanning.StreakOf(streaks, c) == SplitPlanning.StreakOf(start, c))
      && (forall c :: c in rest ==> SplitPlanning.OffsFor(out, c) == [])
      && (forall c :: c !in rest ==> SplitPlanning.CohortOutcome(cfg, edges, start, streaks, cohorts, out, c))
    }

    static lemma {:induction false} StartSplits(cfg: WakeGraphCfg, edges: map<Edge, EdgeState>,
        start: map<CohortId, nat>, streaks: map<CohortId, nat>, cohorts: map<CohortId, seq<Member>>)
      requires streaks == map c | c in start && c in cohorts :: start[c]
      ensures InProgress(cfg, edges, start, streaks, cohorts, [], cohorts.Keys)
    {
      hide SplitPlanning.SplitsOff, SplitPlanning.Disconnected;
    }

    static lemma {:induction false} StillPending(cfg: WakeGraphCfg, edges: map<Edge, EdgeState>,
        start: map<CohortId, nat>, streaks: map<CohortId, nat>, cohorts: map<CohortId, seq<Member>>,
        out: seq<SplitPlan>, rest: set<CohortId>,
        c: CohortId)
      requires InProgress(cfg, edges, start, streaks, cohorts, out, rest) && c in rest
      ensures SplitPlanning.StreakOf(streaks, c) == SplitPlanning.StreakOf(start, c)
    {
    }

    static lemma {:induction false} EndSplits(cfg: WakeGraphCfg, edges: map<Edge, EdgeState>, start: map<CohortId, nat>,
        streaks: map<CohortId, nat>, cohorts: map<CohortId, seq<Member>>, out: seq<SplitPlan>)
      requires InProgress(cfg, edges, start, streaks, cohorts, out, {})
      ensures SplitPlanning.SplitOutcome(cfg, edges, start, streaks, cohorts, out)
    {
      hide SplitPlanning.CohortOutcome;
    }

    static lemma {:induction false} StepSplits(cfg: WakeGraphCfg, edges: map<Edge, EdgeState>,
        start: map<CohortId, nat>, streaks: map<CohortId, nat>, streaks': map<CohortId, nat>,
        cohorts: map<CohortId, seq<Member>>,
        out: seq<SplitPlan>, plans: seq<SplitPlan>, rest: set<CohortId>, c: CohortId)
      requires InProgress(cfg, edges, start, streaks, cohorts, out, rest) && c in rest
      requires forall d :: d != c ==> (d in streaks' <==> d in streaks) && (d in streaks' ==> streaks'[d] == streaks[d])
      requires SplitPlanning.CohortOutcome(cfg, edges, start, streaks', cohorts, plans, c)
      requires forall d :: d != c ==> SplitPlanning.OffsFor(plans, d) == []
      ensures InProgress(cfg, edges, start, streaks', cohorts, out + plans, rest - {c})
    {
      hide SplitPlanning.CohortOutcome;
      forall d
        ensures SplitPlanning.OffsFor(out + plans, d) == SplitPlanning.OffsFor(out, d) + SplitPlanning.OffsFor(plans, d)
      {
        SplitPlanning.OffsForConcat(out, plans, d);
      }
      forall d | d !in rest - {c}
        ensures SplitPlanning.CohortOutcome(cfg, edges, start, streaks', cohorts, out + plans, d)
      {
        OutcomeFrame(cfg, edges, start, if d == c then streaks' else streaks, streaks', cohorts,
                     if d == c then plans else out, out + plans, d);
      }
    }

    /** One cohort of a splits call. */
    method SplitCohort(cohortTgids: map<CohortId, seq<Member>>, c: CohortId, ghost start: map<CohortId, nat>)
      returns (plans: seq<SplitPlan>)
      requires c in cohortTgids
      requires SplitPlanning.StreakOf(splitStreak, c) == SplitPlanning.StreakOf(start, c)
      modifies `splitStreak
      ensures forall d :: d != c ==>
        (d in splitStreak <==> d in old(splitStreak)) && (d in splitStreak ==> splitStreak[d] == old(splitStreak)[d])
      ensures SplitPlanning.CohortOutcome(cfg, edges, start, splitStreak, cohortTgids, plans, c)
      ensures forall d :: d != c ==> SplitPlanning.OffsFor(plans, d) == []
    {
      hide SplitPlanning.Disconnected, SplitPlanning.SplitsOff, Live, IsPartition;
      plans := [];
      var members := cohortTgids[c];
      if |members| < 2 {
        FewMembers(Live(edges, cfg.splitMinWakesPerSec), members);
        splitStreak := splitStreak - {c};
        return;
      }
      var comps := Components(edges, cfg.splitMinWakesPerSec, members);
      SplitPlanning.PartitionCount(Live(edges, cfg.splitMinWakesPerSec), members, comps);
      if |comps| < 2 {
        splitStreak := splitStreak - {c};
        return;
      }
      var streak := (if c in splitStreak then splitStreak[c] else 0) + 1;
      splitStreak := splitStreak[c := streak];
      if streak < cfg.splitConfirmTicks {
        return;
      }
      plans := OffPlans(cfg, edges, c, members, comps);
      splitStreak := splitStreak - {c};
    }

    /** Every component except the largest, skipping ones under the footprint floor. */
    static method OffPlans(cfg: WakeGraphCfg, edges: map<Edge, EdgeState>, c: CohortId, members: seq<Member>,
        comps: map<Tgid, seq<Member>>) returns (plans: seq<SplitPlan>)
      requires IsPartition(Live(edges, cfg.splitMinWakesPerSec), members, comps) && |comps| >= 2
      ensures exists keep :: SplitPlanning.SplitsOff(Live(edges, cfg.splitMinWakesPerSec), members,
                                cfg.splitMinTasks, SplitPlanning.OffsFor(plans, c), keep)
      ensures forall d :: d != c ==> SplitPlanning.OffsFor(plans, d) == []
    {
      hide SplitPlanning.SplitsOff, Live, IsPartition, SplitPlanning.Lists, SortedBy;
      var entries := Values(comps);
      var sorted := SortBy(entries, SplitPlanning.Heaviness);
      SplitPlanning.SortedLists(comps, entries, sorted);
      SplitPlanning.SortedSplitsOff(Live(edges, cfg.splitMinWakesPerSec), members, cfg.splitMinTasks, comps, sorted);
      plans := PlansAfterFirst(cfg.splitMinTasks, c, sorted);
    }

    static method PlansAfterFirst(minTasks: nat, c: CohortId, sorted: seq<SplitPlanning.Entry>)
      returns (plans: seq<SplitPlan>)
      requires sorted != []
      ensures SplitPlanning.OffsFor(plans, c) == SplitPlanning.OffsOf(minTasks, sorted[1..])
      ensures forall d :: d != c ==> SplitPlanning.OffsFor(plans, d) == []
    {
      ghost var rest := sorted[1..];
      plans := [];
      for i := 1 to |sorted|
        invariant SplitPlanning.OffsFor(plans, c) == SplitPlanning.OffsOf(minTasks, rest[..i - 1])
        invariant forall d :: d != c ==> SplitPlanning.OffsFor(plans, d) == []
      {
        var comp := sorted[i].1;
        assert rest[..i][..i - 1] == rest[..i - 1] && rest[i - 1] == sorted[i];
        if SplitPlanning.Weight(comp) >= minTasks {
          var plan := SplitPlan(c, SplitPlanning.Names(comp));
          assert (plans + [plan])[..|plans|] == plans;
          plans := plans + [plan];
        }
      }
      assert rest[..|sorted| - 1] == rest;
    }

    /** The values of a hash map, in iteration order. */
    static method Values(comps: map<Tgid, seq<Member>>) returns (entries: seq<SplitPlanning.Entry>)
      ensures SplitPlanning.Lists(comps, entries) && |entries| == |comps|
    {
      entries := [];
      var rest := comps.Keys;
      while rest != {}
        invariant rest <= comps.Keys && |entries| + |rest| == |comps|
        invariant forall i :: 0 <= i < |entries| ==>
          entries[i].0 in comps && entries[i].0 !in rest && entries[i].1 == comps[entries[i].0]
        invariant forall r :: r in comps && r !in rest ==> (r, comps[r]) in entries
        invariant forall i, j :: 0 <= i < j < |entries| ==> entries[i].0 != entries[j].0
        decreases |rest|
      {
        var r :| r in rest;
        rest := rest - {r};
        entries := entries + [(r, comps[r])];
      }
    }

    static lemma {:induction false} FewMembers(live: set<Edge>, members: seq<Member>)
      requires |members| < 2
      ensures !SplitPlanning.Disconnected(live, members)
    {
      hide Joined;
      forall a | a in Tgids(members) ensures Joined(live, Tgids(members), a, a) {
        JoinedRefl(live, Tgids(members), a);
      }
    }

    /** A cohort's outcome depends only on its own streak and its own plans. */
    static lemma {:induction false} OutcomeFrame(cfg: WakeGraphCfg, edges: map<Edge, EdgeState>,
        start: map<CohortId, nat>, s: map<CohortId, nat>, s': map<CohortId, nat>, cohorts: map<CohortId, seq<Member>>,
        p: seq<SplitPlan>, p': seq<SplitPlan>, c: CohortId)
      requires SplitPlanning.CohortOutcome(cfg, edges, start, s, cohorts, p, c)
      requires c in s <==> c in s'
      requires c in s ==> s[c] == s'[c]
      requires SplitPlanning.OffsFor(p, c) == SplitPlanning.OffsFor(p', c)
      ensures SplitPlanning.CohortOutcome(cfg, edges, start, s', cohorts, p', c)
    {
      hide SplitPlanning.SplitsOff, SplitPlanning.Broken;
    }
  }
}
