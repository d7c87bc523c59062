/** What one `WakeGraph::merges` call may plan, for every iteration order, and
    what its confirmation counters prove about the past. */
module MergePlanning {
  import opened Domain
  import EdgeRates

  // ----- One call -----

  predicate Mapped(tc: map<Tgid, CohortId>, e: Edge) {
    e.0 in tc && e.1 in tc
  }

  /** A cross-cohort edge with both its average and this tick's rate at the merge threshold. */
  predicate Hot(cfg: WakeGraphCfg, tc: map<Tgid, CohortId>, e: Edge, st: EdgeState) {
    && Mapped(tc, e) && tc[e.0] != tc[e.1]
    && st.rate >= cfg.mergeWakesPerSec && st.inst >= cfg.mergeWakesPerSec
  }

  predicate Confirmed(cfg: WakeGraphCfg, tc: map<Tgid, CohortId>, edges: map<Edge, EdgeState>, e: Edge) {
    e in edges && Hot(cfg, tc, e, edges[e]) && edges[e].overTicks + 1 >= cfg.mergeConfirmTicks
  }

  function SizeOf(sizes: map<CohortId, nat>, c: CohortId): nat {
    if c in sizes then sizes[c] else 0
  }

  /** The cohort with more tasks absorbs the other; the lower tgid's cohort wins ties. */
  function PlanFor(tc: map<Tgid, CohortId>, sizes: map<CohortId, nat>, e: Edge): MergePlan
    requires Mapped(tc, e)
  {
    var ca, cb := tc[e.0], tc[e.1];
    if SizeOf(sizes, ca) >= SizeOf(sizes, cb) then MergePlan(ca, cb) else MergePlan(cb, ca)
  }

  function Cohorts(p: MergePlan): set<CohortId> {
    {p.into, p.from}
  }

  /** No cohort appears in two plans. */
  ghost predicate IsMatching(plans: seq<MergePlan>) {
    && (forall i :: 0 <= i < |plans| ==> plans[i].into != plans[i].from)
    && (forall i, j :: 0 <= i < j < |plans| ==> Cohorts(plans[i]) !! Cohorts(plans[j]))
  }

  ghost predicate Taken(plans: seq<MergePlan>, c: CohortId) {
    exists i :: 0 <= i < |plans| && c in Cohorts(plans[i])
  }

  function NextTicks(cfg: WakeGraphCfg, tc: map<Tgid, CohortId>, e: Edge, st: EdgeState, triggered: bool): nat {
    if !Mapped(tc, e) then st.overTicks
    else if Hot(cfg, tc, e, st) && !triggered then st.overTicks + 1
    else 0
  }

  /** Every plan comes from a confirmed edge already processed. */
  ghost predicate PlansJustified(cfg: WakeGraphCfg, edges: map<Edge, EdgeState>, done: set<Edge>,
      tc: map<Tgid, CohortId>, sizes: map<CohortId, nat>, plans: seq<MergePlan>, triggers: seq<Edge>)
  {
    && |triggers| == |plans|
    && (forall i :: 0 <= i < |plans| ==>
          && triggers[i] in done
          && Confirmed(cfg, tc, edges, triggers[i])
          && plans[i] == PlanFor(tc, sizes, triggers[i]))
  }

  /** No processed confirmed edge lies between two cohorts left out of every plan. */
  ghost predicate Covered(cfg: WakeGraphCfg, edges: map<Edge, EdgeState>, done: set<Edge>,
      tc: map<Tgid, CohortId>, plans: seq<MergePlan>)
  {
    forall e :: e in done && Confirmed(cfg, tc, edges, e) ==> Taken(plans, tc[e.0]) || Taken(plans, tc[e.1])
  }

  /** Counters of processed edges have advanced; nothing else changed. */
  ghost predicate Counted(cfg: WakeGraphCfg, edges: map<Edge, EdgeState>, edges': map<Edge, EdgeState>,
      done: set<Edge>, tc: map<Tgid, CohortId>, triggers: seq<Edge>)
  {
    && edges'.Keys == edges.Keys
    && (forall e :: e in edges && e !in done ==> edges'[e] == edges[e])
    && (forall e :: e in edges && e in done ==>
          edges'[e] == edges[e].(overTicks := NextTicks(cfg, tc, e, edges[e], e in triggers)))
  }

  /** The state of a call after processing the edges in `done`. */
  ghost predicate Progress(cfg: WakeGraphCfg, edges: map<Edge, EdgeState>, edges': map<Edge, EdgeState>,
      done: set<Edge>, tc: map<Tgid, CohortId>, sizes: map<CohortId, nat>,
      plans: seq<MergePlan>, triggers: seq<Edge>)
  {
    && PlansJustified(cfg, edges, done, tc, sizes, plans, triggers)
    && IsMatching(plans)
    && Covered(cfg, edges, done, tc, plans)
    && Counted(cfg, edges, edges', done, tc, triggers)
  }

  /** A whole call. */
  ghost predicate MergeOutcome(cfg: WakeGraphCfg, edges: map<Edge, EdgeState>, edges': map<Edge, EdgeState>,
      tc: map<Tgid, CohortId>, sizes: map<CohortId, nat>, plans: seq<MergePlan>, triggers: seq<Edge>)
  {
    Progress(cfg, edges, edges', edges.Keys, tc, sizes, plans, triggers)
  }

  /** Processing an edge that plans nothing. */
  lemma {:induction false} SkipEdge(cfg: WakeGraphCfg, edges: map<Edge, EdgeState>, edges': map<Edge, EdgeState>,
      done: set<Edge>, tc: map<Tgid, CohortId>, sizes: map<CohortId, nat>, plans: seq<MergePlan>, triggers: seq<Edge>,
      e: Edge)
    requires Progress(cfg, edges, edges', done, tc, sizes, plans, triggers) && e in edges && e !in done
    requires Confirmed(cfg, tc, edges, e) ==> Taken(plans, tc[e.0]) || Taken(plans, tc[e.1])
    ensures Progress(cfg, edges, edges'[e := edges[e].(overTicks := NextTicks(cfg, tc, e, edges[e], false))],
                     done + {e}, tc, sizes, plans, triggers)
  {
    hide IsMatching, Confirmed, Taken, NextTicks, PlanFor;
  }

  /** Processing a confirmed edge between two untaken cohorts. */
  lemma {:induction false} PlanEdge(cfg: WakeGraphCfg, edges: map<Edge, EdgeState>, edges': map<Edge, EdgeState>,
      done: set<Edge>, tc: map<Tgid, CohortId>, sizes: map<CohortId, nat>, plans: seq<MergePlan>, triggers: seq<Edge>,
      e: Edge)
    requires Progress(cfg, edges, edges', done, tc, sizes, plans, triggers) && e in edges && e !in done
    requires Confirmed(cfg, tc, edges, e) && !Taken(plans, tc[e.0]) && !Taken(plans, tc[e.1])
    ensures Progress(cfg, edges, edges'[e := edges[e].(overTicks := 0)],
                     done + {e}, tc, sizes, plans + [PlanFor(tc, sizes, e)], triggers + [e])
  {
    var p := PlanFor(tc, sizes, e);
    GrowMatching(plans, p);
    forall c ensures Taken(plans + [p], c) <==> Taken(plans, c) || c in Cohorts(p) { GrowTaken(plans, p, c); }
    assert Covered(cfg, edges, done + {e}, tc, plans + [p]) by { hide Taken, Confirmed; }
    assert PlansJustified(cfg, edges, done + {e}, tc, sizes, plans + [p], triggers + [e]) by {
      hide Confirmed, PlanFor;
    }
    assert forall x :: x in triggers + [e] <==> x in triggers || x == e;
    hide Confirmed, PlanFor, Taken, IsMatching, Covered, PlansJustified, Hot;
  }

  lemma {:induction false} GrowTaken(plans: seq<MergePlan>, p: MergePlan, c: CohortId)
    ensures Taken(plans + [p], c) <==> Taken(plans, c) || c in Cohorts(p)
  {
    var plans' := plans + [p];
    assert plans'[|plans|] == p;
    if Taken(plans, c) {
      var i :| 0 <= i < |plans| && c in Cohorts(plans[i]);
      assert plans'[i] == plans[i];
    }
  }

  lemma {:induction false} GrowMatching(plans: seq<MergePlan>, p: MergePlan)
    requires IsMatching(plans) && p.into != p.from && !Taken(plans, p.into) && !Taken(plans, p.from)
    ensures IsMatching(plans + [p])
  {
  }

  lemma {:induction false} Distinct(plans: seq<MergePlan>)
    requires IsMatching(plans)
    ensures forall i :: 0 <= i < |plans| ==> plans[i].into != plans[i].from
    ensures forall i, j :: 0 <= i < j < |plans| ==>
      && plans[i].into != plans[j].into && plans[i].from != plans[j].from
      && plans[i].into != plans[j].from && plans[i].from != plans[j].into
  {
    forall i, j | 0 <= i < j < |plans|
      ensures plans[i].into != plans[j].into && plans[i].from != plans[j].from
      ensures plans[i].into != plans[j].from && plans[i].from != plans[j].into
    {
      assert plans[i].into in Cohorts(plans[i]) && plans[i].from in Cohorts(plans[i]);
      assert Cohorts(plans[i]) !! Cohorts(plans[j]);
    }
  }

  /** The plans of one call as a caller sees them: a maximal matching of the confirmed
      cross-cohort edges, each absorbing the smaller cohort. */
  lemma {:induction false} MaximalMatching(cfg: WakeGraphCfg, edges: map<Edge, EdgeState>, edges': map<Edge, EdgeState>,
      tc: map<Tgid, CohortId>, sizes: map<CohortId, nat>, plans: seq<MergePlan>, triggers: seq<Edge>)
    requires MergeOutcome(cfg, edges, edges', tc, sizes, plans, triggers)
    ensures IsMatching(plans)
    ensures forall i :: 0 <= i < |plans| ==> plans[i].into != plans[i].from
    ensures forall i, j :: 0 <= i < j < |plans| ==>
      && plans[i].into != plans[j].into && plans[i].from != plans[j].from
      && plans[i].into != plans[j].from && plans[i].from != plans[j].into
    ensures forall i :: 0 <= i < |plans| ==>
      && SizeOf(sizes, plans[i].into) >= SizeOf(sizes, plans[i].from)
      && plans[i].into in tc.Values && plans[i].from in tc.Values
    ensures forall e :: Confirmed(cfg, tc, edges, e) ==>
      exists i :: 0 <= i < |plans| && (tc[e.0] in Cohorts(plans[i]) || tc[e.1] in Cohorts(plans[i]))
  {
    hide IsMatching;
    Distinct(plans);
    forall e | Confirmed(cfg, tc, edges, e)
      ensures exists i :: 0 <= i < |plans| && (tc[e.0] in Cohorts(plans[i]) || tc[e.1] in Cohorts(plans[i]))
    {
      assert Taken(plans, tc[e.0]) || Taken(plans, tc[e.1]);
    }
    forall i | 0 <= i < |plans|
      ensures plans[i].into in tc.Values && plans[i].from in tc.Values
    {
      assert Confirmed(cfg, tc, edges, triggers[i]);
      assert triggers[i].0 in tc.Keys && triggers[i].1 in tc.Keys;
    }
  }

  /** A plan in plain terms: its edge joins two mapped, different cohorts, its average and its last rate are
      at the merge threshold, and this is at least its `mergeConfirmTicks`-th such call; the cohort with more
      tasks absorbs the other, and the lower tgid's wins a tie. */
  lemma {:induction false} PlanMeans(cfg: WakeGraphCfg, edges: map<Edge, EdgeState>, edges': map<Edge, EdgeState>,
      tc: map<Tgid, CohortId>, sizes: map<CohortId, nat>, plans: seq<MergePlan>, triggers: seq<Edge>, i: nat)
    requires MergeOutcome(cfg, edges, edges', tc, sizes, plans, triggers) && i < |plans|
    ensures |triggers| == |plans| && var (a, b) := triggers[i];
      && (a, b) in edges && a in tc && b in tc && tc[a] != tc[b]
      && cfg.mergeWakesPerSec <= edges[(a, b)].rate && cfg.mergeWakesPerSec <= edges[(a, b)].inst
      && cfg.mergeConfirmTicks <= edges[(a, b)].overTicks + 1
      && var na, nb := if tc[a] in sizes then sizes[tc[a]] else 0, if tc[b] in sizes then sizes[tc[b]] else 0;
         plans[i] == if na < nb then MergePlan(tc[b], tc[a]) else MergePlan(tc[a], tc[b])
  {
    hide IsMatching, Covered, Counted;
  }

  /** An edge's counter in plain terms: frozen while an endpoint has no cohort; one more on a call with the
      endpoints in different cohorts and both rates at the threshold, unless the edge makes a plan; back to
      zero otherwise.  Rates and keys stay. */
  lemma {:induction false} CounterMeans(cfg: WakeGraphCfg, edges: map<Edge, EdgeState>, edges': map<Edge, EdgeState>,
      tc: map<Tgid, CohortId>, sizes: map<CohortId, nat>, plans: seq<MergePlan>, triggers: seq<Edge>, a: Tgid, b: Tgid)
    requires MergeOutcome(cfg, edges, edges', tc, sizes, plans, triggers)
    ensures edges'.Keys == edges.Keys
    ensures (a, b) in edges ==>
      var st, st' := edges[(a, b)], edges'[(a, b)];
      var hot := a in tc && b in tc && tc[a] != tc[b]
                 && cfg.mergeWakesPerSec <= st.rate && cfg.mergeWakesPerSec <= st.inst;
      && st'.rate == st.rate && st'.inst == st.inst
      && (a !in tc || b !in tc ==> st'.overTicks == st.overTicks)
      && (hot && (a, b) !in triggers ==> st'.overTicks == st.overTicks + 1)
      && (a in tc && b in tc && (!hot || (a, b) in triggers) ==> st'.overTicks == 0)
  {
    hide IsMatching, Covered, PlansJustified;
  }

  /** Coverage in plain terms: an edge that has earned its merge has one of its cohorts in a plan. */
  lemma {:induction false} CoverageMeans(cfg: WakeGraphCfg, edges: map<Edge, EdgeState>, edges': map<Edge, EdgeState>,
      tc: map<Tgid, CohortId>, sizes: map<CohortId, nat>, plans: seq<MergePlan>, triggers: seq<Edge>, a: Tgid, b: Tgid)
    requires MergeOutcome(cfg, edges, edges', tc, sizes, plans, triggers)
    requires (a, b) in edges && a in tc && b in tc && tc[a] != tc[b]
    requires cfg.mergeWakesPerSec <= edges[(a, b)].rate && cfg.mergeWakesPerSec <= edges[(a, b)].inst
    requires cfg.mergeConfirmTicks <= edges[(a, b)].overTicks + 1
    ensures exists p :: p in plans && (p.into == tc[a] || p.from == tc[a] || p.into == tc[b] || p.from == tc[b])
  {
    hide IsMatching, Counted, PlansJustified;
    var e: Edge := (a, b);
    assert Confirmed(cfg, tc, edges, e);
    var c := if Taken(plans, tc[a]) then tc[a] else tc[b];
    assert Taken(plans, c);
    var i :| 0 <= i < |plans| && c in Cohorts(plans[i]);
    assert plans[i] in plans;
  }

  // ----- Runs -----

  /** One tick of the wake graph: an observation, then a merges call. */
  datatype Call = Call(obs: EdgeRates.Observation, tc: map<Tgid, CohortId>, sizes: map<CohortId, nat>,
                       plans: seq<MergePlan>, triggers: seq<Edge>)

  /** The edges as the i-th merges call sees them. */
  function Seen(cfg: WakeGraphCfg, calls: seq<Call>, states: seq<map<Edge, EdgeState>>, i: nat): map<Edge, EdgeState>
    requires EdgeRates.ValidCfg(cfg) && i < |calls| <= |states|
  {
    EdgeRates.Observed(cfg, states[i], calls[i].obs)
  }

  ghost predicate IsRun(cfg: WakeGraphCfg, calls: seq<Call>, states: seq<map<Edge, EdgeState>>)
    requires EdgeRates.ValidCfg(cfg)
  {
    && |states| == |calls| + 1 && states[0] == map[]
    && forall i, j :: 0 <= i < |calls| && j == i + 1 ==>
         var c := calls[i];
         MergeOutcome(cfg, Seen(cfg, calls, states, i), states[j], c.tc, c.sizes, c.plans, c.triggers)
  }

  lemma {:induction false} RunShape(cfg: WakeGraphCfg, calls: seq<Call>, states: seq<map<Edge, EdgeState>>)
    requires EdgeRates.ValidCfg(cfg) && IsRun(cfg, calls, states)
    ensures |states| == |calls| + 1 && states[0] == map[]
  {
  }

  /** In calls `[from, to)` the edge stayed tracked, triggered nothing, and each call
      either was hot and is listed in `js`, or did not map both endpoints. */
  ghost predicate Evidence(cfg: WakeGraphCfg, calls: seq<Call>, states: seq<map<Edge, EdgeState>>,
      e: Edge, js: set<nat>, from: nat, to: nat)
    requires EdgeRates.ValidCfg(cfg) && |states| == |calls| + 1
  {
    && from <= to <= |calls|
    && (forall j :: j in js ==> from <= j < to)
    && (forall i :: from <= i < to ==>
          && e in Seen(cfg, calls, states, i) && e !in calls[i].triggers
          && (i in js <==> Mapped(calls[i].tc, e))
          && (i in js ==> Hot(cfg, calls[i].tc, e, Seen(cfg, calls, states, i)[e])))
  }

  lemma {:induction false} EvidenceExtend(cfg: WakeGraphCfg, calls: seq<Call>, states: seq<map<Edge, EdgeState>>,
      e: Edge, js: set<nat>, from: nat, to: nat)
    requires EdgeRates.ValidCfg(cfg) && |states| == |calls| + 1
    requires Evidence(cfg, calls, states, e, js, from, to) && to < |calls|
    requires e in Seen(cfg, calls, states, to) && e !in calls[to].triggers
    requires Mapped(calls[to].tc, e) ==> Hot(cfg, calls[to].tc, e, Seen(cfg, calls, states, to)[e])
    ensures Evidence(cfg, calls, states, e, if Mapped(calls[to].tc, e) then js + {to} else js, from, to + 1)
  {
    hide Seen, Hot, Mapped;
  }

  /** One tick as the counter of one edge sees it: the observation keeps it (or starts it
      at zero), then the merges call advances it. */
  lemma {:induction false} CounterStep(cfg: WakeGraphCfg, calls: seq<Call>, states: seq<map<Edge, EdgeState>>,
      e: Edge, n: nat)
    requires EdgeRates.ValidCfg(cfg) && IsRun(cfg, calls, states) && n < |calls|
    ensures e in states[n + 1] <==> e in Seen(cfg, calls, states, n)
    ensures e in states[n + 1] ==>
      var st := Seen(cfg, calls, states, n)[e];
      && st.overTicks == Counter(states[n], e)
      && states[n + 1][e].overTicks == NextTicks(cfg, calls[n].tc, e, st, e in calls[n].triggers)
    ensures e in calls[n].triggers ==> Confirmed(cfg, calls[n].tc, Seen(cfg, calls, states, n), e)
  {
    var c, seen := calls[n], Seen(cfg, calls, states, n);
    assert MergeOutcome(cfg, seen, states[n + 1], c.tc, c.sizes, c.plans, c.triggers);
    if e in seen { CounterCarries(cfg, states[n], c.obs, e); }
    TriggersAreHot(cfg, seen, states[n + 1], c, e);
  }

  function Counter(edges: map<Edge, EdgeState>, e: Edge): nat {
    if e in edges then edges[e].overTicks else 0
  }

  lemma {:induction false} CounterCarries(cfg: WakeGraphCfg, edges: map<Edge, EdgeState>, o: EdgeRates.Observation,
      e: Edge)
    requires EdgeRates.ValidCfg(cfg) && e in EdgeRates.Observed(cfg, edges, o)
    ensures EdgeRates.Observed(cfg, edges, o)[e].overTicks == Counter(edges, e)
  {
  }

  /** The counter is exactly the number of hot calls in an unbroken stretch of evidence. */
  lemma {:induction false} CounterHasEvidence(cfg: WakeGraphCfg, calls: seq<Call>, states: seq<map<Edge, EdgeState>>,
      e: Edge, n: nat) returns (js: set<nat>, from: nat)
    requires EdgeRates.ValidCfg(cfg) && IsRun(cfg, calls, states) && n <= |calls|
    ensures Evidence(cfg, calls, states, e, js, from, n)
    ensures |js| == Counter(states[n], e)
  {
    hide IsRun, Seen, Evidence;
    RunShape(cfg, calls, states);
    js, from := {}, n;
    EvidenceNone(cfg, calls, states, e, n);
    if n > 0 && Counter(states[n], e) > 0 {
      CounterStep(cfg, calls, states, e, n - 1);
      js, from := CounterHasEvidence(cfg, calls, states, e, n - 1);
      EvidenceExtend(cfg, calls, states, e, js, from, n - 1);
      EvidenceRange(cfg, calls, states, e, js, from, n - 1);
      if Mapped(calls[n - 1].tc, e) { js := js + {n - 1}; }
    }
  }

  lemma {:induction false} EvidenceNone(cfg: WakeGraphCfg, calls: seq<Call>, states: seq<map<Edge, EdgeState>>,
      e: Edge, n: nat)
    requires EdgeRates.ValidCfg(cfg) && |states| == |calls| + 1 && n <= |calls|
    ensures Evidence(cfg, calls, states, e, {}, n, n)
  {
  }

  lemma {:induction false} EvidenceRange(cfg: WakeGraphCfg, calls: seq<Call>, states: seq<map<Edge, EdgeState>>,
      e: Edge, js: set<nat>, from: nat, to: nat)
    requires EdgeRates.ValidCfg(cfg) && |states| == |calls| + 1
    requires Evidence(cfg, calls, states, e, js, from, to)
    ensures to !in js && (from == to ==> js == {})
  {
  }

  lemma {:induction false} TriggersAreHot(cfg: WakeGraphCfg, edges: map<Edge, EdgeState>,
      edges': map<Edge, EdgeState>, c: Call, e: Edge)
    requires MergeOutcome(cfg, edges, edges', c.tc, c.sizes, c.plans, c.triggers)
    ensures e in c.triggers ==> Confirmed(cfg, c.tc, edges, e)
  {
  }

  /** Merge confirmation, forward: an edge triggers a merge only at the end of a stretch of
      calls whose every both-endpoints-mapped call was hot, at least `mergeConfirmTicks` of them. */
  lemma {:induction false} MergeNeedsConfirmation(cfg: WakeGraphCfg, calls: seq<Call>,
      states: seq<map<Edge, EdgeState>>, e: Edge, n: nat) returns (js: set<nat>, from: nat)
    requires EdgeRates.ValidCfg(cfg) && IsRun(cfg, calls, states) && n < |calls|
    requires e in calls[n].triggers
    ensures Evidence(cfg, calls, states, e, js, from, n)
    ensures e in Seen(cfg, calls, states, n) && Hot(cfg, calls[n].tc, e, Seen(cfg, calls, states, n)[e])
    ensures |js| + 1 >= cfg.mergeConfirmTicks
  {
    hide Evidence, IsRun, Seen;
    js, from := CounterHasEvidence(cfg, calls, states, e, n);
    CounterStep(cfg, calls, states, e, n);
  }

  /** No stretch of evidence outruns the counter. */
  lemma {:induction false} EvidenceCounted(cfg: WakeGraphCfg, calls: seq<Call>, states: seq<map<Edge, EdgeState>>,
      e: Edge, js: set<nat>, from: nat, n: nat)
    requires EdgeRates.ValidCfg(cfg) && IsRun(cfg, calls, states) && n <= |calls|
    requires from <= n && Evidence(cfg, calls, states, e, js, from, n)
    ensures |js| <= Counter(states[n], e)
    decreases n - from
  {
    hide IsRun, Seen, Hot, Evidence;
    RunShape(cfg, calls, states);
    if from == n {
      EvidenceRange(cfg, calls, states, e, js, from, n);
    } else {
      EvidenceShrink(cfg, calls, states, e, js, from, n);
      EvidenceCounted(cfg, calls, states, e, js - {n - 1}, from, n - 1);
      CounterStep(cfg, calls, states, e, n - 1);
    }
  }

  lemma {:induction false} EvidenceShrink(cfg: WakeGraphCfg, calls: seq<Call>, states: seq<map<Edge, EdgeState>>,
      e: Edge, js: set<nat>, from: nat, to: nat)
    requires EdgeRates.ValidCfg(cfg) && |states| == |calls| + 1
    requires from < to && Evidence(cfg, calls, states, e, js, from, to)
    ensures e in Seen(cfg, calls, states, to - 1) && e !in calls[to - 1].triggers
    ensures to - 1 in js <==> Mapped(calls[to - 1].tc, e)
    ensures to - 1 in js ==> Hot(cfg, calls[to - 1].tc, e, Seen(cfg, calls, states, to - 1)[e])
    ensures Evidence(cfg, calls, states, e, js - {to - 1}, from, to - 1)
  {
    hide Seen, Hot, Mapped;
  }

  /** Merge confirmation, backward: once `mergeConfirmTicks - 1` hot calls stand behind a hot
      one, this call plans a merge touching one of the edge's two cohorts. */
  lemma {:induction false} ConfirmationMerges(cfg: WakeGraphCfg, calls: seq<Call>, states: seq<map<Edge, EdgeState>>,
      e: Edge, js: set<nat>, from: nat, n: nat)
    requires EdgeRates.ValidCfg(cfg) && IsRun(cfg, calls, states) && n < |calls|
    requires Evidence(cfg, calls, states, e, js, from, n) && |js| + 1 >= cfg.mergeConfirmTicks
    requires e in Seen(cfg, calls, states, n) && Hot(cfg, calls[n].tc, e, Seen(cfg, calls, states, n)[e])
    ensures Taken(calls[n].plans, calls[n].tc[e.0]) || Taken(calls[n].plans, calls[n].tc[e.1])
  {
    EvidenceCounted(cfg, calls, states, e, js, from, n);
    CounterStep(cfg, calls, states, e, n);
    var c, seen := calls[n], Seen(cfg, calls, states, n);
    assert MergeOutcome(cfg, seen, states[n + 1], c.tc, c.sizes, c.plans, c.triggers);
    assert Confirmed(cfg, c.tc, seen, e);
  }

  /** A merge without consecutive hot calls: with two to confirm, calls 0 and 2 are hot, and call 1
      finds one endpoint unmapped. */
  lemma {:induction false} MergeAcrossGap()
    returns (cfg: WakeGraphCfg, calls: seq<Call>, states: seq<map<Edge, EdgeState>>)
    ensures EdgeRates.ValidCfg(cfg) && IsRun(cfg, calls, states) && |calls| == 3 && cfg.mergeConfirmTicks == 2
    ensures (1, 2) in Seen(cfg, calls, states, 1) && !Hot(cfg, calls[1].tc, (1, 2), Seen(cfg, calls, states, 1)[(1, 2)])
    ensures calls[2].triggers == [(1, 2)] && calls[2].plans == [MergePlan(1, 2)]
  {
    hide EdgeRates.Observed;
    cfg := WakeGraphCfg(100.0, 2, 10.0, 2, 1, 0.0);
    var e: Edge, obs := (1, 2), EdgeRates.Observation([(1, 2, 200)], 1.0, 1);
    var both: map<Tgid, CohortId>, one: map<Tgid, CohortId> := map[1 := 1, 2 := 2], map[1 := 1];
    var hot, due := EdgeState(200.0, 200.0, 0), EdgeState(200.0, 200.0, 1);
    calls := [Call(obs, both, map[], [], []), Call(obs, one, map[], [], []),
              Call(obs, both, map[], [MergePlan(1, 2)], [e])];
    states := [map[], map[e := due], map[e := due], map[e := hot]];
    SteadyEdge(cfg, obs, map[], 0);
    SteadyEdge(cfg, obs, map[e := due], 1);
    assert MergeOutcome(cfg, map[e := hot], states[1], both, map[], [], []);
    assert MergeOutcome(cfg, map[e := due], states[2], one, map[], [], []);
    assert Taken([MergePlan(1, 2)], 1) by { assert 1 in Cohorts([MergePlan(1, 2)][0]); }
    assert MergeOutcome(cfg, map[e := due], states[3], both, map[], [MergePlan(1, 2)], [e]);
  }

  lemma {:induction false} SteadyEdge(cfg: WakeGraphCfg, obs: EdgeRates.Observation, edges: map<Edge, EdgeState>,
      k: nat)
    requires cfg == WakeGraphCfg(100.0, 2, 10.0, 2, 1, 0.0) && obs == EdgeRates.Observation([(1, 2, 200)], 1.0, 1)
    requires edges == map[(1, 2) := EdgeState(200.0, 200.0, k)] || (k == 0 && edges == map[])
    ensures EdgeRates.Observed(cfg, edges, obs) == map[(1, 2) := EdgeState(200.0, 200.0, k)]
  {
    var e: Edge, contribs := (1, 2), EdgeRates.Normal(obs.deltas, 1);
    assert contribs == [(e, 200)] && contribs[..0] == [];
    assert EdgeRates.Traffic(contribs, e) == 200;
    assert EdgeRates.Alpha(cfg, 1.0) == 1.0;
    assert EdgeRates.Touched(contribs) == {e};
    assert EdgeRates.Blended(cfg, edges, obs, e) == EdgeState(200.0, 200.0, k);
  }
}
