/** The load balancer: which whole cohort, if any, changes home LLC this tick,
    and what its streak and residency state guarantee over any run. */
module Balancer {
  import opened Domain

  datatype BalancerCfg = BalancerCfg(imbalancePct: nat, confirmTicks: nat, residencyMs: nat)

  datatype State = State(streak: nat, lastMoveAt: map<CohortId, nat>)

  // ----- Selection -----

  /** `max_by_key`: the last of the most loaded LLCs. */
  function MaxLlc(llcs: seq<LlcLoad>): (l: LlcLoad)
    requires llcs != []
    ensures l in llcs && forall m :: m in llcs ==> m.load <= l.load
  {
    var n := |llcs| - 1;
    if n == 0 then llcs[0]
    else
      var m := MaxLlc(llcs[..n]);
      assert llcs == llcs[..n] + [llcs[n]];
      if llcs[n].load >= m.load then llcs[n] else m
  }

  /** `min_by_key`: the first of the least loaded LLCs. */
  function MinLlc(llcs: seq<LlcLoad>): (l: LlcLoad)
    requires llcs != []
    ensures l in llcs && forall m :: m in llcs ==> l.load <= m.load
  {
    var n := |llcs| - 1;
    if n == 0 then llcs[0]
    else
      var m := MinLlc(llcs[..n]);
      assert llcs == llcs[..n] + [llcs[n]];
      if llcs[n].load < m.load then llcs[n] else m
  }

  /** Ties go to the last of the most loaded LLCs. */
  lemma {:induction false} MaxIsLast(llcs: seq<LlcLoad>) returns (i: nat)
    requires llcs != []
    ensures i < |llcs| && llcs[i] == MaxLlc(llcs) && forall j :: i < j < |llcs| ==> llcs[j].load < llcs[i].load
  {
    var n := |llcs| - 1;
    i := n;
    if n > 0 && llcs[n].load < MaxLlc(llcs[..n]).load {
      i := MaxIsLast(llcs[..n]);
      assert forall j :: 0 <= j < n ==> llcs[..n][j] == llcs[j];
    }
  }

  /** Ties go to the first of the least loaded LLCs. */
  lemma {:induction false} MinIsFirst(llcs: seq<LlcLoad>) returns (i: nat)
    requires llcs != []
    ensures i < |llcs| && llcs[i] == MinLlc(llcs) && forall j :: 0 <= j < i ==> llcs[i].load < llcs[j].load
  {
    var n := |llcs| - 1;
    i := n;
    if n > 0 && llcs[n].load >= MinLlc(llcs[..n]).load {
      i := MinIsFirst(llcs[..n]);
      assert forall j :: 0 <= j < n ==> llcs[..n][j] == llcs[j];
    } else {
      forall j | 0 <= j < n ensures llcs[n].load < llcs[j].load {
        assert llcs[..n][j] in llcs[..n];
      }
    }
  }

  function Gap(llcs: seq<LlcLoad>): nat
    requires llcs != []
  {
    MaxLlc(llcs).load - MinLlc(llcs).load
  }

  /** The gap exceeds its share of the least loaded LLC's capacity. */
  predicate Over(cfg: BalancerCfg, llcs: seq<LlcLoad>)
    requires llcs != []
  {
    Gap(llcs) > MinLlc(llcs).capacity * cfg.imbalancePct / 100
  }

  function Residency(cfg: BalancerCfg, c: CohortSnapshot): nat {
    if c.residency.Some? then c.residency.value else cfg.residencyMs
  }

  function SaturatingSub(a: nat, b: nat): nat {
    if a >= b then a - b else 0
  }

  /** Lives on the loaded LLC, is movable, fits the other one, and is not immune. */
  predicate Movable(cfg: BalancerCfg, st: State, now: nat, llcs: seq<LlcLoad>, c: CohortSnapshot)
    requires llcs != []
  {
    && c.homeLlc == MaxLlc(llcs).llc
    && !c.pinned
    && c.nrTasks > 0
    && 0 < c.load <= MinLlc(llcs).capacity
    && (c.id in st.lastMoveAt ==> SaturatingSub(now, st.lastMoveAt[c.id]) >= Residency(cfg, c))
  }

  /** The gap left after moving `c`. */
  function GapAfter(gap: nat, c: CohortSnapshot): nat {
    var d := gap - 2 * c.load;
    if d < 0 then -d else d
  }

  predicate Candidate(cfg: BalancerCfg, st: State, now: nat, llcs: seq<LlcLoad>, c: CohortSnapshot)
    requires llcs != []
  {
    Movable(cfg, st, now, llcs, c) && GapAfter(Gap(llcs), c) < Gap(llcs)
  }

  /** Repairs the gap better, or as well with less load to move. */
  predicate Better(gap: nat, c: CohortSnapshot, d: CohortSnapshot) {
    GapAfter(gap, c) < GapAfter(gap, d) || (GapAfter(gap, c) == GapAfter(gap, d) && c.load < d.load)
  }

  /** The first candidate no other candidate is better than. */
  function Best(cfg: BalancerCfg, st: State, now: nat, llcs: seq<LlcLoad>,
      cohorts: seq<CohortSnapshot>): (r: Option<CohortSnapshot>)
    requires llcs != []
    ensures r.None? ==> forall c :: c in cohorts ==> !Candidate(cfg, st, now, llcs, c)
    ensures r.Some? ==> r.value in cohorts && Candidate(cfg, st, now, llcs, r.value)
    ensures r.Some? ==> forall c :: c in cohorts && Candidate(cfg, st, now, llcs, c) ==> !Better(Gap(llcs), c, r.value)
  {
    if cohorts == [] then None
    else
      var n := |cohorts| - 1;
      var best, c := Best(cfg, st, now, llcs, cohorts[..n]), cohorts[n];
      assert cohorts == cohorts[..n] + [c];
      if Candidate(cfg, st, now, llcs, c) && (best.None? || Better(Gap(llcs), c, best.value)) then Some(c)
      else best
  }

  /** Among equally good candidates the first in the list is taken. */
  lemma {:induction false} BestIsFirst(cfg: BalancerCfg, st: State, now: nat, llcs: seq<LlcLoad>,
      cohorts: seq<CohortSnapshot>) returns (i: nat)
    requires llcs != [] && Best(cfg, st, now, llcs, cohorts).Some?
    ensures i < |cohorts| && Best(cfg, st, now, llcs, cohorts) == Some(cohorts[i])
    ensures forall j :: 0 <= j < i && Candidate(cfg, st, now, llcs, cohorts[j]) ==>
      Better(Gap(llcs), cohorts[i], cohorts[j])
  {
    hide Candidate, Better, Gap;
    var n := |cohorts| - 1;
    var before := Best(cfg, st, now, llcs, cohorts[..n]);
    if before.None? || Best(cfg, st, now, llcs, cohorts) != before {
      i := n;
      forall j | 0 <= j < n && Candidate(cfg, st, now, llcs, cohorts[j]) 
        ensures Better(Gap(llcs), cohorts[n], cohorts[j])
      {
        assert cohorts[..n][j] in cohorts[..n];
        BetterThrough(Gap(llcs), cohorts[n], before.value, cohorts[j]);
      }
    } else {
      i := BestIsFirst(cfg, st, now, llcs, cohorts[..n]);
      assert forall j :: 0 <= j < n ==> cohorts[..n][j] == cohorts[j];
    }
  }

  lemma {:induction false} BetterThrough(gap: nat, c: CohortSnapshot, best: CohortSnapshot, d: CohortSnapshot)
    requires Better(gap, c, best) && !Better(gap, d, best)
    ensures Better(gap, c, d)
  {
  }

  // ----- One plan call -----

  function PlanStep(cfg: BalancerCfg, st: State, now: nat, llcs: seq<LlcLoad>, cohorts: seq<CohortSnapshot>)
    : (State, Option<Decision>)
  {
    if |llcs| < 2 then (st, None)
    else if !Over(cfg, llcs) then (st.(streak := 0), None)
    else if st.streak + 1 < cfg.confirmTicks then (st.(streak := st.streak + 1), None)
    else
      match Best(cfg, st, now, llcs, cohorts)
      case None => (st.(streak := st.streak + 1), None)
      case Some(c) => (State(0, st.lastMoveAt[c.id := now]), Some(MoveCohort(c.id, MinLlc(llcs).llc)))
  }

  function Retained(st: State, live: set<CohortId>): State {
    st.(lastMoveAt := map id | id in st.lastMoveAt && id in live :: st.lastMoveAt[id])
  }

  class Balancer {
    const cfg: BalancerCfg
    var lastMoveAt: map<CohortId, nat>
    var streak: nat

    function View(): State
      reads this
    {
      State(streak, lastMoveAt)
    }

    constructor (cfg: BalancerCfg)
      ensures this.cfg == cfg && View() == State(0, map[])
    {
      this.cfg := cfg;
      lastMoveAt, streak := map[], 0;
    }

    /** Forget move timestamps for cohorts that no longer exist. */
    method RetainCohorts(live: set<CohortId>)
      modifies this
      ensures View() == Retained(old(View()), live)
      ensures streak == old(streak) && lastMoveAt.Keys == old(lastMoveAt).Keys * live
      ensures forall id :: id in lastMoveAt ==> lastMoveAt[id] == old(lastMoveAt)[id]
    {
      lastMoveAt := map id | id in lastMoveAt && id in live :: lastMoveAt[id];
    }

    method Plan(now: nat, llcs: seq<LlcLoad>, cohorts: seq<CohortSnapshot>) returns (out: Option<Decision>)
      modifies this
      ensures (View(), out) == PlanStep(cfg, old(View()), now, llcs, cohorts)
    {
      if |llcs| < 2 {
        return None;
      }
      if !Over(cfg, llcs) {
        streak := 0;
        return None;
      }
      streak := streak + 1;
      if streak < cfg.confirmTicks {
        return None;
      }
      BestIgnoresStreak(cfg, old(View()), View(), now, llcs, cohorts);
      var best := Best(cfg, View(), now, llcs, cohorts);
      match best
      case None =>
        out := None;
      case Some(c) =>
        lastMoveAt := lastMoveAt[c.id := now];
        streak := 0;
        out := Some(MoveCohort(c.id, MinLlc(llcs).llc));
    }
  }

  lemma {:induction false} BestIgnoresStreak(cfg: BalancerCfg, st: State, st': State, now: nat,
      llcs: seq<LlcLoad>, cohorts: seq<CohortSnapshot>)
    requires llcs != [] && st.lastMoveAt == st'.lastMoveAt
    ensures Best(cfg, st, now, llcs, cohorts) == Best(cfg, st', now, llcs, cohorts)
  {
    if cohorts != [] {
      BestIgnoresStreak(cfg, st, st', now, llcs, cohorts[..|cohorts| - 1]);
    }
  }

  /** Moving `c` shrinks the gap exactly when it carries some load, but less than the gap. */
  lemma {:induction false} RepairsWhen(gap: nat, c: CohortSnapshot)
    ensures GapAfter(gap, c) < gap <==> 0 < c.load < gap
  {
  }

  /** When a move comes: exactly if the imbalance is over threshold and confirmed, and some
      movable cohort on the loaded LLC has a load strictly between zero and the gap.  Then the
      chosen cohort repairs the gap at least as well as every other candidate. */
  lemma {:induction false} PlanDecides(cfg: BalancerCfg, st: State, now: nat, llcs: seq<LlcLoad>,
      cohorts: seq<CohortSnapshot>)
    requires |llcs| >= 2
    ensures var out := PlanStep(cfg, st, now, llcs, cohorts).1;
      && (out.Some? <==>
            && Over(cfg, llcs) && st.streak + 1 >= cfg.confirmTicks
            && exists c :: c in cohorts && Movable(cfg, st, now, llcs, c) && 0 < c.load < Gap(llcs))
      && (out.Some? ==>
            && out.value.to == MinLlc(llcs).llc
            && exists c :: c in cohorts && c.id == out.value.id && Movable(cfg, st, now, llcs, c)
                 && 0 < c.load < Gap(llcs)
                 && forall d :: d in cohorts && Candidate(cfg, st, now, llcs, d) ==> !Better(Gap(llcs), d, c))
  {
    hide Movable, MaxLlc, MinLlc;
    forall c ensures GapAfter(Gap(llcs), c) < Gap(llcs) <==> 0 < c.load < Gap(llcs) { RepairsWhen(Gap(llcs), c); }
    var best := Best(cfg, st, now, llcs, cohorts);
    if best.Some? { assert Candidate(cfg, st, now, llcs, best.value); }
    if c :| c in cohorts && Movable(cfg, st, now, llcs, c) && 0 < c.load < Gap(llcs) {
      assert Candidate(cfg, st, now, llcs, c);
    }
  }

  // ----- One plan call in plain arithmetic -----

  /** What the source asks of a cohort that may leave the loaded LLC `hi` for the idle one `lo`: at home
      on `hi`, not pinned, not empty, fitting `lo`, lighter than the gap, and past its residency. */
  ghost predicate MayMove(cfg: BalancerCfg, st: State, now: nat, hi: LlcLoad, lo: LlcLoad, c: CohortSnapshot) {
    && c.homeLlc == hi.llc && !c.pinned && c.nrTasks >= 1
    && 1 <= c.load <= lo.capacity && c.load < hi.load - lo.load
    && (c.id in st.lastMoveAt ==>
          var wait := match c.residency case Some(r) => r case None => cfg.residencyMs;
          wait == 0 || st.lastMoveAt[c.id] + wait <= now)
  }

  /** Moving load `x` across a gap leaves no more of it, in either direction, than moving `y`; and
      where both leave as much, `x` is the smaller. */
  ghost predicate RepairsAsWell(gap: int, x: nat, y: nat) {
    && (gap - 2 * x <= gap - 2 * y || gap - 2 * x <= 2 * y - gap)
    && (2 * x - gap <= gap - 2 * y || 2 * x - gap <= 2 * y - gap)
    && (gap - 2 * x == gap - 2 * y || gap - 2 * x == 2 * y - gap ==> x <= y)
  }

  /** A plan call in plain terms, for a most loaded LLC `hi` and a least loaded one `lo`: a move comes
      exactly when their gap exceeds the threshold share of `lo`'s capacity, the streak is confirmed and
      some cohort may move; it goes to `lo`, and no cohort that may move repairs the gap better. */
  lemma {:induction false} PlanMeans(cfg: BalancerCfg, st: State, now: nat, llcs: seq<LlcLoad>,
      cohorts: seq<CohortSnapshot>) returns (hi: LlcLoad, lo: LlcLoad)
    requires |llcs| >= 2
    ensures hi == MaxLlc(llcs) && lo == MinLlc(llcs)
    ensures hi in llcs && lo in llcs && forall l :: l in llcs ==> lo.load <= l.load <= hi.load
    ensures var out := PlanStep(cfg, st, now, llcs, cohorts).1;
      && (out.Some? <==>
            && 100 * (hi.load - lo.load) > lo.capacity * cfg.imbalancePct && st.streak + 1 >= cfg.confirmTicks
            && exists c :: c in cohorts && MayMove(cfg, st, now, hi, lo, c))
      && (out.Some? ==>
            && out.value.to == lo.llc
            && exists c :: c in cohorts && c.id == out.value.id && MayMove(cfg, st, now, hi, lo, c)
                 && forall d :: d in cohorts && MayMove(cfg, st, now, hi, lo, d) ==>
                      RepairsAsWell(hi.load - lo.load, c.load, d.load))
  {
    hide MaxLlc, MinLlc, Movable, MayMove, RepairsAsWell, Better;
    hi, lo := MaxLlc(llcs), MinLlc(llcs);
    OverMeans(hi.load - lo.load, lo.capacity * cfg.imbalancePct);
    forall c ensures Movable(cfg, st, now, llcs, c) && 0 < c.load < Gap(llcs) <==> MayMove(cfg, st, now, hi, lo, c) {
      MovableMeans(cfg, st, now, llcs, c);
    }
    PlanDecides(cfg, st, now, llcs, cohorts);
    hide PlanStep;
    var out := PlanStep(cfg, st, now, llcs, cohorts).1;
    if out.Some? {
      var c :| c in cohorts && c.id == out.value.id && Movable(cfg, st, now, llcs, c) && 0 < c.load < Gap(llcs)
        && forall d :: d in cohorts && Candidate(cfg, st, now, llcs, d) ==> !Better(Gap(llcs), d, c);
      forall d | d in cohorts && MayMove(cfg, st, now, hi, lo, d)
        ensures RepairsAsWell(hi.load - lo.load, c.load, d.load)
      {
        RepairsWhen(Gap(llcs), d);
        assert Movable(cfg, st, now, llcs, d) && Candidate(cfg, st, now, llcs, d);
        NotBetterMeans(Gap(llcs), c, d);
      }
      assert MayMove(cfg, st, now, hi, lo, c);
    }
  }

  lemma {:induction false} OverMeans(gap: nat, share: nat)
    ensures gap > share / 100 <==> 100 * gap > share
  {
  }

  lemma {:induction false} MovableMeans(cfg: BalancerCfg, st: State, now: nat, llcs: seq<LlcLoad>, c: CohortSnapshot)
    requires llcs != []
    ensures Movable(cfg, st, now, llcs, c) && 0 < c.load < Gap(llcs) <==>
      MayMove(cfg, st, now, MaxLlc(llcs), MinLlc(llcs), c)
  {
    hide MaxLlc, MinLlc;
  }

  lemma {:induction false} NotBetterMeans(gap: nat, c: CohortSnapshot, d: CohortSnapshot)
    requires !Better(gap, d, c)
    ensures RepairsAsWell(gap, c.load, d.load)
  {
  }

  // ----- Runs -----

  /** One daemon tick: forget dead cohorts, then plan. */
  datatype Tick = Tick(live: set<CohortId>, now: nat, llcs: seq<LlcLoad>, cohorts: seq<CohortSnapshot>)

  function TickStep(cfg: BalancerCfg, st: State, t: Tick): (State, Option<Decision>) {
    PlanStep(cfg, Retained(st, t.live), t.now, t.llcs, t.cohorts)
  }

  /** The balancer before tick `n` of a run. */
  function StateAt(cfg: BalancerCfg, ticks: seq<Tick>, n: nat): State
    requires n <= |ticks|
  {
    if n == 0 then State(0, map[]) else TickStep(cfg, StateAt(cfg, ticks, n - 1), ticks[n - 1]).0
  }

  function DecisionAt(cfg: BalancerCfg, ticks: seq<Tick>, n: nat): Option<Decision>
    requires n < |ticks|
  {
    TickStep(cfg, StateAt(cfg, ticks, n), ticks[n]).1
  }

  predicate OverAt(cfg: BalancerCfg, ticks: seq<Tick>, n: nat)
    requires n < |ticks|
  {
    ticks[n].llcs != [] && Over(cfg, ticks[n].llcs)
  }

  predicate TwoLlcs(ticks: seq<Tick>) {
    forall i :: 0 <= i < |ticks| ==> |ticks[i].llcs| >= 2
  }

  lemma {:induction false} StreakStart(cfg: BalancerCfg, ticks: seq<Tick>)
    ensures StateAt(cfg, ticks, 0) == State(0, map[])
  {
  }

  lemma {:induction false} StreakStep(cfg: BalancerCfg, ticks: seq<Tick>, n: nat)
    requires TwoLlcs(ticks) && n < |ticks|
    ensures StateAt(cfg, ticks, n + 1).streak ==
      if OverAt(cfg, ticks, n) && DecisionAt(cfg, ticks, n).None? then StateAt(cfg, ticks, n).streak + 1 else 0
    ensures DecisionAt(cfg, ticks, n).Some? ==>
      OverAt(cfg, ticks, n) && StateAt(cfg, ticks, n).streak + 1 >= cfg.confirmTicks
  {
    hide Over, Best;
  }

  /** The streak is the number of over-threshold plans since the last calm one or the last move. */
  lemma {:induction false} StreakMeaning(cfg: BalancerCfg, ticks: seq<Tick>, n: nat)
    requires TwoLlcs(ticks) && n <= |ticks|
    ensures var s := StateAt(cfg, ticks, n).streak;
      && s <= n
      && (forall k :: n - s <= k < n ==> OverAt(cfg, ticks, k) && DecisionAt(cfg, ticks, k).None?)
      && (s < n ==> !OverAt(cfg, ticks, n - s - 1) || DecisionAt(cfg, ticks, n - s - 1).Some?)
  {
    hide OverAt, DecisionAt, StateAt;
    StreakStart(cfg, ticks);
    if n > 0 {
      StreakMeaning(cfg, ticks, n - 1);
      StreakStep(cfg, ticks, n - 1);
    }
  }

  /** Balancer run safety: a move means the last `confirmTicks` plans were all over
      threshold, and none of the others among them moved anything. */
  lemma {:induction false} MoveNeedsConfirmation(cfg: BalancerCfg, ticks: seq<Tick>, n: nat)
    requires TwoLlcs(ticks) && n < |ticks| && DecisionAt(cfg, ticks, n).Some?
    ensures cfg.confirmTicks <= n + 1 && OverAt(cfg, ticks, n)
    ensures forall k :: n + 1 - cfg.confirmTicks <= k < n ==> OverAt(cfg, ticks, k) && DecisionAt(cfg, ticks, k).None?
  {
    hide OverAt, DecisionAt;
    StreakMeaning(cfg, ticks, n);
    StreakStep(cfg, ticks, n);
  }

  lemma {:induction false} MovesAreApart(cfg: BalancerCfg, ticks: seq<Tick>, i: nat, j: nat)
    requires TwoLlcs(ticks) && i < j < |ticks|
    requires DecisionAt(cfg, ticks, i).Some? && DecisionAt(cfg, ticks, j).Some?
    ensures j - i >= cfg.confirmTicks
  {
    hide DecisionAt, OverAt;
    MoveNeedsConfirmation(cfg, ticks, j);
  }

  predicate Nondecreasing(ticks: seq<Tick>) {
    forall i, j :: 0 <= i < j < |ticks| ==> ticks[i].now <= ticks[j].now
  }

  predicate MovesAt(cfg: BalancerCfg, ticks: seq<Tick>, n: nat, id: CohortId)
    requires n < |ticks|
  {
    DecisionAt(cfg, ticks, n).Some? && DecisionAt(cfg, ticks, n).value.id == id
  }

  /** The timestamp of a kept cohort survives and never moves back. */
  lemma {:induction false} MoveRemembered(cfg: BalancerCfg, ticks: seq<Tick>, i: nat, n: nat, id: CohortId)
    requires Nondecreasing(ticks) && i < n <= |ticks|
    requires MovesAt(cfg, ticks, i, id)
    requires forall k :: i < k < n ==> id in ticks[k].live
    ensures id in StateAt(cfg, ticks, n).lastMoveAt
    ensures ticks[i].now <= StateAt(cfg, ticks, n).lastMoveAt[id] <= ticks[n - 1].now
    decreases n
  {
    hide Over, Best;
    if n > i + 1 {
      MoveRemembered(cfg, ticks, i, n - 1, id);
    }
  }

  /** Two moves of a cohort that was never forgotten in between are at least its residency apart. */
  lemma {:induction false} ResidencyHolds(cfg: BalancerCfg, ticks: seq<Tick>, i: nat, j: nat, id: CohortId)
    requires TwoLlcs(ticks) && Nondecreasing(ticks) && i < j < |ticks|
    requires MovesAt(cfg, ticks, i, id) && MovesAt(cfg, ticks, j, id)
    requires forall k :: i < k <= j ==> id in ticks[k].live
    ensures exists c :: c in ticks[j].cohorts && c.id == id && ticks[j].now >= ticks[i].now + Residency(cfg, c)
  {
    MoveRemembered(cfg, ticks, i, j, id);
    var t, st := ticks[j], Retained(StateAt(cfg, ticks, j), ticks[j].live);
    PlanDecides(cfg, st, t.now, t.llcs, t.cohorts);
    var c :| c in t.cohorts && c.id == id && Movable(cfg, st, t.now, t.llcs, c);
  }
}
