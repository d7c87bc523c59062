/** The balancer in a closed loop: each LLC's load is the sum of the fixed loads
    of the cohorts homed there, and every decision is applied before the next tick. */
module ClosedLoop {
  import opened Domain
  import opened Balancer

  datatype Site = Site(llc: LlcId, capacity: nat)

  predicate DistinctSites(sites: seq<Site>) {
    forall i, j :: 0 <= i < j < |sites| ==> sites[i].llc != sites[j].llc
  }

  predicate UniqueIds(cohorts: seq<CohortSnapshot>) {
    forall i, j :: 0 <= i < j < |cohorts| ==> cohorts[i].id != cohorts[j].id
  }

  function HomedLoad(cohorts: seq<CohortSnapshot>, llc: LlcId): nat {
    if cohorts == [] then 0
    else
      var c := cohorts[|cohorts| - 1];
      HomedLoad(cohorts[..|cohorts| - 1], llc) + (if c.homeLlc == llc then c.load else 0)
  }

  function Loads(sites: seq<Site>, cohorts: seq<CohortSnapshot>): (r: seq<LlcLoad>)
    ensures |r| == |sites|
    ensures forall i :: 0 <= i < |r| ==>
      r[i] == LlcLoad(sites[i].llc, HomedLoad(cohorts, sites[i].llc), sites[i].capacity)
  {
    seq(|sites|, i requires 0 <= i < |sites| =>
      LlcLoad(sites[i].llc, HomedLoad(cohorts, sites[i].llc), sites[i].capacity))
  }

  /** `apply` rewrites the home of the named cohort; everything else stays. */
  function Moved(cohorts: seq<CohortSnapshot>, d: Decision): (r: seq<CohortSnapshot>)
    ensures |r| == |cohorts|
    ensures forall i :: 0 <= i < |r| ==>
      r[i] == if cohorts[i].id == d.id then cohorts[i].(homeLlc := d.to) else cohorts[i]
    ensures UniqueIds(cohorts) ==> UniqueIds(r)
  {
    seq(|cohorts|, i requires 0 <= i < |cohorts| =>
      if cohorts[i].id == d.id then cohorts[i].(homeLlc := d.to) else cohorts[i])
  }

  function Square(x: nat): nat {
    x * x
  }

  function SumSquares(sites: seq<Site>, cohorts: seq<CohortSnapshot>): nat {
    if sites == [] then 0
    else SumSquares(sites[..|sites| - 1], cohorts) + Square(HomedLoad(cohorts, sites[|sites| - 1].llc))
  }

  function Peak(sites: seq<Site>, cohorts: seq<CohortSnapshot>): nat
    requires sites != []
  {
    MaxLlc(Loads(sites, cohorts)).load
  }

  // ----- One move -----

  /** A move shifts exactly the cohort's load from its old home to its new one. */
  lemma {:induction false} LoadShifts(cohorts: seq<CohortSnapshot>, d: Decision, k: nat, n: nat, llc: LlcId)
    requires UniqueIds(cohorts) && k < |cohorts| && cohorts[k].id == d.id && n <= |cohorts|
    ensures HomedLoad(Moved(cohorts, d)[..n], llc) + (if k < n && llc == cohorts[k].homeLlc then cohorts[k].load else 0)
      == HomedLoad(cohorts[..n], llc) + (if k < n && llc == d.to then cohorts[k].load else 0)
  {
    if n > 0 {
      LoadShifts(cohorts, d, k, n - 1, llc);
      assert cohorts[..n][..n - 1] == cohorts[..n - 1];
      assert Moved(cohorts, d)[..n][..n - 1] == Moved(cohorts, d)[..n - 1];
      if k != n - 1 { assert cohorts[k].id != cohorts[n - 1].id; }
    }
  }

  predicate HasSite(sites: seq<Site>, llc: LlcId) {
    exists i :: 0 <= i < |sites| && sites[i].llc == llc
  }

  /** Only the two homes involved change their term of the sum. */
  lemma {:induction false} SquaresShift(sites: seq<Site>, before: seq<CohortSnapshot>, after: seq<CohortSnapshot>,
      a: LlcId, b: LlcId)
    requires DistinctSites(sites) && a != b
    requires forall l :: l != a && l != b ==> HomedLoad(after, l) == HomedLoad(before, l)
    ensures SumSquares(sites, after)
      + (if HasSite(sites, a) then Square(HomedLoad(before, a)) else 0)
      + (if HasSite(sites, b) then Square(HomedLoad(before, b)) else 0)
      == SumSquares(sites, before)
      + (if HasSite(sites, a) then Square(HomedLoad(after, a)) else 0)
      + (if HasSite(sites, b) then Square(HomedLoad(after, b)) else 0)
  {
    hide Square;
    if sites != [] {
      var n := |sites| - 1;
      SquaresShift(sites[..n], before, after, a, b);
      forall l ensures HasSite(sites, l) <==> HasSite(sites[..n], l) || sites[n].llc == l {
        if HasSite(sites[..n], l) { var i :| 0 <= i < n && sites[..n][i].llc == l; assert sites[i].llc == l; }
        if HasSite(sites, l) {
          var i :| 0 <= i < |sites| && sites[i].llc == l;
          assert i == n || sites[..n][i].llc == l;
        }
      }
      assert !HasSite(sites[..n], sites[n].llc);
    }
  }

  /** Shifting part of a gap towards its low side lowers the sum of squares. */
  lemma {:induction false} SquaresFall(hi: nat, lo: nat, x: nat)
    requires lo < hi && 0 < x < hi - lo
    ensures Square(hi - x) + Square(lo + x) < Square(hi) + Square(lo)
  {
    var d := hi - lo - x;
    SquareSum(lo, d);
    SquareSum(lo, x);
    SquareSum(lo, x + d);
    SquareSum(x, d);
    assert lo * (x + d) == lo * x + lo * d;
    ProductPositive(x, d);
    hide Square;
  }

  lemma {:induction false} SquareSum(a: nat, b: nat)
    ensures Square(a + b) == Square(a) + 2 * (a * b) + Square(b)
  {
  }

  lemma {:induction false} ProductPositive(a: nat, b: nat)
    requires a > 0 && b > 0
    ensures a * b > 0
  {
  }

  /** Every applied decision strictly lowers the sum of squared loads and never raises the peak. */
  lemma {:induction false} MoveImproves(cfg: BalancerCfg, sites: seq<Site>, st: State, now: nat,
      cohorts: seq<CohortSnapshot>)
    requires |sites| >= 2 && DistinctSites(sites) && UniqueIds(cohorts)
    requires PlanStep(cfg, st, now, Loads(sites, cohorts), cohorts).1.Some?
    ensures var cohorts' := Moved(cohorts, PlanStep(cfg, st, now, Loads(sites, cohorts), cohorts).1.value);
      && SumSquares(sites, cohorts') < SumSquares(sites, cohorts)
      && Peak(sites, cohorts') <= Peak(sites, cohorts)
  {
    hide SumSquares, Square;
    var llcs := Loads(sites, cohorts);
    var d := PlanStep(cfg, st, now, llcs, cohorts).1.value;
    var cohorts' := Moved(cohorts, d);
    PlanDecides(cfg, st, now, llcs, cohorts);
    var c :| c in cohorts && c.id == d.id && Movable(cfg, st, now, llcs, c) && 0 < c.load < Gap(llcs);
    var k :| 0 <= k < |cohorts| && cohorts[k] == c;
    MoveEffect(sites, cohorts, d, k);
  }

  lemma {:induction false} MoveEffect(sites: seq<Site>, cohorts: seq<CohortSnapshot>, d: Decision, k: nat)
    requires |sites| >= 2 && DistinctSites(sites) && UniqueIds(cohorts)
    requires k < |cohorts| && cohorts[k].id == d.id
    requires cohorts[k].homeLlc == MaxLlc(Loads(sites, cohorts)).llc && d.to == MinLlc(Loads(sites, cohorts)).llc
    requires 0 < cohorts[k].load < Gap(Loads(sites, cohorts))
    ensures SumSquares(sites, Moved(cohorts, d)) < SumSquares(sites, cohorts)
    ensures Peak(sites, Moved(cohorts, d)) <= Peak(sites, cohorts)
  {
    hide SumSquares, Square, HomedLoad, Loads, MaxLlc, MinLlc, HasSite, Peak;
    var cohorts', x := Moved(cohorts, d), cohorts[k].load;
    var a, b := cohorts[k].homeLlc, d.to;
    Extremes(sites, cohorts);
    forall l
      ensures HomedLoad(cohorts', l) + (if l == a then x else 0) == HomedLoad(cohorts, l) + (if l == b then x else 0)
    {
      LoadShifts(cohorts, d, k, |cohorts|, l);
      assert cohorts[..|cohorts|] == cohorts && cohorts'[..|cohorts|] == cohorts';
    }
    SquaresShift(sites, cohorts, cohorts', a, b);
    SquaresFall(HomedLoad(cohorts, a), HomedLoad(cohorts, b), x);
    PeakBound(sites, cohorts', HomedLoad(cohorts, a));
  }

  /** How far apart two LLCs are. */
  function Apart(cohorts: seq<CohortSnapshot>, a: LlcId, b: LlcId): int {
    var x, y := HomedLoad(cohorts, a), HomedLoad(cohorts, b);
    if x >= y then x - y else y - x
  }

  /** The planned move leaves its two LLCs no further apart than any other cohort that may move would. */
  lemma {:induction false} PlannedMoveIsBest(cfg: BalancerCfg, sites: seq<Site>, st: State, now: nat,
      cohorts: seq<CohortSnapshot>, rival: nat)
    requires |sites| >= 2 && DistinctSites(sites) && UniqueIds(cohorts) && rival < |cohorts|
    requires PlanStep(cfg, st, now, Loads(sites, cohorts), cohorts).1.Some?
    requires MayMove(cfg, st, now, MaxLlc(Loads(sites, cohorts)), MinLlc(Loads(sites, cohorts)), cohorts[rival])
    ensures var d := PlanStep(cfg, st, now, Loads(sites, cohorts), cohorts).1.value;
      var hi, lo := MaxLlc(Loads(sites, cohorts)), MinLlc(Loads(sites, cohorts));
      && Apart(Moved(cohorts, d), hi.llc, lo.llc) <=
         Apart(Moved(cohorts, MoveCohort(cohorts[rival].id, lo.llc)), hi.llc, lo.llc)
      && Apart(Moved(cohorts, d), hi.llc, lo.llc) < Apart(cohorts, hi.llc, lo.llc)
  {
    hide PlanStep, HomedLoad, Loads, MaxLlc, MinLlc, Moved, Peak, HasSite;
    var llcs := Loads(sites, cohorts);
    var hi, lo := PlanMeans(cfg, st, now, llcs, cohorts);
    var d := PlanStep(cfg, st, now, llcs, cohorts).1.value;
    assert cohorts[rival] in cohorts;
    var c :| c in cohorts && c.id == d.id && MayMove(cfg, st, now, hi, lo, c)
      && forall e :: e in cohorts && MayMove(cfg, st, now, hi, lo, e) ==>
           RepairsAsWell(hi.load - lo.load, c.load, e.load);
    var k :| 0 <= k < |cohorts| && cohorts[k] == c;
    Extremes(sites, cohorts);
    ApartAfter(cohorts, d, k, hi.llc, lo.llc);
    ApartAfter(cohorts, MoveCohort(cohorts[rival].id, lo.llc), rival, hi.llc, lo.llc);
  }

  lemma {:induction false} ApartAfter(cohorts: seq<CohortSnapshot>, d: Decision, k: nat, a: LlcId, b: LlcId)
    requires UniqueIds(cohorts) && k < |cohorts| && cohorts[k].id == d.id
    requires cohorts[k].homeLlc == a && d.to == b && a != b
    ensures var gap := HomedLoad(cohorts, a) - HomedLoad(cohorts, b) - 2 * cohorts[k].load;
      Apart(Moved(cohorts, d), a, b) == if gap >= 0 then gap else -gap
  {
    hide HomedLoad, Moved;
    LoadShifts(cohorts, d, k, |cohorts|, a);
    LoadShifts(cohorts, d, k, |cohorts|, b);
    assert cohorts[..|cohorts|] == cohorts;
    assert Moved(cohorts, d)[..|cohorts|] == Moved(cohorts, d);
  }

  /** The selected LLCs are sites, and their loads are the largest and smallest homed loads. */
  lemma {:induction false} Extremes(sites: seq<Site>, cohorts: seq<CohortSnapshot>)
    requires sites != []
    ensures var hi, lo := MaxLlc(Loads(sites, cohorts)), MinLlc(Loads(sites, cohorts));
      && HasSite(sites, hi.llc) && hi.load == HomedLoad(cohorts, hi.llc) == Peak(sites, cohorts)
      && HasSite(sites, lo.llc) && lo.load == HomedLoad(cohorts, lo.llc)
    ensures forall m :: 0 <= m < |sites| ==> HomedLoad(cohorts, sites[m].llc) <= Peak(sites, cohorts)
  {
    var llcs := Loads(sites, cohorts);
    var i :| 0 <= i < |llcs| && llcs[i] == MaxLlc(llcs);
    var j :| 0 <= j < |llcs| && llcs[j] == MinLlc(llcs);
    assert sites[i].llc == llcs[i].llc && sites[j].llc == llcs[j].llc;
    forall m | 0 <= m < |sites| ensures HomedLoad(cohorts, sites[m].llc) <= Peak(sites, cohorts) {
      assert llcs[m] in llcs;
    }
  }

  lemma {:induction false} PeakBound(sites: seq<Site>, cohorts: seq<CohortSnapshot>, bound: nat)
    requires sites != [] && forall m :: 0 <= m < |sites| ==> HomedLoad(cohorts, sites[m].llc) <= bound
    ensures Peak(sites, cohorts) <= bound
  {
    var llcs := Loads(sites, cohorts);
    var i :| 0 <= i < |llcs| && llcs[i] == MaxLlc(llcs);
  }

  // ----- Runs -----

  datatype Loop = Loop(bal: State, cohorts: seq<CohortSnapshot>)

  /** What the environment chooses for one tick: which cohorts are live, and the time. */
  datatype Input = Input(live: set<CohortId>, now: nat)

  function DecisionOf(cfg: BalancerCfg, sites: seq<Site>, w: Loop, t: Input): (State, Option<Decision>) {
    TickStep(cfg, w.bal, Tick(t.live, t.now, Loads(sites, w.cohorts), w.cohorts))
  }

  function LoopStep(cfg: BalancerCfg, sites: seq<Site>, w: Loop, t: Input): (r: Loop)
    ensures UniqueIds(w.cohorts) ==> UniqueIds(r.cohorts)
  {
    var (bal, d) := DecisionOf(cfg, sites, w, t);
    Loop(bal, if d.Some? then Moved(w.cohorts, d.value) else w.cohorts)
  }

  function LoopAt(cfg: BalancerCfg, sites: seq<Site>, w: Loop, inputs: seq<Input>): (r: Loop)
    ensures UniqueIds(w.cohorts) ==> UniqueIds(r.cohorts)
  {
    if inputs == [] then w
    else LoopStep(cfg, sites, LoopAt(cfg, sites, w, inputs[..|inputs| - 1]), inputs[|inputs| - 1])
  }

  function Moves(cfg: BalancerCfg, sites: seq<Site>, w: Loop, inputs: seq<Input>): nat {
    if inputs == [] then 0
    else
      var n := |inputs| - 1;
      Moves(cfg, sites, w, inputs[..n]) +
      (if DecisionOf(cfg, sites, LoopAt(cfg, sites, w, inputs[..n]), inputs[n]).1.Some? then 1 else 0)
  }

  /** Convergence: over any run the moves made so far and the potential left never exceed
      the starting potential, and the peak never rises; so every run makes finitely many moves. */
  lemma {:induction false} FinitelyManyMoves(cfg: BalancerCfg, sites: seq<Site>, w: Loop, inputs: seq<Input>)
    requires |sites| >= 2 && DistinctSites(sites) && UniqueIds(w.cohorts)
    ensures Moves(cfg, sites, w, inputs) + SumSquares(sites, LoopAt(cfg, sites, w, inputs).cohorts) <=
            SumSquares(sites, w.cohorts)
    ensures Peak(sites, LoopAt(cfg, sites, w, inputs).cohorts) <= Peak(sites, w.cohorts)
  {
    hide SumSquares, Peak, PlanStep;
    if inputs != [] {
      var n := |inputs| - 1;
      FinitelyManyMoves(cfg, sites, w, inputs[..n]);
      var v, t := LoopAt(cfg, sites, w, inputs[..n]), inputs[n];
      if DecisionOf(cfg, sites, v, t).1.Some? {
        MoveImproves(cfg, sites, Retained(v.bal, t.live), t.now, v.cohorts);
      }
    }
  }

  /** Where it settles: with the streak confirmed and no cohort immune, a tick without a move
      means the gap is within threshold or no cohort on the loaded LLC can repair it. */
  lemma {:induction false} SettledMeans(cfg: BalancerCfg, sites: seq<Site>, w: Loop, t: Input)
    requires |sites| >= 2 && w.bal.streak + 1 >= cfg.confirmTicks
    requires forall c :: c in w.cohorts && c.id in w.bal.lastMoveAt ==>
      SaturatingSub(t.now, w.bal.lastMoveAt[c.id]) >= Residency(cfg, c)
    ensures var llcs := Loads(sites, w.cohorts);
      DecisionOf(cfg, sites, w, t).1.None? <==>
        || !Over(cfg, llcs)
        || forall c | c in w.cohorts && c.homeLlc == MaxLlc(llcs).llc && !c.pinned && c.nrTasks > 0
                      && c.load <= MinLlc(llcs).capacity :: !(0 < c.load < Gap(llcs))
  {
    var llcs := Loads(sites, w.cohorts);
    PlanDecides(cfg, Retained(w.bal, t.live), t.now, llcs, w.cohorts);
  }
}
