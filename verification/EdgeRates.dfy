/** The edge-rate EWMA fed by `WakeGraph::observe`: what one call does to every
    edge, and how the pruned rates track the unpruned average over any run. */
module EdgeRates {
  import opened Domain
  import opened Collections

  /** A sampled (waker, wakee, count) triple. */
  type Delta = (Tgid, Tgid, nat)

  datatype Observation = Observation(deltas: seq<Delta>, dt: real, sampleMult: nat)

  /** Undirected key: tgids in sorted order. */
  function EKey(a: Tgid, b: Tgid): (e: Edge)
    ensures e.0 <= e.1 && {e.0, e.1} == {a, b}
  {
    if a < b then (a, b) else (b, a)
  }

  // ----- This tick's traffic -----

  /** Each delta as an undirected, sample-compensated contribution. */
  function Normal(deltas: seq<Delta>, mult: nat): (r: seq<(Edge, nat)>)
    ensures |r| == |deltas|
  {
    seq(|deltas|, i requires 0 <= i < |deltas| => (EKey(deltas[i].0, deltas[i].1), deltas[i].2 * mult))
  }

  function Traffic(contribs: seq<(Edge, nat)>, e: Edge): nat {
    if contribs == [] then 0
    else
      var last := contribs[|contribs| - 1];
      Traffic(contribs[..|contribs| - 1], e) + (if last.0 == e then last.1 else 0)
  }

  function Touched(contribs: seq<(Edge, nat)>): set<Edge> {
    set c | c in contribs :: c.0
  }

  lemma {:induction false} TrafficConcat(s: seq<(Edge, nat)>, t: seq<(Edge, nat)>, e: Edge)
    ensures Traffic(s + t, e) == Traffic(s, e) + Traffic(t, e)
  {
    if t == [] {
      assert s + t == s;
    } else {
      assert (s + t)[..|s + t| - 1] == s + t[..|t| - 1];
      TrafficConcat(s, t[..|t| - 1], e);
    }
  }

  lemma {:induction false} TrafficPermuted(s: seq<(Edge, nat)>, t: seq<(Edge, nat)>, e: Edge)
    requires multiset(s) == multiset(t)
    ensures Traffic(s, e) == Traffic(t, e)
    decreases |s|
  {
    if s == [] {
      assert |multiset(t)| == 0;
    } else {
      var x, s' := s[|s| - 1], s[..|s| - 1];
      DropLast(s);
      assert x in multiset(s);
      var i :| 0 <= i < |t| && t[i] == x;
      DropOne(t, i);
      TrafficPermuted(s', t[..i] + t[i + 1..], e);
      TrafficTake(t, i, e);
    }
  }

  lemma {:induction false} TrafficTake(t: seq<(Edge, nat)>, i: nat, e: Edge)
    requires i < |t|
    ensures Traffic(t, e) == Traffic(t[..i] + t[i + 1..], e) + if t[i].0 == e then t[i].1 else 0
  {
    var before, x, after := t[..i], [t[i]], t[i + 1..];
    assert t == before + x + after;
    TrafficConcat(before, after, e);
    TrafficConcat(before + x, after, e);
    TrafficConcat(before, x, e);
    assert Traffic(x[..0], e) == 0;
  }

  // ----- One observe call -----

  /** The EWMA time constant is a duration. */
  predicate ValidCfg(cfg: WakeGraphCfg) {
    cfg.rateTau >= 0.0
  }

  /** The blend factor of one call. */
  function Alpha(cfg: WakeGraphCfg, dt: real): (a: real)
    requires ValidCfg(cfg) && dt > 0.0
    ensures 0.0 < a <= 1.0
  {
    var a := dt / (dt + cfg.rateTau);
    assert a * (dt + cfg.rateTau) == dt;
    a
  }

  /** The rate below which an edge is dropped. */
  function Floor(cfg: WakeGraphCfg): real {
    cfg.splitMinWakesPerSec / 10.0
  }

  function Inst(o: Observation, e: Edge): real
    requires o.dt > 0.0
  {
    Traffic(Normal(o.deltas, o.sampleMult), e) as real / o.dt
  }

  /** One EWMA step. */
  function Blend(alpha: real, rate: real, inst: real): real {
    rate + alpha * (inst - rate)
  }

  /** The rate an edge starts at. */
  function FirstRate(alpha: real, inst: real): real {
    alpha * inst
  }

  /** An edge after decay and blending, before pruning. */
  function Blended(cfg: WakeGraphCfg, edges: map<Edge, EdgeState>, o: Observation, e: Edge): EdgeState
    requires ValidCfg(cfg) && o.dt > 0.0
  {
    var inst, alpha := Inst(o, e), Alpha(cfg, o.dt);
    if e in edges then
      EdgeState(Blend(alpha, edges[e].rate, inst), inst, edges[e].overTicks)
    else
      EdgeState(FirstRate(alpha, inst), inst, 0)
  }

  /** The edge map after one call. */
  function Observed(cfg: WakeGraphCfg, edges: map<Edge, EdgeState>, o: Observation): map<Edge, EdgeState>
    requires ValidCfg(cfg)
  {
    if o.dt <= 0.0 then edges
    else
      map e | e in edges.Keys + Touched(Normal(o.deltas, o.sampleMult))
              && Blended(cfg, edges, o, e).rate >= Floor(cfg) :: Blended(cfg, edges, o, e)
  }

  /** Neither the order of the deltas nor the direction of any of them matters. */
  lemma {:induction false} ObservedOrderFree(cfg: WakeGraphCfg, edges: map<Edge, EdgeState>, o: Observation,
      o': Observation)
    requires ValidCfg(cfg) && o.dt == o'.dt
    requires multiset(Normal(o.deltas, o.sampleMult)) == multiset(Normal(o'.deltas, o'.sampleMult))
    ensures Observed(cfg, edges, o) == Observed(cfg, edges, o')
  {
    if o.dt > 0.0 {
      hide Normal, Floor, Blended;
      var n, n' := Normal(o.deltas, o.sampleMult), Normal(o'.deltas, o'.sampleMult);
      SameMembers(n, n');
      assert Touched(n) == Touched(n');
      forall e ensures Blended(cfg, edges, o, e) == Blended(cfg, edges, o', e) {
        BlendedOrderFree(cfg, edges, o, o', e);
      }
    }
  }

  lemma {:induction false} BlendedOrderFree(cfg: WakeGraphCfg, edges: map<Edge, EdgeState>, o: Observation,
      o': Observation, e: Edge)
    requires ValidCfg(cfg) && o.dt == o'.dt > 0.0
    requires multiset(Normal(o.deltas, o.sampleMult)) == multiset(Normal(o'.deltas, o'.sampleMult))
    ensures Blended(cfg, edges, o, e) == Blended(cfg, edges, o', e)
  {
    hide Normal, Traffic, Alpha, Blend;
    TrafficPermuted(Normal(o.deltas, o.sampleMult), Normal(o'.deltas, o'.sampleMult), e);
  }

  lemma {:induction false} DirectionFree(a: Tgid, b: Tgid, count: nat, rest: seq<Delta>, mult: nat)
    ensures Normal([(a, b, count)] + rest, mult) == Normal([(b, a, count)] + rest, mult)
  {
  }

  // ----- Runs -----

  /** Merge confirmation rewrites only `overTicks`; rates change only in `observe`. */
  ghost predicate SameRates(edges: map<Edge, EdgeState>, edges': map<Edge, EdgeState>) {
    && edges.Keys == edges'.Keys
    && forall e :: e in edges ==> edges[e].rate == edges'[e].rate && edges[e].inst == edges'[e].inst
  }

  /** `states[i + 1]` is what the i-th observation made of `states[i]`. */
  ghost predicate IsRun(cfg: WakeGraphCfg, obs: seq<Observation>, states: seq<map<Edge, EdgeState>>)
    requires ValidCfg(cfg)
  {
    && |states| == |obs| + 1
    && states[0] == map[]
    && forall i, j :: 0 <= i < |obs| && j == i + 1 ==> SameRates(states[j], Observed(cfg, states[i], obs[i]))
  }

  function Tracked(edges: map<Edge, EdgeState>, e: Edge): real {
    if e in edges then edges[e].rate else 0.0
  }

  /** The EWMA that never forgets an edge. */
  function Ideal(cfg: WakeGraphCfg, obs: seq<Observation>, e: Edge): real
    requires ValidCfg(cfg)
  {
    if obs == [] then 0.0
    else
      var prev, o := Ideal(cfg, obs[..|obs| - 1], e), obs[|obs| - 1];
      if o.dt <= 0.0 then prev
      else Blend(Alpha(cfg, o.dt), prev, Inst(o, e))
  }

  lemma {:induction false} UntouchedTraffic(contribs: seq<(Edge, nat)>, e: Edge)
    requires e !in Touched(contribs)
    ensures Traffic(contribs, e) == 0
  {
    if contribs != [] {
      assert forall c :: c in contribs[..|contribs| - 1] ==> c in contribs;
      UntouchedTraffic(contribs[..|contribs| - 1], e);
    }
  }

  /** The gap to the ideal rate after one blend: it shrinks, and pruning adds at most the floor. */
  lemma {:induction false} GapStep(alpha: real, a: real, bound: real, tracked: real, ideal: real, inst: real)
    requires 0.0 < a <= alpha <= 1.0
    requires 0.0 <= tracked <= ideal <= tracked + bound && 0.0 <= inst && 0.0 <= bound
    ensures var t, i := Blend(alpha, tracked, inst), Blend(alpha, ideal, inst);
      && 0.0 <= t <= i <= t + bound
      && (t < a * bound ==> i <= bound)
  {
    GapArithmetic(alpha, a, bound, tracked, ideal, inst);
  }

  lemma {:induction false} GapArithmetic(alpha: real, a: real, bound: real, tracked: real, ideal: real, inst: real)
    requires 0.0 < a <= alpha <= 1.0
    requires 0.0 <= tracked <= ideal <= tracked + bound && 0.0 <= inst && 0.0 <= bound
    ensures var t, i := tracked + alpha * (inst - tracked), ideal + alpha * (inst - ideal);
      && 0.0 <= t <= i <= t + bound
      && (t < a * bound ==> i <= bound)
  {
    Distribute(alpha, inst, tracked);
    Distribute(alpha, inst, ideal);
    Shrink(alpha, 0.0, tracked);
    Shrink(alpha, tracked, ideal);
    Shrink(alpha, ideal - tracked, bound);
    Distribute(alpha, ideal, tracked);
    MulMonotone(alpha, 0.0, inst);
    MulMonotone(alpha, tracked, ideal);
    MulMonotone(bound, a, alpha);
    GapLinear(bound, tracked, ideal, alpha * inst, alpha * tracked, alpha * ideal, alpha * bound, a * bound);
  }

  /** `GapArithmetic` with its products named: only linear reasoning is left. */
  lemma {:induction false} GapLinear(bound: real, tracked: real, ideal: real,
      ofInst: real, ofTracked: real, ofIdeal: real, ofBound: real, floor: real)
    requires 0.0 <= ofInst && ofTracked <= tracked && ofTracked <= ofIdeal && ideal <= tracked + bound
    requires tracked - ofTracked <= ideal - ofIdeal
    requires (ideal - tracked) - (ofIdeal - ofTracked) <= bound - ofBound
    requires floor <= ofBound
    ensures var t, i := tracked + (ofInst - ofTracked), ideal + (ofInst - ofIdeal);
      && 0.0 <= t <= i <= t + bound
      && (t < floor ==> i <= bound)
  {
  }

  /** Taking the share `c` out of two quantities keeps their order. */
  lemma {:induction false} Shrink(c: real, x: real, y: real)
    requires c <= 1.0 && x <= y
    ensures x - c * x <= y - c * y
  {
    MulMonotone(1.0 - c, x, y);
    assert (1.0 - c) * x == x - c * x;
    assert (1.0 - c) * y == y - c * y;
  }

  lemma {:induction false} MulMonotone(c: real, x: real, y: real)
    requires c >= 0.0 && x <= y
    ensures c * x <= c * y
  {
  }

  lemma {:induction false} Distribute(c: real, x: real, y: real)
    ensures c * (x - y) == c * x - c * y
  {
  }

  /** Pruning never overstates a rate, and understates it by at most floor/alpha,
      over every run whose blend factors stay at or above `a`. */
  lemma {:induction false} PrunedTracksIdeal(cfg: WakeGraphCfg, obs: seq<Observation>,
      states: seq<map<Edge, EdgeState>>, a: real, e: Edge)
    requires ValidCfg(cfg) && cfg.splitMinWakesPerSec >= 0.0 && IsRun(cfg, obs, states)
    requires a > 0.0
    requires forall i :: 0 <= i < |obs| && obs[i].dt > 0.0 ==> Alpha(cfg, obs[i].dt) >= a
    ensures 0.0 <= Tracked(states[|obs|], e) <= Ideal(cfg, obs, e)
    ensures Ideal(cfg, obs, e) <= Tracked(states[|obs|], e) + cfg.splitMinWakesPerSec / 10.0 / a
    decreases |obs|
  {
    hide Alpha, Inst, Observed, Blend;
    var bound := Floor(cfg) / a;
    assert a * bound == Floor(cfg);
    if obs != [] {
      var n := |obs| - 1;
      var prev, o := obs[..n], obs[n];
      PrunedTracksIdeal(cfg, prev, states[..n + 1], a, e);
      assert SameRates(states[n + 1], Observed(cfg, states[n], o));
      if o.dt > 0.0 {
        ObservedEdge(cfg, states[n], o, e);
        GapStep(Alpha(cfg, o.dt), a, bound, Tracked(states[n], e), Ideal(cfg, prev, e), Inst(o, e));
      } else {
        IdleObserved(cfg, states[n], o);
      }
    }
  }

  lemma {:induction false} IdleObserved(cfg: WakeGraphCfg, edges: map<Edge, EdgeState>, o: Observation)
    requires ValidCfg(cfg) && o.dt <= 0.0
    ensures Observed(cfg, edges, o) == edges
  {
  }

  lemma {:induction false} BlendZero(alpha: real, inst: real)
    ensures Blend(alpha, 0.0, inst) == FirstRate(alpha, inst)
    ensures inst == 0.0 ==> Blend(alpha, 0.0, inst) == 0.0
  {
  }

  /** One call seen from one edge: blend, then drop to zero below the floor. */
  lemma {:induction false} ObservedEdge(cfg: WakeGraphCfg, edges: map<Edge, EdgeState>, o: Observation, e: Edge)
    requires ValidCfg(cfg) && o.dt > 0.0
    ensures Inst(o, e) >= 0.0
    ensures var t := Blend(Alpha(cfg, o.dt), Tracked(edges, e), Inst(o, e));
      Tracked(Observed(cfg, edges, o), e) == if t < Floor(cfg) then 0.0 else t
  {
    hide Alpha, Normal, Touched, Blend, FirstRate;
    var n := Normal(o.deltas, o.sampleMult);
    BlendZero(Alpha(cfg, o.dt), Inst(o, e));
    if e !in edges && e !in Touched(n) {
      UntouchedTraffic(n, e);
    }
  }

  /** With one fixed tick length the bound is floor/alpha: a tenth of the split rate, stretched by
      the ratio of the whole window to one tick. */
  lemma {:induction false} PrunedTracksIdealFixedTick(cfg: WakeGraphCfg, obs: seq<Observation>,
      states: seq<map<Edge, EdgeState>>, dt: real, e: Edge)
    requires ValidCfg(cfg) && cfg.splitMinWakesPerSec >= 0.0 && IsRun(cfg, obs, states)
    requires dt > 0.0 && forall i :: 0 <= i < |obs| ==> obs[i].dt == dt
    ensures Tracked(states[|obs|], e) <= Ideal(cfg, obs, e)
    ensures Ideal(cfg, obs, e) - Tracked(states[|obs|], e) <= cfg.splitMinWakesPerSec / 10.0 * ((dt + cfg.rateTau) / dt)
  {
    hide Alpha, Ideal, IsRun;
    PrunedTracksIdeal(cfg, obs, states, Alpha(cfg, dt), e);
    AlphaMeans(cfg, dt);
    InverseShare(Alpha(cfg, dt), dt + cfg.rateTau, dt, cfg.splitMinWakesPerSec / 10.0);
  }

  lemma {:induction false} InverseShare(a: real, whole: real, part: real, x: real)
    requires a > 0.0 && part > 0.0 && a * whole == part
    ensures x / a == x * (whole / part)
  {
    var q := whole / part;
    assert q * part == whole;
    if whole <= 0.0 { MulMonotone(a, whole, 0.0); }
    assert q * (a * whole) == (q * a) * whole;
    Cancel(q * a, 1.0, whole);
    var r := x / a;
    assert r * a == x;
    Cancel(r, x * q, a);
  }

  lemma {:induction false} Cancel(x: real, y: real, c: real)
    requires c > 0.0 && x * c == y * c
    ensures x == y
  {
    assert (x - y) * c == 0.0;
  }

  // ----- One call in plain arithmetic -----

  /** The new rate and the old one are weighted as the tick length to the time constant. */
  lemma {:induction false} AlphaMeans(cfg: WakeGraphCfg, dt: real)
    requires ValidCfg(cfg) && dt > 0.0
    ensures Alpha(cfg, dt) * cfg.rateTau == (1.0 - Alpha(cfg, dt)) * dt
    ensures Alpha(cfg, dt) * (dt + cfg.rateTau) == dt
  {
  }

  /** The wakeups sampled between two tgids, in either direction. */
  function Wakes(deltas: seq<Delta>, a: Tgid, b: Tgid): nat {
    if deltas == [] then 0
    else
      var d := deltas[|deltas| - 1];
      Wakes(deltas[..|deltas| - 1], a, b) + (if (d.0 == a && d.1 == b) || (d.0 == b && d.1 == a) then d.2 else 0)
  }

  ghost predicate Sampled(deltas: seq<Delta>, a: Tgid, b: Tgid) {
    exists d :: d in deltas && {d.0, d.1} == {a, b}
  }

  lemma {:induction false} TrafficMeans(deltas: seq<Delta>, mult: nat, a: Tgid, b: Tgid)
    requires a <= b
    ensures Traffic(Normal(deltas, mult), (a, b)) == mult * Wakes(deltas, a, b)
  {
    if deltas != [] {
      var n := |deltas| - 1;
      var d := deltas[n];
      TrafficMeans(deltas[..n], mult, a, b);
      assert Normal(deltas, mult)[..n] == Normal(deltas[..n], mult);
      assert EKey(d.0, d.1) == (a, b) <==> (d.0 == a && d.1 == b) || (d.0 == b && d.1 == a);
      assert mult * (Wakes(deltas[..n], a, b) + d.2) == mult * Wakes(deltas[..n], a, b) + d.2 * mult;
    }
  }

  lemma {:induction false} TouchedMeans(deltas: seq<Delta>, mult: nat, a: Tgid, b: Tgid)
    requires a <= b
    ensures (a, b) in Touched(Normal(deltas, mult)) <==> Sampled(deltas, a, b)
  {
    var n := Normal(deltas, mult);
    if (a, b) in Touched(n) {
      var i :| 0 <= i < |n| && n[i].0 == (a, b);
      assert deltas[i] in deltas;
    }
    if Sampled(deltas, a, b) {
      var i :| 0 <= i < |deltas| && {deltas[i].0, deltas[i].1} == {a, b};
      assert deltas[i].0 in {a, b} && deltas[i].1 in {a, b};
      assert a in {deltas[i].0, deltas[i].1} && b in {deltas[i].0, deltas[i].1};
      assert n[i].0 == (a, b) && n[i] in n;
    }
  }

  /** One call on rates alone: over a tick of length dt, the rate covers the part dt/(dt + tau) of its
      distance to the compensated wakeups per second; it never overshoots; below a tenth of the split
      rate, and only there, the edge is dropped; the confirmation counter carries over. */
  lemma {:induction false} ObservedMeans(cfg: WakeGraphCfg, edges: map<Edge, EdgeState>, o: Observation,
      a: Tgid, b: Tgid, next: real)
    requires ValidCfg(cfg) && o.dt > 0.0 && a <= b
    requires var rate, inst := Tracked(edges, (a, b)), (o.sampleMult * Wakes(o.deltas, a, b)) as real / o.dt;
      (next - rate) * (o.dt + cfg.rateTau) == (inst - rate) * o.dt
    ensures var e, edges' := (a, b), Observed(cfg, edges, o);
      var rate, inst := Tracked(edges, e), (o.sampleMult * Wakes(o.deltas, a, b)) as real / o.dt;
      && (e in edges' <==> (e in edges || Sampled(o.deltas, a, b)) && next >= cfg.splitMinWakesPerSec / 10.0)
      && (e in edges' ==> edges'[e] == EdgeState(next, inst, if e in edges then edges[e].overTicks else 0))
      && (rate < inst ==> rate < next <= inst) && (inst < rate ==> inst <= next < rate)
      && (rate != inst && cfg.rateTau > 0.0 ==> next != inst)
  {
    hide Normal, Touched, Traffic, Alpha;
    var rate, inst := Tracked(edges, (a, b)), Inst(o, (a, b));
    TrafficMeans(o.deltas, o.sampleMult, a, b);
    TouchedMeans(o.deltas, o.sampleMult, a, b);
    AlphaMeans(cfg, o.dt);
    StepIs(Alpha(cfg, o.dt), o.dt + cfg.rateTau, o.dt, rate, inst, next);
    BlendZero(Alpha(cfg, o.dt), inst);
    StaysBetween(Alpha(cfg, o.dt), rate, inst);
  }

  lemma {:induction false} StepIs(alpha: real, whole: real, part: real, rate: real, inst: real, next: real)
    requires whole > 0.0 && alpha * whole == part && (next - rate) * whole == (inst - rate) * part
    ensures next == Blend(alpha, rate, inst)
  {
    assert (inst - rate) * (alpha * whole) == (alpha * (inst - rate)) * whole;
    Cancel(next - rate, alpha * (inst - rate), whole);
  }

  lemma {:induction false} StaysBetween(alpha: real, rate: real, inst: real)
    requires 0.0 < alpha <= 1.0
    ensures var next := Blend(alpha, rate, inst);
      && (rate < inst ==> rate < next <= inst) && (inst < rate ==> inst <= next < rate)
      && (rate != inst && alpha < 1.0 ==> next != inst)
  {
    if rate < inst {
      var part := Fraction(alpha, inst, rate);
    } else if inst < rate {
      var part := Fraction(alpha, rate, inst);
      assert Blend(alpha, rate, inst) == rate - part by {
        Distribute(alpha, inst, rate);
        Distribute(alpha, rate, inst);
      }
    }
  }

  lemma {:induction false} Fraction(alpha: real, hi: real, lo: real) returns (part: real)
    requires 0.0 < alpha <= 1.0 && lo < hi
    ensures part == alpha * (hi - lo) && 0.0 < part <= hi - lo && (alpha < 1.0 ==> part < hi - lo)
  {
    part := alpha * (hi - lo);
    Positive(alpha, hi - lo);
    var rest := (1.0 - alpha) * (hi - lo);
    Complement(alpha, hi - lo);
    if alpha < 1.0 { Positive(1.0 - alpha, hi - lo); }
  }

  lemma {:induction false} Complement(alpha: real, d: real)
    ensures alpha * d + (1.0 - alpha) * d == d
    ensures alpha == 1.0 ==> alpha * d == d
  {
  }

  lemma {:induction false} Positive(x: real, y: real)
    requires x > 0.0 && y > 0.0
    ensures x * y > 0.0
  {
  }

  /** The unpruned average obeys the same law, without the floor. */
  lemma {:induction false} IdealMeans(cfg: WakeGraphCfg, obs: seq<Observation>, o: Observation, a: Tgid, b: Tgid)
    requires ValidCfg(cfg) && o.dt > 0.0 && a <= b
    ensures var before, after := Ideal(cfg, obs, (a, b)), Ideal(cfg, obs + [o], (a, b));
      (after - before) * (o.dt + cfg.rateTau) ==
        ((o.sampleMult * Wakes(o.deltas, a, b)) as real / o.dt - before) * o.dt
  {
    hide Normal, Traffic, Alpha;
    assert (obs + [o])[..|obs|] == obs;
    TrafficMeans(o.deltas, o.sampleMult, a, b);
    AlphaMeans(cfg, o.dt);
    var alpha, d := Alpha(cfg, o.dt), Inst(o, (a, b)) - Ideal(cfg, obs, (a, b));
    assert (alpha * d) * (o.dt + cfg.rateTau) == d * (alpha * (o.dt + cfg.rateTau));
  }
}
