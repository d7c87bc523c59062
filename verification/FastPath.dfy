/** The BPF fast path's bookkeeping as atomic callbacks over the shared maps: cohort
    assignment and resolution, runtime charged to a cohort and to an LLC, and task
    statistics; together with the daemon's steps on the same maps. */
module FastPath {
  import opened Domain
  import opened DaemonMaps

  const MAX_LLCS: nat := 8
  const COHORT_INVALID: CohortId := 0

  /** Per-task storage: the cached cohort and the cached placement LLC. */
  datatype TaskCtx = TaskCtx(tgid: Tgid, cohortId: CohortId, homeLlc: LlcId)

  /** What the daemon reads about a task: monotonic runtime, and its part executed at home. */
  datatype TaskStat = TaskStat(tgid: Tgid, cohortId: CohortId, runtime: nat, runtimeHome: nat)

  /** Everything the callbacks touch.  `nrLlcs` and the array sizes are fixed at load time. */
  datatype World = World(
    nrLlcs: nat,
    maps: Maps,
    spill: map<Pid, LlcId>,
    cohortSeq: nat,
    daemonSeq: nat,
    ctxs: map<Pid, TaskCtx>,
    stats: map<Pid, TaskStat>,
    llcLoad: map<LlcId, nat>)

  /** The load array has a slot for every LLC the callbacks can name. */
  ghost predicate Loaded(w: World) {
    1 <= w.nrLlcs <= MAX_LLCS && forall l :: 0 <= l < MAX_LLCS ==> l in w.llcLoad
  }

  /** The world at load time: no tasks, no cohorts, zeroed loads. */
  function Booted(nrLlcs: nat): World {
    World(nrLlcs, Maps(map[], map[], map[]), map[], 0, 0, map[], map[], Zeroed(MAX_LLCS))
  }

  function Zeroed(n: nat): (r: map<LlcId, nat>)
    ensures forall l: LlcId :: l in r <==> l < n
    ensures forall l: LlcId :: l in r ==> r[l] == 0
  {
    if n == 0 then map[] else Zeroed(n - 1)[n - 1 := 0]
  }

  function SafeLlc(w: World, llc: LlcId): LlcId {
    if llc < w.nrLlcs then llc else 0
  }

  // ----- Callbacks -----

  /** The cohort a task belongs to now: the tgid map first, the cache otherwise. */
  function Resolve(w: World, pid: Pid): CohortId
    requires pid in w.ctxs
  {
    var ctx := w.ctxs[pid];
    if ctx.tgid in w.maps.tgidCohort then w.maps.tgidCohort[ctx.tgid] else ctx.cohortId
  }

  /** `task_home_llc`: a spill target wins; otherwise the resolved cohort's home, or the LLC the
      task sits on.  Both caches are refreshed, except that a spilled task keeps its cohort. */
  function Placed(w: World, pid: Pid, cpuLlc: LlcId): World {
    if pid !in w.ctxs then w
    else if pid in w.spill then w.(ctxs := w.ctxs[pid := w.ctxs[pid].(homeLlc := SafeLlc(w, w.spill[pid]))])
    else
      var c := Resolve(w, pid);
      var home := if c in w.maps.policy then SafeLlc(w, w.maps.policy[c].homeLlc) else SafeLlc(w, cpuLlc);
      w.(ctxs := w.ctxs[pid := w.ctxs[pid].(cohortId := c, homeLlc := home)])
  }

  /** Runtime in units of the default weight of 100, rounded down. */
  function Scaled(delta: nat, weight: nat): (r: nat)
    ensures 100 * r <= delta * weight < 100 * (r + 1)
    ensures weight == 100 ==> r == delta
  {
    delta * weight / 100
  }

  /** `cohort_stopping`: the scaled runtime goes to the cached cohort, if it still has counters,
      and to the LLC that ran the task; the raw runtime goes to the task's statistics. */
  function Stopped(w: World, pid: Pid, delta: nat, weight: nat, cpuLlc: LlcId): World
    requires Loaded(w)
  {
    if pid !in w.ctxs then w
    else
      var ctx, llc, scaled := w.ctxs[pid], SafeLlc(w, cpuLlc), Scaled(delta, weight);
      var counters := w.maps.counters;
      w.(maps := w.maps.(counters := if ctx.cohortId !in counters then counters
                                     else counters[ctx.cohortId := counters[ctx.cohortId] + scaled]),
         llcLoad := w.llcLoad[llc := w.llcLoad[llc] + scaled],
         stats := if pid in w.stats then w.stats[pid := Charged(w.stats[pid], ctx, delta, llc)] else w.stats)
  }

  function Charged(s: TaskStat, ctx: TaskCtx, delta: nat, llc: LlcId): TaskStat {
    TaskStat(s.tgid, ctx.cohortId, s.runtime + delta, s.runtimeHome + (if llc == ctx.homeLlc then delta else 0))
  }

  /** The cohort a forking parent hands down: its cached one, not the resolved one. */
  function Inherited(w: World, parent: Option<Pid>): CohortId {
    if parent.Some? && parent.value in w.ctxs then w.ctxs[parent.value].cohortId else COHORT_INVALID
  }

  /** `assign_cohort`: the existing mapping, else the parent's cached cohort, else a new cohort. */
  function Assigned(w: World, tgid: Tgid, parent: Option<Pid>, rr: nat): (World, CohortId)
    requires w.nrLlcs >= 1
  {
    var m := w.maps;
    if tgid in m.tgidCohort then (w, m.tgidCohort[tgid])
    else if Inherited(w, parent) != COHORT_INVALID then
      var id := Inherited(w, parent);
      (w.(maps := m.(tgidCohort := m.tgidCohort[tgid := id])), id)
    else
      var id := w.cohortSeq + 1;
      (w.(cohortSeq := id,
          maps := Maps(m.tgidCohort[tgid := id],
                       if id in m.policy then m.policy else m.policy[id := Policy(rr % w.nrLlcs, false)],
                       if id in m.counters then m.counters else m.counters[id := 0])), id)
  }

  /** `init_task`: assign a cohort and start fresh statistics. */
  function Started(w: World, pid: Pid, tgid: Tgid, parent: Option<Pid>, rr: nat): World
    requires w.nrLlcs >= 1
  {
    var (v, id) := Assigned(w, tgid, parent, rr);
    v.(ctxs := v.ctxs[pid := TaskCtx(tgid, id, 0)], stats := v.stats[pid := TaskStat(tgid, id, 0, 0)])
  }

  /** `exit_task`: the statistics and the spill entry go; the maps wait for the daemon. */
  function Exited(w: World, pid: Pid): World {
    if pid !in w.ctxs then w
    else w.(ctxs := w.ctxs - {pid}, stats := w.stats - {pid}, spill := w.spill - {pid})
  }

  /** What a stop adds, entry by entry: the same scaled amount to the cached cohort, if it has
      counters, and to the executing LLC; the raw runtime to the task, and to its home share if it
      ran at home; and nothing to anything else. */
  ghost predicate Charges(w: World, v: World, pid: Pid, delta: nat, weight: nat, cpuLlc: LlcId) {
    var runs := pid in w.ctxs;
    && v.maps.counters.Keys == w.maps.counters.Keys && v.llcLoad.Keys == w.llcLoad.Keys && v.stats.Keys == w.stats.Keys
    && (forall c :: c in w.maps.counters ==>
          v.maps.counters[c] ==
            w.maps.counters[c] + if runs && w.ctxs[pid].cohortId == c then Scaled(delta, weight) else 0)
    && (forall l :: l in w.llcLoad ==>
          v.llcLoad[l] == w.llcLoad[l] + if runs && l == SafeLlc(w, cpuLlc) then Scaled(delta, weight) else 0)
    && (forall p :: p in w.stats ==>
          && v.stats[p].runtime == w.stats[p].runtime + (if runs && p == pid then delta else 0)
          && v.stats[p].runtimeHome == w.stats[p].runtimeHome +
               if runs && p == pid && SafeLlc(w, cpuLlc) == w.ctxs[pid].homeLlc then delta else 0)
  }

  lemma {:induction false} StopCharges(w: World, pid: Pid, delta: nat, weight: nat, cpuLlc: LlcId)
    requires Loaded(w)
    ensures Charges(w, Stopped(w, pid, delta, weight, cpuLlc), pid, delta, weight, cpuLlc)
  {
    hide Scaled;
  }

  // ----- The callbacks, in place -----

  class Bpf {
    const nrLlcs: nat
    var maps: Maps
    var spill: map<Pid, LlcId>
    var cohortSeq: nat
    var daemonSeq: nat
    var ctxs: map<Pid, TaskCtx>
    var stats: map<Pid, TaskStat>
    var llcLoad: map<LlcId, nat>

    function View(): World
      reads this
    {
      World(nrLlcs, maps, spill, cohortSeq, daemonSeq, ctxs, stats, llcLoad)
    }

    method TaskHomeLlc(pid: Pid, cpuLlc: LlcId) returns (home: LlcId)
      requires Loaded(View())
      modifies `ctxs
      ensures View() == Placed(old(View()), pid, cpuLlc)
      ensures home < nrLlcs && ctxs.Keys == old(ctxs).Keys && ctxs - {pid} == old(ctxs) - {pid}
      ensures pid in ctxs ==> ctxs[pid].homeLlc == home && ctxs[pid].tgid == old(ctxs)[pid].tgid
      // A spilled task goes to its target and keeps its cached cohort.
      ensures pid in ctxs && pid in spill ==>
        && ctxs[pid].cohortId == old(ctxs)[pid].cohortId
        && (spill[pid] < nrLlcs ==> home == spill[pid]) && (spill[pid] >= nrLlcs ==> home == 0)
      // Any other one caches the cohort its tgid maps to now, or keeps the cached one.
      ensures pid in ctxs && pid !in spill ==>
        && (ctxs[pid].tgid in maps.tgidCohort ==> ctxs[pid].cohortId == maps.tgidCohort[ctxs[pid].tgid])
        && (ctxs[pid].tgid !in maps.tgidCohort ==> ctxs[pid].cohortId == old(ctxs)[pid].cohortId)
      // It goes to that cohort's home; without a policy, or without a context, it stays at the CPU's LLC.
      ensures pid in ctxs && pid !in spill && ctxs[pid].cohortId in maps.policy ==>
        var wanted := maps.policy[ctxs[pid].cohortId].homeLlc;
        (wanted < nrLlcs ==> home == wanted) && (wanted >= nrLlcs ==> home == 0)
      ensures pid !in ctxs || (pid !in spill && ctxs[pid].cohortId !in maps.policy) ==>
        (cpuLlc < nrLlcs ==> home == cpuLlc) && (cpuLlc >= nrLlcs ==> home == 0)
    {
      if pid !in ctxs {
        return SafeLlc(View(), cpuLlc);
      }
      var ctx := ctxs[pid];
      if pid in spill {
        home := SafeLlc(View(), spill[pid]);
        ctxs := ctxs[pid := ctx.(homeLlc := home)];
        return;
      }
      if ctx.tgid in maps.tgidCohort {
        ctx := ctx.(cohortId := maps.tgidCohort[ctx.tgid]);
      }
      if ctx.cohortId in maps.policy {
        home := SafeLlc(View(), maps.policy[ctx.cohortId].homeLlc);
      } else {
        home := SafeLlc(View(), cpuLlc);
      }
      ctxs := ctxs[pid := ctx.(homeLlc := home)];
    }

    method Stopping(pid: Pid, delta: nat, weight: nat, cpuLlc: LlcId)
      requires Loaded(View())
      modifies `maps, `llcLoad, `stats
      ensures View() == Stopped(old(View()), pid, delta, weight, cpuLlc)
      // The same scaled amount goes to the cached cohort, if it is counted, and to the LLC that ran the task.
      // Only this task's statistics move, by the raw runtime.
      ensures Charges(old(View()), View(), pid, delta, weight, cpuLlc)
    {
      hide Scaled, Charged, Charges;
      if pid !in ctxs {
        StopCharges(View(), pid, delta, weight, cpuLlc);
        return;
      }
      var ctx := ctxs[pid];
      var scaled := Scaled(delta, weight);
      if ctx.cohortId in maps.counters {
        maps := maps.(counters := maps.counters[ctx.cohortId := maps.counters[ctx.cohortId] + scaled]);
      }
      var llc := SafeLlc(View(), cpuLlc);
      llcLoad := llcLoad[llc := llcLoad[llc] + scaled];
      ChargeTask(pid, ctx, delta, llc);
      StopCharges(old(View()), pid, delta, weight, cpuLlc);
    }

    method ChargeTask(pid: Pid, ctx: TaskCtx, delta: nat, llc: LlcId)
      modifies `stats
      ensures stats ==
        if pid in old(stats) then old(stats)[pid := Charged(old(stats)[pid], ctx, delta, llc)] else old(stats)
    {
      if pid in stats {
        var ts := stats[pid];
        ts := ts.(runtime := ts.runtime + delta);
        if llc == ctx.homeLlc {
          ts := ts.(runtimeHome := ts.runtimeHome + delta);
        }
        stats := stats[pid := ts.(cohortId := ctx.cohortId)];
      }
    }

    method AssignCohort(tgid: Tgid, parent: Option<Pid>, rr: nat) returns (id: CohortId)
      requires nrLlcs >= 1
      modifies `maps, `cohortSeq
      ensures (View(), id) == Assigned(old(View()), tgid, parent, rr)
      ensures maps.tgidCohort == old(maps).tgidCohort[tgid := id]
      ensures tgid in old(maps).tgidCohort ==> maps == old(maps) && cohortSeq == old(cohortSeq)
      // A known parent with a cohort hands down what it has cached, resolved or not.
      ensures tgid !in old(maps).tgidCohort
              && parent.Some? && parent.value in ctxs && ctxs[parent.value].cohortId != 0 ==>
        && id == ctxs[parent.value].cohortId && cohortSeq == old(cohortSeq)
        && maps.policy == old(maps).policy && maps.counters == old(maps).counters
      // Otherwise the next id names a new cohort, homed round-robin, unpinned, with nothing charged.
      ensures tgid !in old(maps).tgidCohort
              && !(parent.Some? && parent.value in ctxs && ctxs[parent.value].cohortId != 0) ==>
        && id == cohortSeq == old(cohortSeq) + 1
        && (id !in old(maps).policy ==> maps.policy == old(maps).policy[id := Policy(rr % nrLlcs, false)])
        && (id !in old(maps).counters ==> maps.counters == old(maps).counters[id := 0])
      // No existing entry changes, and a new cohort comes with both of its entries.
      ensures forall c :: c in old(maps).policy ==> c in maps.policy && maps.policy[c] == old(maps).policy[c]
      ensures forall c :: c in old(maps).counters ==> c in maps.counters && maps.counters[c] == old(maps).counters[c]
      ensures cohortSeq != old(cohortSeq) ==> id == cohortSeq && id in maps.policy && id in maps.counters
    {
      if tgid in maps.tgidCohort {
        return maps.tgidCohort[tgid];
      }
      id := COHORT_INVALID;
      if parent.Some? && parent.value in ctxs {
        id := ctxs[parent.value].cohortId;
      }
      if id == COHORT_INVALID {
        cohortSeq := cohortSeq + 1;
        id := cohortSeq;
        if id !in maps.policy { maps := maps.(policy := maps.policy[id := Policy(rr % nrLlcs, false)]); }
        if id !in maps.counters { maps := maps.(counters := maps.counters[id := 0]); }
      }
      maps := maps.(tgidCohort := maps.tgidCohort[tgid := id]);
    }

    method InitTask(pid: Pid, tgid: Tgid, parent: Option<Pid>, rr: nat)
      requires nrLlcs >= 1
      modifies `maps, `cohortSeq, `ctxs, `stats
      ensures View() == Started(old(View()), pid, tgid, parent, rr)
      ensures tgid in maps.tgidCohort && pid in ctxs && ctxs[pid] == TaskCtx(tgid, maps.tgidCohort[tgid], 0)
      ensures pid in stats && stats[pid].runtime == 0 == stats[pid].runtimeHome
      ensures ctxs - {pid} == old(ctxs) - {pid} && stats - {pid} == old(stats) - {pid}
    {
      var id := AssignCohort(tgid, parent, rr);
      ctxs := ctxs[pid := TaskCtx(tgid, id, 0)];
      stats := stats[pid := TaskStat(tgid, id, 0, 0)];
    }

    method ExitTask(pid: Pid)
      modifies `ctxs, `stats, `spill
      ensures View() == Exited(old(View()), pid)
      ensures pid !in ctxs && (pid in old(ctxs) ==> pid !in stats && pid !in spill)
      ensures ctxs == old(ctxs) - {pid} && stats - {pid} == old(stats) - {pid} && spill - {pid} == old(spill) - {pid}
    {
      if pid in ctxs {
        stats := stats - {pid};
        spill := spill - {pid};
        ctxs := ctxs - {pid};
      }
    }
  }

  // ----- Forks and referential integrity -----

  /** A fork keeps integrity exactly when the tgid is mapped already, or there is nothing to
      inherit, or the cached cohort it inherits still has its entries. */
  lemma {:induction false} ForkKeepsIntegrityWhen(w: World, tgid: Tgid, parent: Option<Pid>, rr: nat)
    requires w.nrLlcs >= 1 && Integrity(w.maps)
    ensures var id := Inherited(w, parent);
      Integrity(Assigned(w, tgid, parent, rr).0.maps) <==>
        (tgid in w.maps.tgidCohort || id == COHORT_INVALID || (id in w.maps.policy && id in w.maps.counters))
  {
    var m, m' := w.maps, Assigned(w, tgid, parent, rr).0.maps;
    var id := Inherited(w, parent);
    if tgid !in m.tgidCohort && id != COHORT_INVALID && !(id in m.policy && id in m.counters) {
      assert tgid in m'.tgidCohort && m'.tgidCohort[tgid] == id;
    }
  }

  /** A parent placed since the last map change hands down a live cohort. */
  lemma {:induction false} PlacedParentIsSafe(w: World, parent: Pid, cpuLlc: LlcId, tgid: Tgid, rr: nat)
    requires w.nrLlcs >= 1 && Integrity(w.maps)
    requires parent in w.ctxs && parent !in w.spill && w.ctxs[parent].tgid in w.maps.tgidCohort
    ensures Integrity(Assigned(Placed(w, parent, cpuLlc), tgid, Some(parent), rr).0.maps)
  {
    ForkKeepsIntegrityWhen(Placed(w, parent, cpuLlc), tgid, Some(parent), rr);
  }

  // ----- Cohort ids -----

  /** Every cohort named in the maps or cached by a task has been handed out, and the BPF side has
      not reached the daemon's base. */
  ghost predicate IdsKnown(w: World) {
    && w.cohortSeq < DAEMON_COHORT_BASE
    && IdSpaces(w.maps, w.cohortSeq, w.daemonSeq)
    && (forall p :: p in w.ctxs ==> Allocated(w.cohortSeq, w.daemonSeq, w.ctxs[p].cohortId))
    && (forall p :: p in w.stats ==> Allocated(w.cohortSeq, w.daemonSeq, w.stats[p].cohortId))
  }

  /** A cohort id that occurs somewhere: in a map, or in some task's cache. */
  ghost predicate Named(w: World, c: CohortId) {
    || c in w.maps.policy || c in w.maps.counters || c in w.maps.tgidCohort.Values
    || (exists p :: p in w.ctxs && w.ctxs[p].cohortId == c)
    || (exists p :: p in w.stats && w.stats[p].cohortId == c)
  }

  lemma {:induction false} NamedIsAllocated(w: World, c: CohortId)
    requires IdsKnown(w) && Named(w, c)
    ensures Allocated(w.cohortSeq, w.daemonSeq, c)
  {
    hide Allocated;
  }

  /** A fork keeps the id spaces apart, and an id it hands out occurred nowhere, not even in a
      stale cache. */
  lemma {:induction false} ForkKeepsIdSpaces(w: World, pid: Pid, tgid: Tgid, parent: Option<Pid>, rr: nat)
    requires w.nrLlcs >= 1 && IdsKnown(w) && w.cohortSeq + 1 < DAEMON_COHORT_BASE
    ensures var v, id := Started(w, pid, tgid, parent, rr), Assigned(w, tgid, parent, rr).1;
      && IdsKnown(v) && w.cohortSeq <= v.cohortSeq && w.daemonSeq == v.daemonSeq
      && (tgid !in w.maps.tgidCohort && Inherited(w, parent) == COHORT_INVALID ==>
            !Named(w, id) && 1 <= id < DAEMON_COHORT_BASE && id in v.maps.policy && id in v.maps.counters)
      && (forall c :: (c in v.maps.policy || c in v.maps.counters) && c !in w.maps.policy && c !in w.maps.counters ==>
            c == id == v.cohortSeq == w.cohortSeq + 1 && !Named(w, c))
  {
    hide Named, Allocated, IdsKnown;
    ForkKeepsKnown(w, pid, tgid, parent, rr);
    NextIdUnnamed(w);
  }

  lemma {:induction false} ForkKeepsKnown(w: World, pid: Pid, tgid: Tgid, parent: Option<Pid>, rr: nat)
    requires w.nrLlcs >= 1 && IdsKnown(w) && w.cohortSeq + 1 < DAEMON_COHORT_BASE
    ensures IdsKnown(Started(w, pid, tgid, parent, rr))
  {
    hide Allocated, Assigned;
    AssignKeepsKnown(w, tgid, parent, rr);
  }

  lemma {:induction false} AssignKeepsKnown(w: World, tgid: Tgid, parent: Option<Pid>, rr: nat)
    requires w.nrLlcs >= 1 && IdsKnown(w) && w.cohortSeq + 1 < DAEMON_COHORT_BASE
    ensures var (v, id) := Assigned(w, tgid, parent, rr); IdsKnown(v) && Allocated(v.cohortSeq, v.daemonSeq, id)
  {
    hide Allocated;
    AllocatedNext(w.cohortSeq, w.daemonSeq);
  }

  lemma {:induction false} NextIdUnnamed(w: World)
    requires IdsKnown(w) && w.cohortSeq + 1 < DAEMON_COHORT_BASE
    ensures !Named(w, w.cohortSeq + 1)
    ensures forall p :: p in w.ctxs ==> w.ctxs[p].cohortId != COHORT_INVALID
  {
    hide Named;
    AllocatedNext(w.cohortSeq, w.daemonSeq);
    if Named(w, w.cohortSeq + 1) { NamedIsAllocated(w, w.cohortSeq + 1); }
  }

  lemma {:induction false} AllocatedNext(bpfSeq: nat, daemonSeq: nat)
    requires bpfSeq + 1 < DAEMON_COHORT_BASE
    ensures !Allocated(bpfSeq, daemonSeq, bpfSeq + 1) && Allocated(bpfSeq + 1, daemonSeq, bpfSeq + 1)
    ensures !Allocated(bpfSeq, daemonSeq, COHORT_INVALID)
    ensures forall c :: Allocated(bpfSeq, daemonSeq, c) ==> Allocated(bpfSeq + 1, daemonSeq, c)
  {
  }

  lemma {:induction false} PlacedKeepsIds(w: World, pid: Pid, cpuLlc: LlcId)
    requires IdsKnown(w)
    ensures IdsKnown(Placed(w, pid, cpuLlc)) && Placed(w, pid, cpuLlc).maps == w.maps
  {
    hide Allocated;
  }

  lemma {:induction false} StoppedKeepsIds(w: World, pid: Pid, delta: nat, weight: nat, cpuLlc: LlcId)
    requires IdsKnown(w) && Loaded(w)
    ensures var v := Stopped(w, pid, delta, weight, cpuLlc);
      IdsKnown(v) && v.maps.policy == w.maps.policy && v.maps.counters.Keys == w.maps.counters.Keys
  {
    hide Allocated, Scaled;
  }
}
