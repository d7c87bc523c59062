/** Two-stage garbage collection of tgid entries and cohorts: what one tick
    sweeps, and when, over any run of ticks with arbitrary changes in between. */
module GarbageCollection {
  import opened Domain

  /** What a tick starts from: the shared tgid and counters maps, and the daemon's own marks. */
  datatype State = State(tgidCohort: map<Tgid, CohortId>, cohorts: set<CohortId>, deadTgids: set<Tgid>,
      deadCohorts: set<CohortId>)

  // ----- One tick -----

  predicate TgidLive(tasks: seq<TaskSnapshot>, t: Tgid) {
    exists u :: u in tasks && u.tgid == t
  }

  function TaskCount(tasks: seq<TaskSnapshot>, c: CohortId): nat {
    if tasks == [] then 0
    else TaskCount(tasks[..|tasks| - 1], c) + (if tasks[|tasks| - 1].cohortId == c then 1 else 0)
  }

  lemma {:induction false} CountZero(tasks: seq<TaskSnapshot>, c: CohortId)
    ensures TaskCount(tasks, c) == 0 <==> forall u :: u in tasks ==> u.cohortId != c
  {
    if tasks != [] {
      var n := |tasks| - 1;
      CountZero(tasks[..n], c);
      assert tasks == tasks[..n] + [tasks[n]];
    }
  }

  /** No live task and no tgid on it. */
  predicate Unused(tc: map<Tgid, CohortId>, tasks: seq<TaskSnapshot>, c: CohortId) {
    TaskCount(tasks, c) == 0 && c !in tc.Values
  }

  /** Tgid entries with no live task, this tick. */
  function IdleTgids(tc: map<Tgid, CohortId>, tasks: seq<TaskSnapshot>): set<Tgid> {
    set t | t in tc && !TgidLive(tasks, t)
  }

  /** Unused cohorts, this tick; an empty task scan finds none. */
  function IdleCohorts(cohorts: set<CohortId>, tc: map<Tgid, CohortId>, tasks: seq<TaskSnapshot>): set<CohortId> {
    if tasks == [] then {} else set c | c in cohorts && Unused(tc, tasks, c)
  }

  /** Idle now and marked last tick: swept.  Idle now and not marked: marked. */
  function GcTick(g: State, tasks: seq<TaskSnapshot>): State {
    var idleT, idleC := IdleTgids(g.tgidCohort, tasks), IdleCohorts(g.cohorts, g.tgidCohort, tasks);
    State(g.tgidCohort - (idleT * g.deadTgids), g.cohorts - (idleC * g.deadCohorts),
          idleT - g.deadTgids, idleC - g.deadCohorts)
  }

  // ----- Runs -----

  /** The marks carry over from tick to tick; anything may happen to the shared maps in between. */
  ghost predicate IsRun(states: seq<State>, scans: seq<seq<TaskSnapshot>>) {
    && |states| == |scans| && states != []
    && states[0].deadTgids == {} && states[0].deadCohorts == {}
    && forall i, j :: 0 <= i && j == i + 1 < |states| ==>
         var next := GcTick(states[i], scans[i]);
         states[j].deadTgids == next.deadTgids && states[j].deadCohorts == next.deadCohorts
  }

  /** A tgid entry is swept only after two consecutive scans with no live task under it. */
  lemma {:induction false} TgidSweptAfterTwoScans(states: seq<State>, scans: seq<seq<TaskSnapshot>>, n: nat, t: Tgid)
    requires IsRun(states, scans) && n < |states|
    requires t in states[n].tgidCohort && t !in GcTick(states[n], scans[n]).tgidCohort
    ensures n >= 1
    ensures t in states[n - 1].tgidCohort
    ensures forall u :: u in scans[n - 1] || u in scans[n] ==> u.tgid != t
  {
    assert t in states[n].deadTgids;
    assert n >= 1 && states[n].deadTgids == GcTick(states[n - 1], scans[n - 1]).deadTgids;
  }

  /** A cohort is swept only after two consecutive ticks, each with a non-empty scan, in which it
      was unreferenced and empty. */
  lemma {:induction false} CohortSweptAfterTwoTicks(states: seq<State>, scans: seq<seq<TaskSnapshot>>, n: nat,
      c: CohortId)
    requires IsRun(states, scans) && n < |states|
    requires c in states[n].cohorts && c !in GcTick(states[n], scans[n]).cohorts
    ensures n >= 1 && c in states[n - 1].cohorts
    ensures forall k :: n - 1 <= k <= n ==>
      scans[k] != [] && c !in states[k].tgidCohort.Values && forall u :: u in scans[k] ==> u.cohortId != c
  {
    hide TaskCount;
    assert c in states[n].deadCohorts;
    assert n >= 1 && states[n].deadCohorts == GcTick(states[n - 1], scans[n - 1]).deadCohorts;
    CountZero(scans[n], c);
    CountZero(scans[n - 1], c);
  }

  /** A scan with tasks in it, none of them in `c` or under a tgid mapped to `c`. */
  ghost predicate Abandoned(g: State, tasks: seq<TaskSnapshot>, c: CohortId) {
    && tasks != []
    && (forall u :: u in tasks ==> u.cohortId != c)
    && (forall t, u :: t in g.tgidCohort && g.tgidCohort[t] == c && u in tasks ==> u.tgid != t)
  }

  /** Between ticks nobody maps a tgid to `c` and nobody creates `c`. */
  ghost predicate LeftAlone(after: State, next: State, c: CohortId) {
    && (forall t :: t in next.tgidCohort && next.tgidCohort[t] == c ==>
          t in after.tgidCohort && after.tgidCohort[t] == c)
    && (c in next.cohorts ==> c in after.cohorts)
  }

  /** Once abandoned, and left alone otherwise, a cohort is gone within four ticks. */
  lemma {:induction false} GoneWithinFourTicks(states: seq<State>, scans: seq<seq<TaskSnapshot>>, n: nat, c: CohortId)
    requires IsRun(states, scans) && n + 3 < |states|
    requires forall k :: n <= k <= n + 3 ==> Abandoned(states[k], scans[k], c)
    requires forall k, l :: n <= k < n + 3 && l == k + 1 ==> LeftAlone(GcTick(states[k], scans[k]), states[l], c)
    ensures c !in GcTick(states[n + 3], scans[n + 3]).cohorts
  {
    Unreferenced(states, scans, n, c);
    CohortLeaves(states, scans, n + 2, c);
  }

  /** Two ticks sweep every tgid entry of an abandoned cohort. */
  lemma {:induction false} Unreferenced(states: seq<State>, scans: seq<seq<TaskSnapshot>>, n: nat, c: CohortId)
    requires IsRun(states, scans) && n + 3 < |states|
    requires forall k :: n <= k <= n + 3 ==> Abandoned(states[k], scans[k], c)
    requires forall k, l :: n <= k < n + 3 && l == k + 1 ==> LeftAlone(GcTick(states[k], scans[k]), states[l], c)
    ensures c !in states[n + 2].tgidCohort.Values && c !in states[n + 3].tgidCohort.Values
  {
    hide IdleCohorts;
    var s0, s1 := states[n], states[n + 1];
    var a0, a1, a2 := GcTick(s0, scans[n]), GcTick(s1, scans[n + 1]), GcTick(states[n + 2], scans[n + 2]);
    assert Abandoned(s0, scans[n], c) && Abandoned(s1, scans[n + 1], c);
    assert LeftAlone(a0, s1, c) && LeftAlone(a1, states[n + 2], c) && LeftAlone(a2, states[n + 3], c);
    assert s1.deadTgids == a0.deadTgids;
    forall t | t in s1.tgidCohort && s1.tgidCohort[t] == c ensures t in s1.deadTgids {
      assert t in a0.tgidCohort && t in s0.tgidCohort;
    }
    assert forall t :: t in a1.tgidCohort ==> a1.tgidCohort[t] != c;
  }

  /** Two more sweep the cohort itself. */
  lemma {:induction false} CohortLeaves(states: seq<State>, scans: seq<seq<TaskSnapshot>>, n: nat, c: CohortId)
    requires IsRun(states, scans) && n + 1 < |states|
    requires c !in states[n].tgidCohort.Values && c !in states[n + 1].tgidCohort.Values
    requires Abandoned(states[n], scans[n], c) && Abandoned(states[n + 1], scans[n + 1], c)
    requires LeftAlone(GcTick(states[n], scans[n]), states[n + 1], c)
    ensures c !in GcTick(states[n + 1], scans[n + 1]).cohorts
  {
    hide TaskCount, IdleTgids;
    CountZero(scans[n], c);
    CountZero(scans[n + 1], c);
    assert states[n + 1].deadCohorts == GcTick(states[n], scans[n]).deadCohorts;
  }
}
