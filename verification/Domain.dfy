/** Value types shared by the planners and the daemon: identifiers, snapshots
    and configuration records.  Identifiers and counters are unbounded naturals;
    wake rates are reals. */
module Domain {

  type Tgid = nat
  type Pid = nat
  type CohortId = nat
  type LlcId = nat

  datatype Option<+T> = None | Some(value: T)

  /** An undirected wake edge, stored with its tgids in sorted order. */
  type Edge = (Tgid, Tgid)

  /** A member of a cohort with its task count. */
  type Member = (Tgid, nat)

  datatype EdgeState = EdgeState(rate: real, inst: real, overTicks: nat)

  datatype WakeGraphCfg = WakeGraphCfg(
    mergeWakesPerSec: real,
    mergeConfirmTicks: nat,
    splitMinWakesPerSec: real,
    splitConfirmTicks: nat,
    splitMinTasks: nat,
    rateTau: real)

  datatype MergePlan = MergePlan(into: CohortId, from: CohortId)

  datatype SplitPlan = SplitPlan(cohort: CohortId, offTgids: seq<Tgid>)

  datatype LlcLoad = LlcLoad(llc: LlcId, load: nat, capacity: nat)

  datatype CohortSnapshot = CohortSnapshot(
    id: CohortId,
    homeLlc: LlcId,
    pinned: bool,
    nrTasks: nat,
    load: nat,
    residency: Option<nat>)

  datatype TaskSnapshot = TaskSnapshot(
    pid: Pid,
    tgid: Tgid,
    cohortId: CohortId,
    duty: nat,
    home: nat)

  /** Rewrite the home LLC of a whole cohort. */
  datatype Decision = MoveCohort(id: CohortId, to: LlcId)
}
