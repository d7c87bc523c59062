/** The daemon's effect on the maps it shares with the BPF side, as functions of
    map values: collection, placement, and merges and splits applied from a stale
    snapshot; and the two id spaces cohorts are named from. */
module DaemonMaps {
  import opened Domain
  import opened MergePlanning

  /** Daemon cohort ids start here; BPF ids count up from 1 and stay below. */
  const DAEMON_COHORT_BASE: nat := 0x1_0000_0000

  datatype Policy = Policy(homeLlc: LlcId, pinned: bool)

  /** tgid -> cohort, cohort -> placement policy, cohort -> monotonic load sum. */
  datatype Maps = Maps(tgidCohort: map<Tgid, CohortId>, policy: map<CohortId, Policy>, counters: map<CohortId, nat>)

  /** Every cohort a tgid maps to has both a policy and a counters entry. */
  ghost predicate Integrity(m: Maps) {
    forall t :: t in m.tgidCohort ==> m.tgidCohort[t] in m.policy && m.tgidCohort[t] in m.counters
  }

  /** Every cohort id in use lies below the next daemon id. */
  ghost predicate IdsBelow(m: Maps, seqNo: nat) {
    && (forall c :: c in m.policy ==> c < DAEMON_COHORT_BASE + seqNo)
    && (forall c :: c in m.counters ==> c < DAEMON_COHORT_BASE + seqNo)
  }

  // ----- Collection and placement -----

  /** A decision rewrites the home of the cohort it names, if that still has a policy. */
  function Rehomed(policy: map<CohortId, Policy>, d: Option<Decision>): map<CohortId, Policy> {
    if d.Some? && d.value.id in policy then policy[d.value.id := policy[d.value.id].(homeLlc := d.value.to)] else policy
  }

  /** The maps after garbage collection and the balancer's decision. */
  function Collected(m: Maps, deadTgids: set<Tgid>, deadCohorts: set<CohortId>, d: Option<Decision>): Maps {
    Maps(m.tgidCohort - deadTgids, Rehomed(m.policy - deadCohorts, d), m.counters - deadCohorts)
  }

  /** Collecting only unreferenced cohorts leaves every snapshotted cohort in place. */
  lemma {:induction false} CollectedFresh(m: Maps, deadTgids: set<Tgid>, deadCohorts: set<CohortId>,
      d: Option<Decision>, seqNo: nat)
    requires Integrity(m) && IdsBelow(m, seqNo) && deadCohorts !! m.tgidCohort.Values
    ensures FreshFrom(Collected(m, deadTgids, deadCohorts, d), m.tgidCohort)
    ensures IdsBelow(Collected(m, deadTgids, deadCohorts, d), seqNo)
  {
    forall t | t in m.tgidCohort ensures m.tgidCohort[t] !in deadCohorts {
      assert m.tgidCohort[t] in m.tgidCohort.Values;
    }
  }

  // ----- Merges -----

  /** One merge, applied to the live maps from the snapshot `tc`: an entry the snapshot has on
      `from` is rewritten if it still exists, then `from` is deleted. */
  function Merged(m: Maps, tc: map<Tgid, CohortId>, p: MergePlan): Maps {
    if p.into !in m.counters || p.from !in m.counters then m
    else Maps(
      map t | t in m.tgidCohort :: if t in tc && tc[t] == p.from then p.into else m.tgidCohort[t],
      m.policy - {p.from},
      m.counters - {p.from})
  }

  function MergedAll(m: Maps, tc: map<Tgid, CohortId>, plans: seq<MergePlan>): Maps {
    if plans == [] then m
    else Merged(MergedAll(m, tc, plans[..|plans| - 1]), tc, plans[|plans| - 1])
  }

  /** Where a whole set of plans sends a cohort. */
  function Redirect(plans: seq<MergePlan>, c: CohortId): CohortId {
    if plans == [] then c
    else if plans[|plans| - 1].from == c then plans[|plans| - 1].into
    else Redirect(plans[..|plans| - 1], c)
  }

  function Absorbed(plans: seq<MergePlan>): set<CohortId> {
    set p | p in plans :: p.from
  }

  /** The live maps are what GC left of the snapshot, and every snapshotted cohort is still there. */
  ghost predicate FreshFrom(m: Maps, tc: map<Tgid, CohortId>) {
    && (forall t :: t in m.tgidCohort ==> t in tc && m.tgidCohort[t] == tc[t])
    && (forall t :: t in tc ==> tc[t] in m.policy && tc[t] in m.counters)
  }

  ghost predicate PlansOver(plans: seq<MergePlan>, tc: map<Tgid, CohortId>) {
    forall p :: p in plans ==> p.into in tc.Values && p.from in tc.Values
  }

  lemma {:induction false} PrefixMatching(plans: seq<MergePlan>, n: nat)
    requires IsMatching(plans) && n <= |plans|
    ensures IsMatching(plans[..n])
  {
  }

  /** A cohort that no plan absorbs stays; an absorbed one goes where its one plan says. */
  lemma {:induction false} RedirectMeaning(plans: seq<MergePlan>, c: CohortId)
    requires IsMatching(plans)
    ensures c !in Absorbed(plans) ==> Redirect(plans, c) == c
    ensures c in Absorbed(plans) ==> MergePlan(Redirect(plans, c), c) in plans
    ensures Redirect(plans, c) !in Absorbed(plans)
  {
    hide IsMatching;
    if plans != [] {
      var n := |plans| - 1;
      PrefixMatching(plans, n);
      RedirectMeaning(plans[..n], c);
      assert plans == plans[..n] + [plans[n]];
      LastIsDisjoint(plans, c);
    }
  }

  lemma {:induction false} LastIsDisjoint(plans: seq<MergePlan>, c: CohortId)
    requires IsMatching(plans) && plans != []
    ensures var p, before := plans[|plans| - 1], plans[..|plans| - 1];
      && p.into != p.from
      && p.into !in Absorbed(before) && p.from !in Absorbed(before)
      && (MergePlan(Redirect(before, c), c) in before ==> c != p.from && c != p.into && Redirect(before, c) != p.from)
  {
    var n := |plans| - 1;
    var p, before := plans[n], plans[..n];
    forall q | q in before ensures Cohorts(q) !! Cohorts(p) {
      var i :| 0 <= i < n && plans[i] == q;
    }
  }

  /** The guard in `apply_merge` never skips a plan of this tick, so the plans act as one redirection. */
  lemma {:induction false} MergesRedirect(m: Maps, tc: map<Tgid, CohortId>, plans: seq<MergePlan>)
    requires FreshFrom(m, tc) && IsMatching(plans) && PlansOver(plans, tc)
    ensures var m' := MergedAll(m, tc, plans);
      && m'.tgidCohort == (map t | t in m.tgidCohort :: Redirect(plans, tc[t]))
      && m'.policy == m.policy - Absorbed(plans)
      && m'.counters == m.counters - Absorbed(plans)
  {
    if plans == [] {
      assert m.policy - Absorbed([]) == m.policy;
      assert m.counters - Absorbed([]) == m.counters;
    } else {
      hide IsMatching;
      var n := |plans| - 1;
      var before, p := plans[..n], plans[n];
      PrefixMatching(plans, n);
      assert PlansOver(before, tc);
      MergesRedirect(m, tc, before);
      LastIsDisjoint(plans, p.from);
      assert plans == before + [p];
      assert Absorbed(plans) == Absorbed(before) + {p.from};
      assert p in plans;
      MergeStep(m, tc, MergedAll(m, tc, before), before, p);
    }
  }

  lemma {:induction false} MergeStep(m: Maps, tc: map<Tgid, CohortId>, mid: Maps, before: seq<MergePlan>, p: MergePlan)
    requires FreshFrom(m, tc) && p.into in tc.Values && p.from in tc.Values
    requires p.into !in Absorbed(before) && p.from !in Absorbed(before)
    requires mid.tgidCohort == map t | t in m.tgidCohort :: Redirect(before, tc[t])
    requires mid.policy == m.policy - Absorbed(before) && mid.counters == m.counters - Absorbed(before)
    ensures var m' := Merged(mid, tc, p);
      && m'.tgidCohort == (map t | t in m.tgidCohort :: Redirect(before + [p], tc[t]))
      && m'.policy == m.policy - (Absorbed(before) + {p.from})
      && m'.counters == m.counters - (Absorbed(before) + {p.from})
  {
    assert p.into in mid.counters && p.from in mid.counters by {
      var t :| t in tc && tc[t] == p.into;
      var u :| u in tc && tc[u] == p.from;
    }
    forall c ensures Redirect(before + [p], c) == if c == p.from then p.into else Redirect(before, c) {
      assert (before + [p])[..|before|] == before;
    }
  }

  /** Merge application does not depend on the order of the plans, and no tgid is left on an
      absorbed cohort. */
  lemma {:induction false} MergesAnyOrder(m: Maps, tc: map<Tgid, CohortId>, plans: seq<MergePlan>,
      plans': seq<MergePlan>)
    requires FreshFrom(m, tc) && IsMatching(plans) && IsMatching(plans') && PlansOver(plans, tc)
    requires multiset(plans) == multiset(plans')
    ensures MergedAll(m, tc, plans) == MergedAll(m, tc, plans')
    ensures forall t :: t in MergedAll(m, tc, plans).tgidCohort ==>
      MergedAll(m, tc, plans).tgidCohort[t] !in Absorbed(plans)
  {
    hide IsMatching, MergedAll;
    assert forall p :: p in plans <==> p in multiset(plans);
    assert forall p :: p in plans' <==> p in multiset(plans');
    MergesRedirect(m, tc, plans);
    MergesRedirect(m, tc, plans');
    assert Absorbed(plans) == Absorbed(plans');
    forall c ensures Redirect(plans, c) == Redirect(plans', c) && Redirect(plans, c) !in Absorbed(plans) {
      RedirectMeaning(plans, c);
      RedirectMeaning(plans', c);
      if c in Absorbed(plans) {
        OneTarget(plans, MergePlan(Redirect(plans, c), c), MergePlan(Redirect(plans', c), c));
      }
    }
  }

  lemma {:induction false} OneTarget(plans: seq<MergePlan>, p: MergePlan, q: MergePlan)
    requires IsMatching(plans) && p in plans && q in plans && p.from == q.from
    ensures p == q
  {
    var i :| 0 <= i < |plans| && plans[i] == p;
    var j :| 0 <= j < |plans| && plans[j] == q;
    assert p.from in Cohorts(plans[i]) && p.from in Cohorts(plans[j]);
  }

  /** Merges keep integrity and the id bound, and lose no tgid. */
  lemma {:induction false} MergesKeepIntegrity(m: Maps, tc: map<Tgid, CohortId>, plans: seq<MergePlan>, seqNo: nat)
    requires FreshFrom(m, tc) && IsMatching(plans) && PlansOver(plans, tc) && IdsBelow(m, seqNo)
    ensures var m' := MergedAll(m, tc, plans);
      Integrity(m') && IdsBelow(m', seqNo) && m'.tgidCohort.Keys == m.tgidCohort.Keys
  {
    hide IsMatching, MergedAll;
    MergesRedirect(m, tc, plans);
    var m' := MergedAll(m, tc, plans);
    forall t | t in m'.tgidCohort ensures m'.tgidCohort[t] in m'.policy && m'.tgidCohort[t] in m'.counters {
      var c := Redirect(plans, tc[t]);
      RedirectMeaning(plans, tc[t]);
      if tc[t] in Absorbed(plans) {
        assert MergePlan(c, tc[t]) in plans;
        var u :| u in tc && tc[u] == c;
      }
    }
  }

  // ----- Splits -----

  /** One split, applied to the live maps: skipped when the cohort's policy is gone. */
  function SplitApplied(m: Maps, seqNo: nat, p: SplitPlan): Maps {
    if p.cohort !in m.policy then m
    else
      var id := DAEMON_COHORT_BASE + seqNo;
      Maps(map t | t in m.tgidCohort :: if t in p.offTgids then id else m.tgidCohort[t],
           m.policy[id := Policy(m.policy[p.cohort].homeLlc, false)],
           m.counters[id := 0])
  }

  function SeqAfter(m: Maps, seqNo: nat, p: SplitPlan): nat {
    if p.cohort !in m.policy then seqNo else seqNo + 1
  }

  /** A split takes a fresh id at or above the daemon base and keeps every cohort it found. */
  lemma {:induction false} SplitKeepsIntegrity(m: Maps, seqNo: nat, p: SplitPlan)
    requires Integrity(m) && IdsBelow(m, seqNo)
    ensures var m', id := SplitApplied(m, seqNo, p), DAEMON_COHORT_BASE + seqNo;
      && id !in m.policy && id !in m.counters && id !in m.tgidCohort.Values
      && Integrity(m') && IdsBelow(m', SeqAfter(m, seqNo, p))
      && m'.tgidCohort.Keys == m.tgidCohort.Keys
      && (forall c :: c in m.policy ==> c in m'.policy && m'.policy[c] == m.policy[c])
      && (forall c :: c in m.counters ==> c in m'.counters && m'.counters[c] == m.counters[c])
  {
  }

  /** The maps and the id counter after the first `n` splits. */
  function SplitAll(m: Maps, seqNo: nat, plans: seq<SplitPlan>, n: nat): (Maps, nat)
    requires n <= |plans|
  {
    if n == 0 then (m, seqNo)
    else
      var (mid, s) := SplitAll(m, seqNo, plans, n - 1);
      (SplitApplied(mid, s, plans[n - 1]), SeqAfter(mid, s, plans[n - 1]))
  }

  lemma {:induction false} SplitsKeepIntegrity(m: Maps, seqNo: nat, plans: seq<SplitPlan>, n: nat)
    requires Integrity(m) && IdsBelow(m, seqNo) && n <= |plans|
    ensures var (m', s) := SplitAll(m, seqNo, plans, n);
      && seqNo <= s && Integrity(m') && IdsBelow(m', s) && m'.tgidCohort.Keys == m.tgidCohort.Keys
      && (forall c :: c in m.policy ==> c in m'.policy)
      && (forall c :: c in m'.policy && c !in m.policy ==> DAEMON_COHORT_BASE + seqNo <= c < DAEMON_COHORT_BASE + s)
  {
    hide Integrity, IdsBelow;
    if n > 0 {
      SplitsKeepIntegrity(m, seqNo, plans, n - 1);
      var (mid, s) := SplitAll(m, seqNo, plans, n - 1);
      SplitKeepsIntegrity(mid, s, plans[n - 1]);
    }
  }

  /** Split plans for this tick: each names somebody in its own cohort's snapshot, and no two overlap. */
  ghost predicate SplitsOver(plans: seq<SplitPlan>, tc: map<Tgid, CohortId>) {
    && (forall i :: 0 <= i < |plans| ==> plans[i].offTgids != [])
    && (forall i, t :: 0 <= i < |plans| && t in plans[i].offTgids ==> t in tc && tc[t] == plans[i].cohort)
    && (forall i, j, t :: 0 <= i < j < |plans| && t in plans[i].offTgids ==> t !in plans[j].offTgids)
  }

  /** Until its own plan comes up, a planned tgid of a surviving cohort has not moved; and a
      policy that is missing was missing from the start. */
  lemma {:induction false} SplitsMoveOwnMembers(m: Maps, seqNo: nat, plans: seq<SplitPlan>, tc: map<Tgid, CohortId>,
      n: nat, j: nat, t: Tgid)
    requires IdsBelow(m, seqNo) && SplitsOver(plans, tc) && n <= j < |plans|
    requires forall c :: c in tc.Values ==> c < DAEMON_COHORT_BASE + seqNo
    requires t in m.tgidCohort && t in plans[j].offTgids
    ensures var (mid, s) := SplitAll(m, seqNo, plans, n);
      && seqNo <= s
      && t in mid.tgidCohort && mid.tgidCohort[t] == m.tgidCohort[t]
      && (plans[j].cohort in mid.policy <==> plans[j].cohort in m.policy)
  {
    if n > 0 {
      SplitsMoveOwnMembers(m, seqNo, plans, tc, n - 1, j, t);
      assert t !in plans[n - 1].offTgids;
      assert t in tc.Keys && tc[t] in tc.Values;
    }
  }

  /** Split application: after this tick's merges, a split whose cohort was absorbed is skipped,
      and every other split moves only tgids that are on its cohort at that moment. */
  lemma {:induction false} SplitsAfterMerges(m: Maps, tc: map<Tgid, CohortId>, merges: seq<MergePlan>, seqNo: nat,
      plans: seq<SplitPlan>, j: nat, t: Tgid)
    requires FreshFrom(m, tc) && IsMatching(merges) && PlansOver(merges, tc) && IdsBelow(m, seqNo)
    requires SplitsOver(plans, tc) && j < |plans|
    requires t in m.tgidCohort && t in plans[j].offTgids
    ensures var (mid, s) := SplitAll(MergedAll(m, tc, merges), seqNo, plans, j);
      && (plans[j].cohort in mid.policy <==> plans[j].cohort !in Absorbed(merges))
      && t in mid.tgidCohort
      && (plans[j].cohort in mid.policy ==> mid.tgidCohort[t] == plans[j].cohort)
  {
    hide IsMatching, MergedAll;
    MergesRedirect(m, tc, merges);
    MergesKeepIntegrity(m, tc, merges, seqNo);
    forall c | c in tc.Values ensures c < DAEMON_COHORT_BASE + seqNo {
      var u :| u in tc && tc[u] == c;
    }
    var m' := MergedAll(m, tc, merges);
    SplitsMoveOwnMembers(m', seqNo, plans, tc, j, j, t);
    RedirectMeaning(merges, tc[t]);
    assert tc[t] in m.policy;
  }

  // ----- Where a tick's merges and splits put everyone -----

  /** The id the i-th split takes if it is applied. */
  function SplitId(m: Maps, seqNo: nat, plans: seq<SplitPlan>, i: nat): CohortId
    requires i < |plans|
  {
    DAEMON_COHORT_BASE + SplitAll(m, seqNo, plans, i).1
  }

  /** The maps `mid` after the first `n` splits of `m`. */
  ghost predicate SplitsDone(m: Maps, seqNo: nat, plans: seq<SplitPlan>, n: nat, mid: Maps, s: nat)
    requires n <= |plans|
  {
    CohortsDone(m, seqNo, plans, n, mid, s) && TgidsDone(m, seqNo, plans, n, mid)
  }

  /** Each applied split has its own new cohort, at the home of the one it left; no other cohort changed. */
  ghost predicate CohortsDone(m: Maps, seqNo: nat, plans: seq<SplitPlan>, n: nat, mid: Maps, s: nat)
    requires n <= |plans|
  {
    && seqNo <= s
    && (forall c :: c in m.policy ==> c in mid.policy && mid.policy[c] == m.policy[c])
    && (forall c :: c in mid.policy && c !in m.policy ==> DAEMON_COHORT_BASE + seqNo <= c < DAEMON_COHORT_BASE + s)
    && (forall i :: 0 <= i < n && plans[i].cohort in m.policy ==> HasCohort(m, seqNo, plans, i, mid, s))
    && (forall i, j :: 0 <= i < j < n && plans[i].cohort in m.policy && plans[j].cohort in m.policy ==>
          SplitId(m, seqNo, plans, i) < SplitId(m, seqNo, plans, j))
  }

  /** The new cohorts hold exactly the tgids of their splits, and nobody else has moved. */
  ghost predicate TgidsDone(m: Maps, seqNo: nat, plans: seq<SplitPlan>, n: nat, mid: Maps)
    requires n <= |plans|
  {
    && mid.tgidCohort.Keys == m.tgidCohort.Keys
    && (forall i, t :: 0 <= i < n && plans[i].cohort in m.policy && t in m.tgidCohort && t in plans[i].offTgids ==>
          mid.tgidCohort[t] == SplitId(m, seqNo, plans, i))
    && (forall t :: t in m.tgidCohort && Unsplit(m, plans, n, t) ==> mid.tgidCohort[t] == m.tgidCohort[t])
  }

  ghost predicate HasCohort(m: Maps, seqNo: nat, plans: seq<SplitPlan>, i: nat, mid: Maps, s: nat)
    requires i < |plans| && plans[i].cohort in m.policy
  {
    var id := SplitId(m, seqNo, plans, i);
    && id < DAEMON_COHORT_BASE + s && id in mid.policy && id in mid.counters && mid.counters[id] == 0
    && mid.policy[id] == Policy(m.policy[plans[i].cohort].homeLlc, false)
  }

  /** No applied split among the first `n` names the tgid. */
  ghost predicate Unsplit(m: Maps, plans: seq<SplitPlan>, n: nat, t: Tgid)
    requires n <= |plans|
  {
    forall i :: 0 <= i < n && t in plans[i].offTgids ==> plans[i].cohort !in m.policy
  }

  lemma {:induction false} SplitsGetDone(m: Maps, seqNo: nat, plans: seq<SplitPlan>, tc: map<Tgid, CohortId>, n: nat)
    requires IdsBelow(m, seqNo) && SplitsOver(plans, tc) && n <= |plans|
    requires forall i :: 0 <= i < |plans| ==> plans[i].cohort < DAEMON_COHORT_BASE + seqNo
    ensures var (mid, s) := SplitAll(m, seqNo, plans, n); SplitsDone(m, seqNo, plans, n, mid, s)
  {
    hide SplitsOver, IdsBelow, SplitApplied, SplitsDone;
    if n == 0 {
      NothingDone(m, seqNo, plans);
    } else {
      SplitsGetDone(m, seqNo, plans, tc, n - 1);
      var (mid, s) := SplitAll(m, seqNo, plans, n - 1);
      OneMoreDone(m, seqNo, plans, tc, n, mid, s);
    }
  }

  lemma {:induction false} NothingDone(m: Maps, seqNo: nat, plans: seq<SplitPlan>)
    ensures SplitsDone(m, seqNo, plans, 0, m, seqNo)
  {
  }

  lemma {:induction false} OneMoreDone(m: Maps, seqNo: nat, plans: seq<SplitPlan>, tc: map<Tgid, CohortId>, n: nat,
      mid: Maps, s: nat)
    requires IdsBelow(m, seqNo) && SplitsOver(plans, tc) && 0 < n <= |plans|
    requires plans[n - 1].cohort < DAEMON_COHORT_BASE + seqNo
    requires (mid, s) == SplitAll(m, seqNo, plans, n - 1) && SplitsDone(m, seqNo, plans, n - 1, mid, s)
    ensures SplitsDone(m, seqNo, plans, n, SplitApplied(mid, s, plans[n - 1]), SeqAfter(mid, s, plans[n - 1]))
  {
    hide SplitAll, SplitsDone, SplitsOver;
    var p := plans[n - 1];
    PolicyKept(m, seqNo, plans, n - 1, mid, s, p.cohort);
    if p.cohort in m.policy {
      ApplyDone(m, seqNo, plans, tc, n, mid, s);
    } else {
      SkipDone(m, seqNo, plans, n, mid, s);
    }
  }

  lemma {:induction false} PolicyKept(m: Maps, seqNo: nat, plans: seq<SplitPlan>, n: nat, mid: Maps, s: nat,
      c: CohortId)
    requires n <= |plans| && SplitsDone(m, seqNo, plans, n, mid, s) && c < DAEMON_COHORT_BASE + seqNo
    ensures c in mid.policy <==> c in m.policy
    ensures c in m.policy ==> mid.policy[c] == m.policy[c]
  {
  }

  lemma {:induction false} SkipDone(m: Maps, seqNo: nat, plans: seq<SplitPlan>, n: nat, mid: Maps, s: nat)
    requires 0 < n <= |plans| && plans[n - 1].cohort !in m.policy && SplitsDone(m, seqNo, plans, n - 1, mid, s)
    ensures SplitsDone(m, seqNo, plans, n, mid, s)
  {
    hide SplitAll, HasCohort, SplitId;
    forall t | t in m.tgidCohort && Unsplit(m, plans, n, t) ensures Unsplit(m, plans, n - 1, t) {}
  }

  lemma {:induction false} ApplyDone(m: Maps, seqNo: nat, plans: seq<SplitPlan>, tc: map<Tgid, CohortId>, n: nat,
      mid: Maps, s: nat)
    requires SplitsOver(plans, tc) && 0 < n <= |plans| && plans[n - 1].cohort in m.policy && IdsBelow(m, seqNo)
    requires plans[n - 1].cohort in mid.policy
    requires mid.policy[plans[n - 1].cohort] == m.policy[plans[n - 1].cohort]
    requires SplitId(m, seqNo, plans, n - 1) == DAEMON_COHORT_BASE + s && SplitsDone(m, seqNo, plans, n - 1, mid, s)
    ensures SplitsDone(m, seqNo, plans, n, SplitApplied(mid, s, plans[n - 1]), SeqAfter(mid, s, plans[n - 1]))
  {
    hide SplitAll, SplitId, CohortsDone, TgidsDone, SplitApplied, SplitsOver;
    ApplyCohorts(m, seqNo, plans, n, mid, s);
    ApplyTgids(m, seqNo, plans, tc, n, mid, s);
  }

  lemma {:induction false} ApplyCohorts(m: Maps, seqNo: nat, plans: seq<SplitPlan>, n: nat, mid: Maps, s: nat)
    requires 0 < n <= |plans| && plans[n - 1].cohort in m.policy && IdsBelow(m, seqNo)
    requires plans[n - 1].cohort in mid.policy
    requires mid.policy[plans[n - 1].cohort] == m.policy[plans[n - 1].cohort]
    requires SplitId(m, seqNo, plans, n - 1) == DAEMON_COHORT_BASE + s && CohortsDone(m, seqNo, plans, n - 1, mid, s)
    ensures CohortsDone(m, seqNo, plans, n, SplitApplied(mid, s, plans[n - 1]), s + 1)
  {
    hide SplitAll, SplitId;
    var next := SplitApplied(mid, s, plans[n - 1]);
    forall i | 0 <= i < n && plans[i].cohort in m.policy
      ensures HasCohort(m, seqNo, plans, i, next, s + 1)
      ensures i < n - 1 ==> SplitId(m, seqNo, plans, i) < DAEMON_COHORT_BASE + s
    {
      if i < n - 1 { assert HasCohort(m, seqNo, plans, i, mid, s); }
    }
    hide HasCohort;
  }

  lemma {:induction false} ApplyTgids(m: Maps, seqNo: nat, plans: seq<SplitPlan>, tc: map<Tgid, CohortId>, n: nat,
      mid: Maps, s: nat)
    requires SplitsOver(plans, tc) && 0 < n <= |plans|
    requires plans[n - 1].cohort in m.policy && plans[n - 1].cohort in mid.policy
    requires SplitId(m, seqNo, plans, n - 1) == DAEMON_COHORT_BASE + s && TgidsDone(m, seqNo, plans, n - 1, mid)
    ensures TgidsDone(m, seqNo, plans, n, SplitApplied(mid, s, plans[n - 1]))
  {
    hide SplitAll, SplitId, Unsplit, SplitsOver;
    var p, next := plans[n - 1], SplitApplied(mid, s, plans[n - 1]);
    assert forall t :: t in mid.tgidCohort ==>
      next.tgidCohort[t] == if t in p.offTgids then DAEMON_COHORT_BASE + s else mid.tgidCohort[t];
    hide SplitApplied;
    forall t | t in m.tgidCohort && Unsplit(m, plans, n, t) ensures next.tgidCohort[t] == m.tgidCohort[t] {
      UnsplitBefore(m, plans, n, t);
    }
    forall i, t | 0 <= i < n && plans[i].cohort in m.policy && t in m.tgidCohort && t in plans[i].offTgids
      ensures next.tgidCohort[t] == SplitId(m, seqNo, plans, i)
    {
      if i < n - 1 { NotInBoth(plans, tc, i, n - 1, t); }
    }
  }

  lemma {:induction false} UnsplitBefore(m: Maps, plans: seq<SplitPlan>, n: nat, t: Tgid)
    requires 0 < n <= |plans| && Unsplit(m, plans, n, t) && plans[n - 1].cohort in m.policy
    ensures Unsplit(m, plans, n - 1, t) && t !in plans[n - 1].offTgids
  {
  }

  lemma {:induction false} NotInBoth(plans: seq<SplitPlan>, tc: map<Tgid, CohortId>, i: nat, j: nat, t: Tgid)
    requires SplitsOver(plans, tc) && i < j < |plans| && t in plans[i].offTgids
    ensures t !in plans[j].offTgids
  {
  }

  /** Where a tick leaves everyone, from its snapshot `tc` and the maps `before`: the tgids of a split whose
      cohort was not absorbed are together on its own new cohort, at the home of the one they left; every
      other tgid follows its cohort's merge, or stays. */
  ghost predicate Landed(tc: map<Tgid, CohortId>, before: Maps, merges: seq<MergePlan>, splits: seq<SplitPlan>,
      after: Maps, ids: seq<CohortId>)
  {
    && |ids| == |splits|
    && NewCohorts(before, merges, splits, after, ids)
    && Settled(tc, merges, splits, after, ids)
  }

  /** Each carried-out split has an id of its own, in use nowhere before, and a cohort at the home it left. */
  ghost predicate NewCohorts(before: Maps, merges: seq<MergePlan>, splits: seq<SplitPlan>, after: Maps,
      ids: seq<CohortId>)
    requires |ids| == |splits|
  {
    && (forall i, j :: 0 <= i < j < |splits| && Splits(merges, splits[i]) && Splits(merges, splits[j]) ==>
          ids[i] != ids[j])
    && (forall i :: 0 <= i < |splits| && Splits(merges, splits[i]) ==>
          && ids[i] !in before.policy && ids[i] !in before.counters
          && ids[i] in after.policy && ids[i] in after.counters && after.counters[ids[i]] == 0
          && splits[i].cohort in after.policy && !after.policy[ids[i]].pinned
          && after.policy[ids[i]].homeLlc == after.policy[splits[i].cohort].homeLlc)
  }

  /** Each carried-out split has its tgids; every other tgid follows its cohort's merge, or stays. */
  ghost predicate Settled(tc: map<Tgid, CohortId>, merges: seq<MergePlan>, splits: seq<SplitPlan>, after: Maps,
      ids: seq<CohortId>)
    requires |ids| == |splits|
  {
    && (forall i, t ::
          0 <= i < |splits| && Splits(merges, splits[i]) && t in splits[i].offTgids && t in after.tgidCohort ==>
            after.tgidCohort[t] == ids[i])
    && (forall t :: t in after.tgidCohort && (forall p :: p in splits && t in p.offTgids ==> !Splits(merges, p)) ==>
          && t in tc
          && (tc[t] !in Absorbed(merges) ==> after.tgidCohort[t] == tc[t])
          && (tc[t] in Absorbed(merges) ==> MergePlan(after.tgidCohort[t], tc[t]) in merges))
  }

  /** A split that is carried out: it names somebody, and its cohort was not absorbed. */
  predicate Splits(merges: seq<MergePlan>, p: SplitPlan) {
    p.offTgids != [] && forall q :: q in merges ==> q.from != p.cohort
  }

  /** Merges and splits of one tick put everyone where they belong. */
  lemma {:induction false} SplitsLand(m: Maps, tc: map<Tgid, CohortId>, merges: seq<MergePlan>, seqNo: nat,
      splits: seq<SplitPlan>) returns (ids: seq<CohortId>)
    requires FreshFrom(m, tc) && IsMatching(merges) && PlansOver(merges, tc) && IdsBelow(m, seqNo)
    requires SplitsOver(splits, tc)
    ensures Landed(tc, m, merges, splits, SplitAll(MergedAll(m, tc, merges), seqNo, splits, |splits|).0, ids)
    ensures forall i :: 0 <= i < |splits| && Splits(merges, splits[i]) ==> DAEMON_COHORT_BASE + seqNo <= ids[i]
  {
    hide IsMatching, MergedAll, SplitAll, Redirect, SplitsOver, SplitId;
    hide CohortsDone, TgidsDone, Splits, NewCohorts, Settled;
    var m' := MergedAll(m, tc, merges);
    MergesRedirect(m, tc, merges);
    MergesKeepIntegrity(m, tc, merges, seqNo);
    forall i | 0 <= i < |splits|
      ensures splits[i].cohort < DAEMON_COHORT_BASE + seqNo
      ensures Splits(merges, splits[i]) <==> splits[i].cohort in m'.policy
    {
      PlannedCohort(m, tc, merges, seqNo, splits, i);
    }
    SplitsGetDone(m', seqNo, splits, tc, |splits|);
    var (after, s) := SplitAll(m', seqNo, splits, |splits|);
    ids := seq(|splits|, i requires 0 <= i < |splits| => SplitId(m', seqNo, splits, i));
    forall i | 0 <= i < |splits| ensures DAEMON_COHORT_BASE + seqNo <= ids[i] {
      SplitIdAbove(m', seqNo, splits, tc, i);
    }
    LandNewCohorts(m, m', merges, seqNo, splits, after, s, ids);
    LandTgids(m, m', tc, merges, seqNo, splits, after, ids);
  }

  lemma {:induction false} LandNewCohorts(m: Maps, m': Maps, merges: seq<MergePlan>, seqNo: nat, splits: seq<SplitPlan>,
      after: Maps, s: nat, ids: seq<CohortId>)
    requires IdsBelow(m, seqNo) && CohortsDone(m', seqNo, splits, |splits|, after, s) && |ids| == |splits|
    requires forall i :: 0 <= i < |splits| ==>
      ids[i] == SplitId(m', seqNo, splits, i) && DAEMON_COHORT_BASE + seqNo <= ids[i]
    requires forall i :: 0 <= i < |splits| ==> (Splits(merges, splits[i]) <==> splits[i].cohort in m'.policy)
    ensures NewCohorts(m, merges, splits, after, ids)
  {
    hide SplitId, Splits;
  }

  lemma {:induction false} LandTgids(m: Maps, m': Maps, tc: map<Tgid, CohortId>, merges: seq<MergePlan>, seqNo: nat,
      splits: seq<SplitPlan>, after: Maps, ids: seq<CohortId>)
    requires IsMatching(merges) && TgidsDone(m', seqNo, splits, |splits|, after) && |ids| == |splits|
    requires forall i :: 0 <= i < |splits| ==> ids[i] == SplitId(m', seqNo, splits, i)
    requires forall i :: 0 <= i < |splits| ==> (Splits(merges, splits[i]) <==> splits[i].cohort in m'.policy)
    requires FreshFrom(m, tc) && m'.tgidCohort == map t | t in m.tgidCohort :: Redirect(merges, tc[t])
    ensures Settled(tc, merges, splits, after, ids)
  {
    hide SplitId, Splits, IsMatching, Redirect;
    forall t | t in after.tgidCohort && (forall p :: p in splits && t in p.offTgids ==> !Splits(merges, p))
      ensures after.tgidCohort[t] == Redirect(merges, tc[t])
    {
      forall i | 0 <= i < |splits| && t in splits[i].offTgids ensures splits[i].cohort !in m'.policy {
        assert splits[i] in splits;
      }
      assert Unsplit(m', splits, |splits|, t);
    }
    forall t | t in after.tgidCohort
      ensures tc[t] !in Absorbed(merges) ==> Redirect(merges, tc[t]) == tc[t]
      ensures tc[t] in Absorbed(merges) ==> MergePlan(Redirect(merges, tc[t]), tc[t]) in merges
    {
      RedirectMeaning(merges, tc[t]);
    }
    hide TgidsDone, Unsplit;
  }

  lemma {:induction false} SplitIdAbove(m: Maps, seqNo: nat, plans: seq<SplitPlan>, tc: map<Tgid, CohortId>, i: nat)
    requires IdsBelow(m, seqNo) && SplitsOver(plans, tc) && i < |plans|
    requires forall i :: 0 <= i < |plans| ==> plans[i].cohort < DAEMON_COHORT_BASE + seqNo
    ensures SplitId(m, seqNo, plans, i) >= DAEMON_COHORT_BASE + seqNo
  {
    SplitsGetDone(m, seqNo, plans, tc, i);
  }

  lemma {:induction false} PlannedCohort(m: Maps, tc: map<Tgid, CohortId>, merges: seq<MergePlan>, seqNo: nat,
      splits: seq<SplitPlan>, i: nat)
    requires FreshFrom(m, tc) && IdsBelow(m, seqNo) && SplitsOver(splits, tc) && i < |splits|
    requires MergedAll(m, tc, merges).policy == m.policy - Absorbed(merges)
    ensures splits[i].cohort in m.policy && splits[i].cohort < DAEMON_COHORT_BASE + seqNo
    ensures Splits(merges, splits[i]) <==> splits[i].cohort in MergedAll(m, tc, merges).policy
  {
    hide MergedAll;
    var t := splits[i].offTgids[0];
    assert t in splits[i].offTgids;
    assert tc[t] == splits[i].cohort && tc[t] in m.policy;
  }

  // ----- The two id spaces -----

  /** An id one of the sides has handed out: the BPF side counts up from 1, the daemon from its base. */
  predicate Allocated(bpfSeq: nat, daemonSeq: nat, c: CohortId) {
    1 <= c <= bpfSeq || DAEMON_COHORT_BASE <= c < DAEMON_COHORT_BASE + daemonSeq
  }

  /** Every cohort named anywhere in the maps has been handed out. */
  ghost predicate IdSpaces(m: Maps, bpfSeq: nat, daemonSeq: nat) {
    && (forall c :: c in m.policy ==> Allocated(bpfSeq, daemonSeq, c))
    && (forall c :: c in m.counters ==> Allocated(bpfSeq, daemonSeq, c))
    && (forall t :: t in m.tgidCohort ==> Allocated(bpfSeq, daemonSeq, m.tgidCohort[t]))
  }

  /** While the BPF side stays below the daemon's base, neither side's next id is in use. */
  lemma {:induction false} NextIdsUnused(m: Maps, bpfSeq: nat, daemonSeq: nat)
    requires IdSpaces(m, bpfSeq, daemonSeq) && bpfSeq + 1 < DAEMON_COHORT_BASE
    ensures IdsBelow(m, daemonSeq)
    ensures forall id :: id == bpfSeq + 1 || id == DAEMON_COHORT_BASE + daemonSeq ==>
      id !in m.policy && id !in m.counters && id !in m.tgidCohort.Values
  {
  }

  lemma {:induction false} CollectKeepsIds(m: Maps, deadTgids: set<Tgid>, deadCohorts: set<CohortId>,
      d: Option<Decision>, bpfSeq: nat, daemonSeq: nat)
    requires IdSpaces(m, bpfSeq, daemonSeq)
    ensures IdSpaces(Collected(m, deadTgids, deadCohorts, d), bpfSeq, daemonSeq)
  {
    hide Allocated;
  }

  /** A merge names no cohort that was not there, whatever its snapshot. */
  lemma {:induction false} MergesKeepIds(m: Maps, tc: map<Tgid, CohortId>, plans: seq<MergePlan>, bpfSeq: nat,
      daemonSeq: nat)
    requires IdSpaces(m, bpfSeq, daemonSeq)
    ensures IdSpaces(MergedAll(m, tc, plans), bpfSeq, daemonSeq)
    ensures MergedAll(m, tc, plans).policy.Keys <= m.policy.Keys
    ensures MergedAll(m, tc, plans).counters.Keys <= m.counters.Keys
  {
    hide Allocated;
    if plans != [] { MergesKeepIds(m, tc, plans[..|plans| - 1], bpfSeq, daemonSeq); }
  }

  /** A split names its own new id and nothing else new. */
  lemma {:induction false} SplitKeepsIds(m: Maps, bpfSeq: nat, daemonSeq: nat, p: SplitPlan)
    requires IdSpaces(m, bpfSeq, daemonSeq)
    ensures var m' := SplitApplied(m, daemonSeq, p);
      && IdSpaces(m', bpfSeq, SeqAfter(m, daemonSeq, p))
      && m'.policy.Keys <= m.policy.Keys + {DAEMON_COHORT_BASE + daemonSeq}
      && m'.counters.Keys <= m.counters.Keys + {DAEMON_COHORT_BASE + daemonSeq}
  {
  }

  lemma {:induction false} SplitsKeepIds(m: Maps, bpfSeq: nat, daemonSeq: nat, plans: seq<SplitPlan>, n: nat)
    requires IdSpaces(m, bpfSeq, daemonSeq) && n <= |plans|
    ensures var (m', s) := SplitAll(m, daemonSeq, plans, n);
      && daemonSeq <= s && IdSpaces(m', bpfSeq, s)
      && forall c :: (c in m'.policy || c in m'.counters) && c !in m.policy && c !in m.counters ==>
           DAEMON_COHORT_BASE + daemonSeq <= c
  {
    hide IdSpaces, SplitApplied;
    if n > 0 {
      SplitsKeepIds(m, bpfSeq, daemonSeq, plans, n - 1);
      var (mid, s) := SplitAll(m, daemonSeq, plans, n - 1);
      SplitKeepsIds(mid, bpfSeq, s, plans[n - 1]);
    }
  }

  // ----- A whole tick -----

  /** Daemon tick integrity: whatever was collected, and whichever plans the wake graph made from
      the snapshot, integrity and the id bound hold again, no tgid is lost after collection, and
      every new cohort id is fresh and lies in the daemon's own id space. */
  lemma {:induction false} TickIntegrity(m: Maps, seqNo: nat, deadTgids: set<Tgid>, deadCohorts: set<CohortId>,
      d: Option<Decision>, merges: seq<MergePlan>, splits: seq<SplitPlan>)
    requires Integrity(m) && IdsBelow(m, seqNo) && deadCohorts !! m.tgidCohort.Values
    requires IsMatching(merges) && PlansOver(merges, m.tgidCohort)
    ensures var collected := Collected(m, deadTgids, deadCohorts, d);
      var (m', s) := SplitAll(MergedAll(collected, m.tgidCohort, merges), seqNo, splits, |splits|);
      && Integrity(m') && IdsBelow(m', s) && seqNo <= s
      && m'.tgidCohort.Keys == m.tgidCohort.Keys - deadTgids
      && (forall c :: c in m'.policy && c !in m.policy ==>
            && 0x1_0000_0000 <= c && c !in m.tgidCohort.Values
            && DAEMON_COHORT_BASE + seqNo <= c < DAEMON_COHORT_BASE + s)
  {
    hide IsMatching, MergedAll, SplitAll, IdsBelow, Redirect;
    var collected, tc := Collected(m, deadTgids, deadCohorts, d), m.tgidCohort;
    CollectedFresh(m, deadTgids, deadCohorts, d, seqNo);
    MergesKeepIntegrity(collected, tc, merges, seqNo);
    MergesRedirect(collected, tc, merges);
    SplitsKeepIntegrity(MergedAll(collected, tc, merges), seqNo, splits, |splits|);
  }

  /** The same for the whole tick, against the maps it started from. */
  lemma {:induction false} TickLands(m: Maps, seqNo: nat, deadTgids: set<Tgid>, deadCohorts: set<CohortId>,
      d: Option<Decision>, merges: seq<MergePlan>, splits: seq<SplitPlan>) returns (ids: seq<CohortId>)
    requires Integrity(m) && IdsBelow(m, seqNo) && deadCohorts !! m.tgidCohort.Values
    requires IsMatching(merges) && PlansOver(merges, m.tgidCohort) && SplitsOver(splits, m.tgidCohort)
    ensures var collected := Collected(m, deadTgids, deadCohorts, d);
      Landed(m.tgidCohort, m, merges, splits,
             SplitAll(MergedAll(collected, m.tgidCohort, merges), seqNo, splits, |splits|).0, ids)
  {
    hide IsMatching, MergedAll, SplitAll, SplitsOver, FreshFrom, Splits, PlansOver;
    CollectedFresh(m, deadTgids, deadCohorts, d, seqNo);
    ids := SplitsLand(Collected(m, deadTgids, deadCohorts, d), m.tgidCohort, merges, seqNo, splits);
  }
}
