/** What one `WakeGraph::splits` call plans for a cohort, stated through
    reachability alone, and what its streak counters prove about the past. */
module SplitPlanning {
  import opened Domain
  import opened Collections
  import opened Connectivity

  // ----- One cohort -----

  function Weight(comp: seq<Member>): nat {
    if comp == [] then 0 else Weight(comp[..|comp| - 1]) + comp[|comp| - 1].1
  }

  function Names(comp: seq<Member>): (r: seq<Tgid>)
    ensures |r| == |comp|
    ensures forall t :: t in r <==> exists m :: m in comp && m.0 == t
  {
    var r := seq(|comp|, i requires 0 <= i < |comp| => comp[i].0);
    assert forall i :: 0 <= i < |comp| ==> comp[i] in comp && r[i] == comp[i].0;
    r
  }

  /** Two members that no path of live edges joins. */
  ghost predicate Disconnected(live: set<Edge>, members: seq<Member>) {
    exists a, b :: a in Tgids(members) && b in Tgids(members) && !Joined(live, Tgids(members), a, b)
  }

  /** `off` names exactly the component of `t`: not the kept one, and heavy enough. */
  ghost predicate IsOff(live: set<Edge>, members: seq<Member>, minTasks: nat, keep: Tgid, t: Tgid, off: seq<Tgid>) {
    var all := Tgids(members);
    && t in all && !Joined(live, all, keep, t)
    && Weight(ComponentOf(live, all, members, t)) >= minTasks
    && off == Names(ComponentOf(live, all, members, t))
  }

  ghost predicate IsSomeOff(live: set<Edge>, members: seq<Member>, minTasks: nat, keep: Tgid, off: seq<Tgid>) {
    exists t :: IsOff(live, members, minTasks, keep, t, off)
  }

  ghost predicate IsHeaviest(live: set<Edge>, members: seq<Member>, keep: Tgid) {
    var all := Tgids(members);
    && keep in all
    && forall t :: t in all ==>
         Weight(ComponentOf(live, all, members, t)) <= Weight(ComponentOf(live, all, members, keep))
  }

  ghost predicate PairwiseDisjoint(offs: seq<seq<Tgid>>) {
    forall i, j, t :: 0 <= i < j < |offs| && t in offs[i] ==> t !in offs[j]
  }

  /** Every component but a heaviest one is split off, unless it is under the task floor. */
  ghost predicate SplitsOff(live: set<Edge>, members: seq<Member>, minTasks: nat, offs: seq<seq<Tgid>>, keep: Tgid) {
    && IsHeaviest(live, members, keep)
    && (forall i :: 0 <= i < |offs| ==> IsSomeOff(live, members, minTasks, keep, offs[i]))
    && (forall t, off :: IsOff(live, members, minTasks, keep, t, off) ==> off in offs)
    && PairwiseDisjoint(offs)
  }

  lemma {:induction false} OffNames(live: set<Edge>, members: seq<Member>, minTasks: nat, keep: Tgid, t: Tgid,
      off: seq<Tgid>, u: Tgid)
    requires IsOff(live, members, minTasks, keep, t, off)
    ensures u in off <==> u in Tgids(members) && Joined(live, Tgids(members), t, u)
  {
    var all := Tgids(members);
    forall m ensures m in ComponentOf(live, all, members, t) <==> m in members && Joined(live, all, t, m.0) {
      ComponentMembers(live, all, members, t, m);
    }
    hide Joined;
  }

  /** Split soundness: a split-off set is one whole component, disjoint from the kept one,
      and no live edge between members is cut. */
  lemma {:induction false} SplitSound(live: set<Edge>, members: seq<Member>, minTasks: nat, offs: seq<seq<Tgid>>,
      keep: Tgid, i: nat, a: Tgid, b: Tgid)
    requires SplitsOff(live, members, minTasks, offs, keep)
    requires i < |offs| && a in Tgids(members) && b in Tgids(members)
    ensures a in offs[i] && b in offs[i] ==> Joined(live, Tgids(members), a, b)
    ensures a in offs[i] && Joined(live, Tgids(members), a, b) ==> b in offs[i]
    ensures Adjacent(live, a, b) ==> (a in offs[i] <==> b in offs[i])
    ensures a in offs[i] ==> !Joined(live, Tgids(members), keep, a)
  {
    hide Joined;
    var all := Tgids(members);
    assert IsSomeOff(live, members, minTasks, keep, offs[i]);
    var t :| IsOff(live, members, minTasks, keep, t, offs[i]);
    OffNames(live, members, minTasks, keep, t, offs[i], a);
    OffNames(live, members, minTasks, keep, t, offs[i], b);
    if Joined(live, all, t, a) {
      JoinedSym(live, all, t, a);
      if Joined(live, all, t, b) { JoinedTrans(live, all, a, t, b); }
      if Joined(live, all, a, b) { JoinedTrans(live, all, t, a, b); }
      if Joined(live, all, keep, a) { JoinedTrans(live, all, keep, a, t); }
    }
    if Adjacent(live, a, b) {
      JoinedEdge(live, all, a, b);
      JoinedSym(live, all, a, b);
      if Joined(live, all, t, a) { JoinedTrans(live, all, t, a, b); }
      if Joined(live, all, t, b) { JoinedTrans(live, all, t, b, a); }
    }
  }

  // ----- From a partition to the plan -----

  type Entry = (Tgid, seq<Member>)

  /** The entries of a partition in some order, each root once. */
  ghost predicate Lists(comps: map<Tgid, seq<Member>>, entries: seq<Entry>) {
    && (forall i :: 0 <= i < |entries| ==> entries[i].0 in comps && entries[i].1 == comps[entries[i].0])
    && (forall r :: r in comps ==> (r, comps[r]) in entries)
    && (forall i, j :: 0 <= i < j < |entries| ==> entries[i].0 != entries[j].0)
  }

  function Heaviness(e: Entry): real {
    -(Weight(e.1) as real)
  }

  lemma {:induction false} PermutedDistinct<T>(s: seq<T>, t: seq<T>)
    requires multiset(s) == multiset(t)
    requires forall i, j :: 0 <= i < j < |s| ==> s[i] != s[j]
    ensures forall i, j :: 0 <= i < j < |t| ==> t[i] != t[j]
  {
    forall x | x in multiset(s) ensures multiset(s)[x] == 1 { DistinctCount(s, x); }
    forall i, j | 0 <= i < j < |t| ensures t[i] != t[j] {
      assert t[i] in multiset(t);
      RepeatCount(t, i, j);
    }
  }

  lemma {:induction false} DistinctCount<T>(s: seq<T>, x: T)
    requires forall i, j :: 0 <= i < j < |s| ==> s[i] != s[j]
    requires x in s
    ensures multiset(s)[x] == 1
  {
    var i :| 0 <= i < |s| && s[i] == x;
    DropOne(s, i);
    assert x !in s[..i] + s[i + 1..];
    assert x !in multiset(s[..i] + s[i + 1..]);
  }

  lemma {:induction false} RepeatCount<T>(s: seq<T>, i: nat, j: nat)
    requires i < j < |s|
    ensures s[i] == s[j] ==> multiset(s)[s[i]] >= 2
  {
    assert s == s[..i] + [s[i]] + s[i + 1..j] + [s[j]] + s[j + 1..];
  }

  lemma {:induction false} SortedLists(comps: map<Tgid, seq<Member>>, entries: seq<Entry>, sorted: seq<Entry>)
    requires Lists(comps, entries) && multiset(sorted) == multiset(entries)
    ensures Lists(comps, sorted) && |sorted| == |entries|
  {
    SameMembers(sorted, entries);
    assert forall i, j :: 0 <= i < j < |entries| ==> entries[i] != entries[j];
    PermutedDistinct(entries, sorted);
    forall i | 0 <= i < |sorted| ensures sorted[i].0 in comps && sorted[i].1 == comps[sorted[i].0] {
      assert sorted[i] in entries;
    }
  }

  /** The heavy enough entries, by name. */
  function OffsOf(minTasks: nat, entries: seq<Entry>): seq<seq<Tgid>> {
    if entries == [] then []
    else
      var e := entries[|entries| - 1];
      OffsOf(minTasks, entries[..|entries| - 1]) + (if Weight(e.1) >= minTasks then [Names(e.1)] else [])
  }

  lemma {:induction false} OffsOfMember(minTasks: nat, entries: seq<Entry>, off: seq<Tgid>)
    ensures off in OffsOf(minTasks, entries) <==>
      exists e :: e in entries && Weight(e.1) >= minTasks && off == Names(e.1)
  {
    if entries != [] {
      var n := |entries| - 1;
      OffsOfMember(minTasks, entries[..n], off);
      assert entries == entries[..n] + [entries[n]];
    }
  }

  lemma {:induction false} OffsOfDisjoint(minTasks: nat, entries: seq<Entry>)
    requires forall i, j, t :: 0 <= i < j < |entries| && t in Names(entries[i].1) ==> t !in Names(entries[j].1)
    ensures PairwiseDisjoint(OffsOf(minTasks, entries))
  {
    if entries != [] {
      var n := |entries| - 1;
      OffsOfDisjoint(minTasks, entries[..n]);
      var e, before := entries[n], OffsOf(minTasks, entries[..n]);
      forall i, t | 0 <= i < |before| && t in before[i] ensures t !in Names(e.1) {
        OffsOfMember(minTasks, entries[..n], before[i]);
        var d :| d in entries[..n] && Weight(d.1) >= minTasks && before[i] == Names(d.1);
        var k :| 0 <= k < n && entries[k] == d;
      }
    }
  }

  lemma {:induction false} EntriesDisjoint(live: set<Edge>, members: seq<Member>, comps: map<Tgid, seq<Member>>,
      entries: seq<Entry>, i: nat, j: nat, t: Tgid)
    requires IsPartition(live, members, comps) && Lists(comps, entries) && i < j < |entries|
    requires t in Names(entries[i].1)
    ensures t !in Names(entries[j].1)
  {
    var r, s := entries[i].0, entries[j].0;
    hide Joined;
    var all := Tgids(members);
    var m :| m in comps[r] && m.0 == t;
    ComponentMembers(live, all, members, r, m);
    if t in Names(comps[s]) {
      var m' :| m' in comps[s] && m'.0 == t;
      ComponentMembers(live, all, members, s, m');
      JoinedSym(live, all, s, t);
      JoinedTrans(live, all, r, t, s);
      assert false;
    }
  }

  /** Sorting a partition by weight and skipping the first entry splits soundly. */
  lemma {:induction false} SortedSplitsOff(live: set<Edge>, members: seq<Member>, minTasks: nat,
      comps: map<Tgid, seq<Member>>, sorted: seq<Entry>)
    requires IsPartition(live, members, comps) && Lists(comps, sorted)
    requires SortedBy(sorted, Heaviness) && sorted != []
    ensures SplitsOff(live, members, minTasks, OffsOf(minTasks, sorted[1..]), sorted[0].0)
  {
    hide Joined, ComponentOf, IsPartition, Lists, SortedBy, OffsOf, PairwiseDisjoint, IsHeaviest;
    var keep, rest := sorted[0].0, sorted[1..];
    var offs := OffsOf(minTasks, rest);
    SortedHeaviest(live, members, comps, sorted);
    forall i | 0 <= i < |offs| ensures IsSomeOff(live, members, minTasks, keep, offs[i]) {
      var t := OffFromEntry(live, members, minTasks, comps, sorted, offs[i]);
    }
    forall t, off | IsOff(live, members, minTasks, keep, t, off) ensures off in offs {
      EntryFromOff(live, members, minTasks, comps, sorted, t, off);
    }
    forall i, j, t | 0 <= i < j < |rest| && t in Names(rest[i].1) ensures t !in Names(rest[j].1) {
      EntriesDisjoint(live, members, comps, sorted, i + 1, j + 1, t);
    }
    OffsOfDisjoint(minTasks, rest);
  }

  lemma {:induction false} SortedHeaviest(live: set<Edge>, members: seq<Member>, comps: map<Tgid, seq<Member>>,
      sorted: seq<Entry>)
    requires IsPartition(live, members, comps) && Lists(comps, sorted)
    requires SortedBy(sorted, Heaviness) && sorted != []
    ensures IsHeaviest(live, members, sorted[0].0)
  {
    hide Joined;
    var all, keep := Tgids(members), sorted[0].0;
    forall t | t in all ensures Weight(ComponentOf(live, all, members, t)) <= Weight(comps[keep]) {
      var i := EntryOf(live, members, comps, sorted, t);
      assert Heaviness(sorted[0]) <= Heaviness(sorted[i]);
    }
  }

  lemma {:induction false} OffFromEntry(live: set<Edge>, members: seq<Member>, minTasks: nat,
      comps: map<Tgid, seq<Member>>, sorted: seq<Entry>, off: seq<Tgid>) returns (t: Tgid)
    requires IsPartition(live, members, comps) && Lists(comps, sorted) && sorted != []
    requires off in OffsOf(minTasks, sorted[1..])
    ensures IsOff(live, members, minTasks, sorted[0].0, t, off)
  {
    hide Joined, ComponentOf;
    var rest := sorted[1..];
    OffsOfMember(minTasks, rest, off);
    var e :| e in rest && Weight(e.1) >= minTasks && off == Names(e.1);
    var k :| 0 <= k < |rest| && rest[k] == e;
    assert sorted[k + 1] == e && sorted[0].0 != e.0;
    t := e.0;
  }

  lemma {:induction false} EntryFromOff(live: set<Edge>, members: seq<Member>, minTasks: nat,
      comps: map<Tgid, seq<Member>>, sorted: seq<Entry>, t: Tgid, off: seq<Tgid>)
    requires IsPartition(live, members, comps) && Lists(comps, sorted) && sorted != []
    requires IsOff(live, members, minTasks, sorted[0].0, t, off)
    ensures off in OffsOf(minTasks, sorted[1..])
  {
    hide Joined, ComponentOf, IsPartition, Lists;
    var i := EntryOf(live, members, comps, sorted, t);
    assert i > 0 && sorted[1..][i - 1] == sorted[i];
    OffsOfMember(minTasks, sorted[1..], off);
  }

  /** The entry that holds a given member. */
  lemma {:induction false} EntryOf(live: set<Edge>, members: seq<Member>, comps: map<Tgid, seq<Member>>,
      entries: seq<Entry>, t: Tgid)
    returns (i: nat)
    requires IsPartition(live, members, comps) && Lists(comps, entries) && t in Tgids(members)
    ensures i < |entries| && entries[i].1 == ComponentOf(live, Tgids(members), members, t)
    ensures Joined(live, Tgids(members), entries[i].0, t)
  {
    hide Joined;
    var r :| r in comps && Joined(live, Tgids(members), r, t);
    ComponentCongruent(live, Tgids(members), members, r, t);
    i :| 0 <= i < |entries| && entries[i] == (r, comps[r]);
  }

  /** A partition has two entries exactly when two members are not joined. */
  lemma {:induction false} PartitionCount(live: set<Edge>, members: seq<Member>, comps: map<Tgid, seq<Member>>)
    requires IsPartition(live, members, comps)
    ensures |comps| >= 2 <==> Disconnected(live, members)
  {
    if Disconnected(live, members) {
      BrokenPartition(live, members, comps);
    }
    if |comps| >= 2 {
      hide Joined;
      var r :| r in comps;
      var rest := comps.Keys - {r};
      assert |rest| >= 1;
      var s :| s in rest;
      assert !Joined(live, Tgids(members), r, s);
    }
  }

  lemma {:induction false} BrokenPartition(live: set<Edge>, members: seq<Member>, comps: map<Tgid, seq<Member>>)
    requires IsPartition(live, members, comps) && Disconnected(live, members)
    ensures |comps| >= 2
  {
    hide Joined;
    var all := Tgids(members);
    var a, b :| a in all && b in all && !Joined(live, all, a, b);
    var r :| r in comps && Joined(live, all, r, a);
    var s :| s in comps && Joined(live, all, s, b);
    hide IsPartition, Tgids;
    JoinedSym(live, all, r, a);
    if r == s { JoinedTrans(live, all, a, r, b); }
    assert |{r, s}| == 2;
    SubsetSize({r, s}, comps.Keys);
  }

  // ----- One call -----

  function StreakOf(streaks: map<CohortId, nat>, c: CohortId): nat {
    if c in streaks then streaks[c] else 0
  }

  ghost predicate Broken(cfg: WakeGraphCfg, edges: map<Edge, EdgeState>, cohorts: map<CohortId, seq<Member>>,
      c: CohortId) {
    c in cohorts && Disconnected(Live(edges, cfg.splitMinWakesPerSec), cohorts[c])
  }

  /** The split-off sets planned for one cohort. */
  function OffsFor(plans: seq<SplitPlan>, c: CohortId): seq<seq<Tgid>> {
    if plans == [] then []
    else
      var p := plans[|plans| - 1];
      OffsFor(plans[..|plans| - 1], c) + (if p.cohort == c then [p.offTgids] else [])
  }

  lemma {:induction false} OffsForConcat(p: seq<SplitPlan>, q: seq<SplitPlan>, c: CohortId)
    ensures OffsFor(p + q, c) == OffsFor(p, c) + OffsFor(q, c)
  {
    if q == [] {
      assert p + q == p;
    } else {
      assert (p + q)[..|p + q| - 1] == p + q[..|q| - 1];
      OffsForConcat(p, q[..|q| - 1], c);
    }
  }

  /** The streak of one cohort after a call, and what the call plans for it. */
  ghost predicate CohortOutcome(cfg: WakeGraphCfg, edges: map<Edge, EdgeState>, streaks: map<CohortId, nat>,
      streaks': map<CohortId, nat>, cohorts: map<CohortId, seq<Member>>, plans: seq<SplitPlan>, c: CohortId)
  {
    if !Broken(cfg, edges, cohorts, c) then c !in streaks' && OffsFor(plans, c) == []
    else if StreakOf(streaks, c) + 1 < cfg.splitConfirmTicks then
      c in streaks' && streaks'[c] == StreakOf(streaks, c) + 1 && OffsFor(plans, c) == []
    else
      && c !in streaks'
      && exists keep :: SplitsOff(Live(edges, cfg.splitMinWakesPerSec), cohorts[c], cfg.splitMinTasks,
          OffsFor(plans, c), keep)
  }

  ghost predicate SplitOutcome(cfg: WakeGraphCfg, edges: map<Edge, EdgeState>, streaks: map<CohortId, nat>,
      streaks': map<CohortId, nat>, cohorts: map<CohortId, seq<Member>>, plans: seq<SplitPlan>)
  {
    forall c :: CohortOutcome(cfg, edges, streaks, streaks', cohorts, plans, c)
  }

  // ----- Runs -----

  datatype Call = Call(edges: map<Edge, EdgeState>, cohorts: map<CohortId, seq<Member>>, plans: seq<SplitPlan>)

  ghost predicate IsRun(cfg: WakeGraphCfg, calls: seq<Call>, streaks: seq<map<CohortId, nat>>) {
    && |streaks| == |calls| + 1 && streaks[0] == map[]
    && forall i, j :: 0 <= i < |calls| && j == i + 1 ==>
         SplitOutcome(cfg, calls[i].edges, streaks[i], streaks[j], calls[i].cohorts, calls[i].plans)
  }

  ghost predicate BrokenAt(cfg: WakeGraphCfg, calls: seq<Call>, c: CohortId, i: nat)
    requires i < |calls|
  {
    Broken(cfg, calls[i].edges, calls[i].cohorts, c)
  }

  /** The call that acts on the streak and resets it. */
  ghost predicate FiresAt(cfg: WakeGraphCfg, calls: seq<Call>, streaks: seq<map<CohortId, nat>>, c: CohortId, i: nat)
    requires i < |calls| == |streaks| - 1
  {
    BrokenAt(cfg, calls, c, i) && StreakOf(streaks[i], c) + 1 >= cfg.splitConfirmTicks
  }

  lemma {:induction false} StreakStep(cfg: WakeGraphCfg, calls: seq<Call>, streaks: seq<map<CohortId, nat>>,
      c: CohortId, i: nat)
    requires IsRun(cfg, calls, streaks) && i < |calls|
    ensures StreakOf(streaks[i + 1], c) ==
      if BrokenAt(cfg, calls, c, i) && !FiresAt(cfg, calls, streaks, c, i) then StreakOf(streaks[i], c) + 1 else 0
    ensures OffsFor(calls[i].plans, c) != [] ==> FiresAt(cfg, calls, streaks, c, i)
  {
    hide SplitsOff, Broken;
    assert SplitOutcome(cfg, calls[i].edges, streaks[i], streaks[i + 1], calls[i].cohorts, calls[i].plans);
    assert CohortOutcome(cfg, calls[i].edges, streaks[i], streaks[i + 1], calls[i].cohorts, calls[i].plans, c);
  }

  /** The streak is the length of the unbroken, unfired stretch that ends now. */
  lemma {:induction false} StreakMeaning(cfg: WakeGraphCfg, calls: seq<Call>, streaks: seq<map<CohortId, nat>>,
      c: CohortId, n: nat)
    requires IsRun(cfg, calls, streaks) && n <= |calls|
    ensures var s := StreakOf(streaks[n], c);
      && s <= n
      && (forall k :: n - s <= k < n ==> BrokenAt(cfg, calls, c, k) && !FiresAt(cfg, calls, streaks, c, k))
      && (s < n ==> !BrokenAt(cfg, calls, c, n - s - 1) || FiresAt(cfg, calls, streaks, c, n - s - 1))
  {
    hide SplitOutcome, Broken;
    if n > 0 {
      StreakMeaning(cfg, calls, streaks, c, n - 1);
      StreakStep(cfg, calls, streaks, c, n - 1);
    }
  }

  /** Split confirmation: a split of `c` is planned only when the last `splitConfirmTicks`
      calls all saw it disconnected, with no reset among them. */
  lemma {:induction false} SplitNeedsConfirmation(cfg: WakeGraphCfg, calls: seq<Call>,
      streaks: seq<map<CohortId, nat>>, c: CohortId, n: nat)
    requires IsRun(cfg, calls, streaks) && n < |calls|
    requires OffsFor(calls[n].plans, c) != []
    ensures cfg.splitConfirmTicks <= n + 1
    ensures BrokenAt(cfg, calls, c, n)
    ensures forall k :: n + 1 - cfg.splitConfirmTicks <= k < n ==>
      BrokenAt(cfg, calls, c, k) && !FiresAt(cfg, calls, streaks, c, k)
  {
    hide IsRun, Broken;
    StreakStep(cfg, calls, streaks, c, n);
    StreakMeaning(cfg, calls, streaks, c, n);
  }

  /** And conversely: that many disconnected calls without a reset make this call act. */
  lemma {:induction false} ConfirmationSplits(cfg: WakeGraphCfg, calls: seq<Call>, streaks: seq<map<CohortId, nat>>,
      c: CohortId, n: nat)
    requires IsRun(cfg, calls, streaks) && n < |calls| && cfg.splitConfirmTicks <= n + 1
    requires BrokenAt(cfg, calls, c, n)
    requires forall k :: n + 1 - cfg.splitConfirmTicks <= k < n ==>
      BrokenAt(cfg, calls, c, k) && !FiresAt(cfg, calls, streaks, c, k)
    ensures FiresAt(cfg, calls, streaks, c, n)
    ensures exists keep :: SplitsOff(Live(calls[n].edges, cfg.splitMinWakesPerSec), calls[n].cohorts[c],
                                     cfg.splitMinTasks, OffsFor(calls[n].plans, c), keep)
  {
    StreakMeaning(cfg, calls, streaks, c, n);
    assert CohortOutcome(cfg, calls[n].edges, streaks[n], streaks[n + 1], calls[n].cohorts, calls[n].plans, c) by {
      assert SplitOutcome(cfg, calls[n].edges, streaks[n], streaks[n + 1], calls[n].cohorts, calls[n].plans);
    }
    hide SplitsOff, Disconnected;
  }
}
