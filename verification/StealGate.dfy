/** Per-LLC queues and the steal gate of the fast path: vtime-ordered insertion with
    wrapping timestamps, dispatch from the own queue first, and stealing only through
    the priced gate. */
module StealGate {
  import opened Domain
  import opened Modular

  datatype Tunables = Tunables(stealMin: nat, stealDelay: nat, creditMax: nat, creditWakeFreqMin: nat,
      creditRuntimeMax: nat)

  /** A queued task: its vtime key and when it was enqueued. */
  datatype Entry = Entry(pid: Pid, vtime: nat, at: nat)

  /** The queues and head timestamps of all LLCs. */
  datatype Gate = Gate(queues: seq<seq<Entry>>, head: seq<nat>)

  predicate ValidGate(g: Gate) {
    |g.queues| == |g.head| >= 1
  }

  // ----- Wrapping virtual time -----

  /** Unsigned 64-bit subtraction, wrapping. */
  function Sub64(a: nat, b: nat): (r: nat)
    ensures r < U64
  {
    (a - b) % U64
  }

  lemma {:induction false} Sub64Cases(a: nat, b: nat)
    requires a < U64 && b < U64
    ensures Sub64(a, b) == if a >= b then a - b else a + U64 - b
  {
  }

  /** `(s64)(a - b) < 0`. */
  predicate VtimeBefore(a: nat, b: nat) {
    Sub64(a, b) >= U64 / 2
  }

  /** The key a task is queued under: its vtime, at most one slice behind the frontier, less the
      interactive credit.  The clamp is local to the queue key. */
  function QueueKey(tun: Tunables, vtime: nat, frontier: nat, slice: nat, wakeFreq: nat, avgRuntime: nat): nat {
    var floor := Sub64(frontier, slice);
    var clamped := if VtimeBefore(vtime, floor) then floor else vtime;
    if wakeFreq >= tun.creditWakeFreqMin && 0 < avgRuntime <= tun.creditRuntimeMax then Sub64(clamped, tun.creditMax)
    else clamped
  }

  lemma {:induction false} Sub64Shift(a: nat, b: nat, c: nat)
    requires a < U64 && b < U64 && c < U64
    ensures Sub64(Sub64(a, c), Sub64(b, c)) == Sub64(a, b)
  {
    hide Sub64;
    Sub64Cases(a, c);
    Sub64Cases(b, c);
    Sub64Cases(a, b);
    Sub64Cases(Sub64(a, c), Sub64(b, c));
  }

  /** The key is never more than one slice, plus the credit if it was granted, behind the
      frontier, in wrapping order. */
  lemma {:induction false} KeyBounded(tun: Tunables, vtime: nat, frontier: nat, slice: nat, wakeFreq: nat,
      avgRuntime: nat)
    requires vtime < U64 && frontier < U64 && slice < U64 && tun.creditMax < U64
    ensures var key, floor := QueueKey(tun, vtime, frontier, slice, wakeFreq, avgRuntime), Sub64(frontier, slice);
      !VtimeBefore(key, if wakeFreq >= tun.creditWakeFreqMin && 0 < avgRuntime <= tun.creditRuntimeMax
                        then Sub64(floor, tun.creditMax) else floor)
  {
    var floor := Sub64(frontier, slice);
    var clamped := if VtimeBefore(vtime, floor) then floor else vtime;
    assert !VtimeBefore(clamped, floor);
    Sub64Shift(clamped, floor, tun.creditMax);
    hide Sub64;
  }

  // ----- Wrapping time in plain arithmetic -----

  const HALF: nat := 0x8000_0000_0000_0000

  /** Where `vtime` lies on the circle, counted from `base`. */
  function Ahead(base: nat, vtime: nat): nat {
    (vtime - base) % U64
  }

  /** A time is before every other that is less than half the circle ahead of it, and not after it. */
  lemma {:induction false} BeforeMeans(a: nat, d: nat)
    requires a < U64 && d < HALF
    ensures VtimeBefore(a, (a + d) % U64) <==> d > 0
    ensures !VtimeBefore((a + d) % U64, a)
  {
    var b := (a + d) % U64;
    assert b == if a + d < U64 then a + d else a + d - U64;
    Sub64Cases(a, b);
    Sub64Cases(b, a);
  }

  /** Within half the circle from any base, the wrapping order is the order of distances. */
  lemma {:induction false} BeforeIsLess(base: nat, v: nat, w: nat)
    requires base < U64 && v < U64 && w < U64 && Ahead(base, v) < HALF && Ahead(base, w) < HALF
    ensures VtimeBefore(v, w) <==> Ahead(base, v) < Ahead(base, w)
  {
    AheadCases(base, v);
    AheadCases(base, w);
    Sub64Cases(v, w);
    hide Sub64, Ahead;
  }

  lemma {:induction false} AheadCases(base: nat, v: nat)
    requires base < U64 && v < U64
    ensures Ahead(base, v) == if v >= base then v - base else v + U64 - base
  {
  }

  /** A task less than half the circle ahead of the clamp keeps its own vtime; one up to half the
      circle behind it is moved up to the clamp, one slice behind the frontier; and the credit comes
      off exactly when it is granted: woken often enough, and running briefly but at all. */
  lemma {:induction false} KeyMeans(tun: Tunables, vtime: nat, frontier: nat, slice: nat, wakeFreq: nat,
      avgRuntime: nat, x: nat)
    requires vtime < U64 && frontier < U64 && slice < U64
    ensures var credit := if wakeFreq >= tun.creditWakeFreqMin && avgRuntime > 0 && avgRuntime <= tun.creditRuntimeMax
                          then tun.creditMax else 0;
      var key := QueueKey(tun, vtime, frontier, slice, wakeFreq, avgRuntime);
      && (x < HALF && vtime == (frontier - slice + x) % U64 ==> key == (vtime - credit) % U64)
      && (0 < x <= HALF && vtime == (frontier - slice - x) % U64 ==> key == (frontier - slice - credit) % U64)
  {
    hide Sub64;
    var floor := Sub64(frontier, slice);
    FloorCases(frontier, slice);
    if x < HALF && vtime == (frontier - slice + x) % U64 {
      NotBehind(frontier - slice, floor, x, vtime);
      SubWhole(vtime, vtime, tun.creditMax);
    } else if 0 < x <= HALF && vtime == (frontier - slice - x) % U64 {
      Behind(frontier - slice, floor, x, vtime);
      SubWhole(floor, frontier - slice, tun.creditMax);
    }
  }

  lemma {:induction false} NotBehind(whole: int, floor: nat, x: nat, vtime: nat)
    requires floor == whole % U64 && x < HALF && vtime == (whole + x) % U64
    ensures !VtimeBefore(vtime, floor)
  {
    ReduceFirst(whole, x);
    BeforeMeans(floor, x);
  }

  lemma {:induction false} Behind(whole: int, floor: nat, x: nat, vtime: nat)
    requires floor == whole % U64 && 0 < x <= HALF && vtime == (whole - x) % U64
    ensures VtimeBefore(vtime, floor)
  {
    var less: int := 0 - x;
    ReduceFirst(whole, less);
    assert vtime == if floor >= x then floor - x else floor - x + U64;
    Sub64Cases(vtime, floor);
  }

  lemma {:induction false} FloorCases(frontier: nat, slice: nat)
    requires frontier < U64 && slice < U64
    ensures Sub64(frontier, slice) == (frontier - slice) % U64
    ensures Sub64(frontier, slice) == if frontier >= slice then frontier - slice else frontier - slice + U64
  {
  }

  /** Subtraction does not care how often its first operand has wrapped. */
  lemma {:induction false} SubWhole(a: nat, whole: int, c: nat)
    requires a == whole % U64
    ensures Sub64(a, c) == (whole - c) % U64 && Sub64(a, 0) == a && (a - 0) % U64 == a
  {
    var less: int := 0 - c;
    ReduceFirst(whole, less);
  }

  // ----- Queue operations -----

  /** Insert behind every entry that is not later: equal keys keep their order. */
  function Inserted(q: seq<Entry>, e: Entry): (r: seq<Entry>)
    ensures multiset(r) == multiset(q) + multiset{e}
  {
    if q == [] then [e]
    else if VtimeBefore(e.vtime, q[0].vtime) then [e] + q
    else
      assert q == [q[0]] + q[1..];
      [q[0]] + Inserted(q[1..], e)
  }

  /** The task goes behind every entry it is not before, up to the first one it is before. */
  lemma {:induction false} InsertedPosition(q: seq<Entry>, e: Entry) returns (i: nat)
    ensures i <= |q| && Inserted(q, e) == q[..i] + [e] + q[i..]
    ensures forall j :: 0 <= j < i ==> !VtimeBefore(e.vtime, q[j].vtime)
    ensures i < |q| ==> VtimeBefore(e.vtime, q[i].vtime)
  {
    hide VtimeBefore;
    if q == [] || VtimeBefore(e.vtime, q[0].vtime) {
      i := 0;
    } else {
      i := InsertedPosition(q[1..], e);
      PutBehind(q, e, i);
      i := i + 1;
    }
  }

  lemma {:induction false} PutBehind(q: seq<Entry>, e: Entry, i: nat)
    requires i < |q|
    ensures [q[0]] + (q[1..][..i] + [e] + q[1..][i..]) == q[..i + 1] + [e] + q[i + 1..]
    ensures forall j :: 0 < j < |q| ==> q[j] == q[1..][j - 1]
  {
    assert q[1..][..i] == q[1..i + 1] && q[1..][i..] == q[i + 1..];
    assert [q[0]] + q[1..i + 1] == q[..i + 1];
  }

  /** Keys within half the circle from `base`, earliest first, equal keys in arrival order. */
  ghost predicate InOrder(q: seq<Entry>, base: nat) {
    && (forall i :: 0 <= i < |q| ==> q[i].vtime < U64 && Ahead(base, q[i].vtime) < HALF)
    && (forall i, j :: 0 <= i < j < |q| ==>
          || Ahead(base, q[i].vtime) < Ahead(base, q[j].vtime)
          || (Ahead(base, q[i].vtime) == Ahead(base, q[j].vtime) && q[i].at <= q[j].at))
  }

  /** Queueing keeps the order, and equal keys in arrival order. */
  lemma {:induction false} InsertKeepsOrder(q: seq<Entry>, e: Entry, base: nat)
    requires base < U64 && InOrder(q, base) && e.vtime < U64 && Ahead(base, e.vtime) < HALF
    requires forall d :: d in q ==> d.at <= e.at
    ensures InOrder(Inserted(q, e), base)
  {
    hide VtimeBefore, Ahead, Inserted;
    var k := InsertedPosition(q, e);
    forall j | 0 <= j < |q|
      ensures VtimeBefore(e.vtime, q[j].vtime) <==> Ahead(base, e.vtime) < Ahead(base, q[j].vtime)
    {
      BeforeIsLess(base, e.vtime, q[j].vtime);
    }
    forall j | 0 <= j < |q| ensures q[j].at <= e.at { assert q[j] in q; }
    forall j | k <= j < |q| ensures Ahead(base, e.vtime) < Ahead(base, q[j].vtime) {}
    forall j | 0 <= j < k ensures Ahead(base, q[j].vtime) <= Ahead(base, e.vtime) {}
    PutInOrder(q, e, base, k);
  }

  lemma {:induction false} PutInOrder(q: seq<Entry>, e: Entry, base: nat, k: nat)
    requires InOrder(q, base) && k <= |q| && e.vtime < U64 && Ahead(base, e.vtime) < HALF
    requires forall j :: 0 <= j < k ==> Ahead(base, q[j].vtime) <= Ahead(base, e.vtime) && q[j].at <= e.at
    requires forall j :: k <= j < |q| ==> Ahead(base, e.vtime) < Ahead(base, q[j].vtime)
    ensures InOrder(q[..k] + [e] + q[k..], base)
  {
    hide Ahead;
    var r := q[..k] + [e] + q[k..];
    assert forall i :: 0 <= i < |r| ==> r[i] == if i < k then q[i] else if i == k then e else q[i - 1];
  }

  /** `cohort_enqueue`: the head timestamp restarts when the queue was empty. */
  function Enqueued(g: Gate, llc: LlcId, e: Entry): Gate
    requires ValidGate(g) && llc < |g.queues|
  {
    Gate(g.queues[llc := Inserted(g.queues[llc], e)], if g.queues[llc] == [] then g.head[llc := e.at] else g.head)
  }

  /** The first queued task allowed on the dispatching CPU. */
  function FirstAllowed(q: seq<Entry>, allowed: set<Pid>): (r: Option<nat>)
    ensures r.Some? ==> r.value < |q| && q[r.value].pid in allowed
    ensures r.Some? ==> forall i :: 0 <= i < r.value ==> q[i].pid !in allowed
    ensures r.None? ==> forall i :: 0 <= i < |q| ==> q[i].pid !in allowed
  {
    if q == [] then None
    else if q[0].pid in allowed then Some(0)
    else
      match FirstAllowed(q[1..], allowed)
      case None => None
      case Some(k) => Some(k + 1)
  }

  /** Task `k` leaves queue `llc`, and the head timestamp restarts. */
  function Consumed(g: Gate, llc: LlcId, k: nat, now: nat): Gate
    requires ValidGate(g) && llc < |g.queues| && k < |g.queues[llc]|
  {
    var q := g.queues[llc];
    Gate(g.queues[llc := q[..k] + q[k + 1..]], g.head[llc := now])
  }

  /** The gate as the code tests it. */
  predicate GateOpen(tun: Tunables, g: Gate, llc: LlcId, now: nat)
    requires ValidGate(g) && llc < |g.queues|
  {
    |g.queues[llc]| > tun.stealMin || Sub64(now, g.head[llc]) > tun.stealDelay
  }

  /** A queue the scan would take from. */
  predicate Stealable(tun: Tunables, g: Gate, mine: LlcId, llc: LlcId, allowed: set<Pid>, now: nat)
    requires ValidGate(g) && llc < |g.queues|
  {
    llc != mine && g.queues[llc] != [] && GateOpen(tun, g, llc, now) && FirstAllowed(g.queues[llc], allowed).Some?
  }

  /** What one dispatch did: took from the own queue, stole, or found nothing. */
  ghost predicate Dispatched(tun: Tunables, g: Gate, g': Gate, mine: LlcId, allowed: set<Pid>, now: nat,
      from: Option<LlcId>)
    requires ValidGate(g) && mine < |g.queues|
  {
    match from
    case None =>
      && g' == g && FirstAllowed(g.queues[mine], allowed).None?
      && (forall l :: 0 <= l < |g.queues| ==> !Stealable(tun, g, mine, l, allowed, now))
    case Some(llc) =>
      && llc < |g.queues| && FirstAllowed(g.queues[llc], allowed).Some?
      && g' == Consumed(g, llc, FirstAllowed(g.queues[llc], allowed).value, now)
      && (llc != mine ==>
            && FirstAllowed(g.queues[mine], allowed).None?
            && Stealable(tun, g, mine, llc, allowed, now)
            && (forall l :: 0 <= l < llc ==> !Stealable(tun, g, mine, l, allowed, now)))
  }

  class Llcs {
    var queues: seq<seq<Entry>>
    var head: seq<nat>

    function View(): Gate
      reads this
    {
      Gate(queues, head)
    }

    method Enqueue(llc: LlcId, e: Entry)
      requires ValidGate(View()) && llc < |queues|
      modifies this
      ensures View() == Enqueued(old(View()), llc, e)
    {
      if |queues[llc]| == 0 {
        head := head[llc := e.at];
      }
      queues := queues[llc := Inserted(queues[llc], e)];
    }

    /** `scx_bpf_dsq_move_to_local`. */
    method MoveToLocal(llc: LlcId, allowed: set<Pid>) returns (moved: bool)
      requires ValidGate(View()) && llc < |queues|
      modifies `queues
      ensures var k := FirstAllowed(old(queues)[llc], allowed);
        && moved == k.Some?
        && queues == if k.None? then old(queues)
                     else old(queues)[llc := old(queues)[llc][..k.value] + old(queues)[llc][k.value + 1..]]
    {
      var k := FirstAllowed(queues[llc], allowed);
      moved := k.Some?;
      if k.Some? {
        queues := queues[llc := queues[llc][..k.value] + queues[llc][k.value + 1..]];
      }
    }

    /** `cohort_dispatch`: the own queue first, then the first foreign queue whose gate is open. */
    method Dispatch(tun: Tunables, mine: LlcId, allowed: set<Pid>, now: nat) returns (from: Option<LlcId>)
      requires ValidGate(View()) && mine < |queues|
      modifies this
      ensures Dispatched(tun, old(View()), View(), mine, allowed, now, from)
    {
      var moved := MoveToLocal(mine, allowed);
      if moved {
        head := head[mine := now];
        return Some(mine);
      }
      for i := 0 to |queues|
        invariant View() == old(View())
        invariant forall l :: 0 <= l < i ==> !Stealable(tun, old(View()), mine, l, allowed, now)
      {
        if i == mine || |queues[i]| == 0 {
          continue;
        }
        if |queues[i]| > tun.stealMin || Sub64(now, head[i]) > tun.stealDelay {
          moved := MoveToLocal(i, allowed);
          if moved {
            head := head[i := now];
            return Some(i);
          }
        }
      }
      return None;
    }
  }

  // ----- The gate is conservative -----

  /** Some task in the queue was enqueued no later than `t`. */
  predicate WaitingSince(q: seq<Entry>, t: nat) {
    exists i :: 0 <= i < |q| && q[i].at <= t
  }

  /** At time `now`: nothing is stamped in the future, and a non-empty queue's head timestamp is no
      earlier than its oldest task's enqueue time. */
  ghost predicate HeadSafe(g: Gate, now: nat) {
    && ValidGate(g)
    && (forall l, i :: 0 <= l < |g.queues| && 0 <= i < |g.queues[l]| ==> g.queues[l][i].at <= now)
    && (forall l :: 0 <= l < |g.queues| ==> g.head[l] <= now)
    && (forall l :: 0 <= l < |g.queues| && g.queues[l] != [] ==> WaitingSince(g.queues[l], g.head[l]))
  }

  lemma {:induction false} InsertedMember(q: seq<Entry>, e: Entry, d: Entry)
    ensures d in Inserted(q, e) <==> d in q || d == e
  {
    assert d in Inserted(q, e) <==> d in multiset(Inserted(q, e));
    assert d in q <==> d in multiset(q);
  }

  lemma {:induction false} EnqueueKeepsHead(g: Gate, llc: LlcId, e: Entry, now: nat)
    requires HeadSafe(g, now) && llc < |g.queues| && e.at >= now
    ensures HeadSafe(Enqueued(g, llc, e), e.at)
  {
    hide Inserted;
    var q, g' := g.queues[llc], Enqueued(g, llc, e);
    var q' := g'.queues[llc];
    forall d ensures d in q' <==> d in q || d == e { InsertedMember(q, e, d); }
    forall l, i | 0 <= l < |g'.queues| && 0 <= i < |g'.queues[l]| ensures g'.queues[l][i].at <= e.at {
      if l == llc { assert q'[i] in q'; }
    }
    assert e in q';
    if q == [] {
      var i :| 0 <= i < |q'| && q'[i] == e;
    } else {
      var i :| 0 <= i < |q| && q[i].at <= g.head[llc];
      assert q[i] in q';
      var j :| 0 <= j < |q'| && q'[j] == q[i];
    }
    assert WaitingSince(q', g'.head[llc]);
  }

  lemma {:induction false} ConsumeKeepsHead(g: Gate, llc: LlcId, k: nat, now: nat, then': nat)
    requires HeadSafe(g, now) && llc < |g.queues| && k < |g.queues[llc]| && then' >= now
    ensures HeadSafe(Consumed(g, llc, k, then'), then')
  {
    var g' := Consumed(g, llc, k, then');
    var q, q' := g.queues[llc], g'.queues[llc];
    forall i | 0 <= i < |q'| ensures q'[i].at <= then' {
      assert q'[i] == if i < k then q[i] else q[i + 1];
    }
    assert q' != [] ==> WaitingSince(q', then') by { assert q' != [] ==> q'[0].at <= then'; }
    forall l | 0 <= l < |g'.queues| && l != llc ensures g'.queues[l] == g.queues[l] && g'.head[l] == g.head[l] {}
  }

  /** The wait condition fires only when some task there has really waited longer than the delay. */
  lemma {:induction false} GateMeansWaiting(tun: Tunables, g: Gate, llc: LlcId, now: nat)
    requires HeadSafe(g, now) && llc < |g.queues| && g.queues[llc] != [] && now < U64
    requires GateOpen(tun, g, llc, now)
    ensures |g.queues[llc]| > tun.stealMin ||
            exists i :: 0 <= i < |g.queues[llc]| && now - g.queues[llc][i].at > tun.stealDelay
  {
    assert g.head[llc] <= now;
    assert Sub64(now, g.head[llc]) == now - g.head[llc];
    var i :| 0 <= i < |g.queues[llc]| && g.queues[llc][i].at <= g.head[llc];
  }

  // ----- Runs -----

  datatype Step =
    | Enq(llc: LlcId, pid: Pid, vtime: nat)
    | Disp(mine: LlcId, allowed: set<Pid>, from: Option<LlcId>)

  /** One callback at time `now`. */
  ghost predicate Leads(tun: Tunables, g: Gate, a: Step, now: nat, g': Gate) {
    && ValidGate(g)
    && match a
       case Enq(llc, pid, vtime) => llc < |g.queues| && g' == Enqueued(g, llc, Entry(pid, vtime, now))
       case Disp(mine, allowed, from) => mine < |g.queues| && Dispatched(tun, g, g', mine, allowed, now, from)
  }

  /** Callbacks at nondecreasing times, starting from empty queues. */
  ghost predicate IsRun(tun: Tunables, gates: seq<Gate>, steps: seq<Step>, times: seq<nat>) {
    && |gates| == |steps| + 1 && |times| == |steps|
    && ValidGate(gates[0])
    && (forall l :: 0 <= l < |gates[0].queues| ==> gates[0].queues[l] == [] && gates[0].head[l] == 0)
    && (forall i, j :: 0 <= i < j < |times| ==> times[i] <= times[j])
    && (forall i :: 0 <= i < |steps| ==> Leads(tun, gates[i], steps[i], times[i], gates[i + 1]))
  }

  lemma {:induction false} LaterIsSafe(g: Gate, now: nat, later: nat)
    requires HeadSafe(g, now) && now <= later
    ensures HeadSafe(g, later)
  {
  }

  /** In every reachable state the head timestamps are safe at the time of the last callback. */
  lemma {:induction false} RunsAreHeadSafe(tun: Tunables, gates: seq<Gate>, steps: seq<Step>, times: seq<nat>, n: nat)
    requires IsRun(tun, gates, steps, times) && n <= |steps|
    ensures HeadSafe(gates[n], if n == 0 then 0 else times[n - 1])
  {
    if n > 0 {
      RunsAreHeadSafe(tun, gates, steps, times, n - 1);
      var g, a, now := gates[n - 1], steps[n - 1], times[n - 1];
      assert Leads(tun, g, a, now, gates[n - 1 + 1]);
      StepIsHeadSafe(tun, g, a, if n == 1 then 0 else times[n - 2], now, gates[n]);
    }
  }

  lemma {:induction false} StepIsHeadSafe(tun: Tunables, g: Gate, a: Step, before: nat, now: nat, g': Gate)
    requires HeadSafe(g, before) && before <= now && Leads(tun, g, a, now, g')
    ensures HeadSafe(g', now)
  {
    hide HeadSafe, FirstAllowed, GateOpen, Stealable, Inserted;
    match a
    case Enq(llc, pid, vtime) =>
      EnqueueKeepsHead(g, llc, Entry(pid, vtime, now), before);
    case Disp(mine, allowed, from) =>
      if from.None? {
        LaterIsSafe(g, before, now);
      } else {
        ConsumeKeepsHead(g, from.value, FirstAllowed(g.queues[from.value], allowed).value, before, now);
      }
  }

  /** Steal soundness over runs: a steal happens only when the own queue has nothing this CPU may
      run, and the victim is deep or has a task that really waited longer than the delay. */
  lemma {:induction false} StealsAreJustified(tun: Tunables, gates: seq<Gate>, steps: seq<Step>, times: seq<nat>,
      n: nat, victim: LlcId)
    requires IsRun(tun, gates, steps, times) && n < |steps| && times[n] < U64
    requires steps[n].Disp? && steps[n].from == Some(victim) && victim != steps[n].mine
    ensures steps[n].mine < |gates[n].queues| && FirstAllowed(gates[n].queues[steps[n].mine], steps[n].allowed).None?
    ensures victim < |gates[n].queues|
    ensures |gates[n].queues[victim]| > tun.stealMin ||
            exists i :: 0 <= i < |gates[n].queues[victim]| && times[n] - gates[n].queues[victim][i].at > tun.stealDelay
  {
    hide FirstAllowed;
    RunsAreHeadSafe(tun, gates, steps, times, n);
    assert Leads(tun, gates[n], steps[n], times[n], gates[n + 1]);
    LaterIsSafe(gates[n], if n == 0 then 0 else times[n - 1], times[n]);
    GateMeansWaiting(tun, gates[n], victim, times[n]);
  }

  // ----- What a dispatch takes -----

  /** Some queued task may run on the dispatching CPU. */
  ghost predicate HasAllowed(q: seq<Entry>, allowed: set<Pid>) {
    exists i :: 0 <= i < |q| && q[i].pid in allowed
  }

  /** Deep, or its head timestamp older than the delay, in wrapping time. */
  ghost predicate Ripe(tun: Tunables, g: Gate, llc: LlcId, now: nat)
    requires ValidGate(g) && llc < |g.queues|
  {
    tun.stealMin < |g.queues[llc]| || tun.stealDelay < (now - g.head[llc]) % U64
  }

  /** A dispatch in plain terms: it takes one task, the first in its queue that may run here, and
      restarts that queue's timestamp, leaving every other queue alone.  The queue is the own one if
      anything there may run; otherwise the first other one that is ripe and has something to run; and
      it goes away empty-handed only when there is none. */
  lemma {:induction false} DispatchMeans(tun: Tunables, g: Gate, g': Gate, mine: LlcId, allowed: set<Pid>,
      now: nat, from: Option<LlcId>)
    requires ValidGate(g) && mine < |g.queues| && Dispatched(tun, g, g', mine, allowed, now, from)
    ensures from == Some(mine) <==> HasAllowed(g.queues[mine], allowed)
    ensures from.None? <==>
      forall l :: 0 <= l < |g.queues| && (l == mine || Ripe(tun, g, l, now)) ==> !HasAllowed(g.queues[l], allowed)
    ensures from.None? ==> g' == g
    ensures from.Some? && from.value != mine ==>
      && from.value < |g.queues| && Ripe(tun, g, from.value, now) && HasAllowed(g.queues[from.value], allowed)
      && forall l :: 0 <= l < from.value && l != mine && Ripe(tun, g, l, now) ==> !HasAllowed(g.queues[l], allowed)
    ensures from.Some? ==> from.value < |g.queues| && exists k ::
      && 0 <= k < |g.queues[from.value]| && g.queues[from.value][k].pid in allowed
      && (forall i :: 0 <= i < k ==> g.queues[from.value][i].pid !in allowed)
      && g' == Gate(g.queues[from.value := g.queues[from.value][..k] + g.queues[from.value][k + 1..]],
                    g.head[from.value := now])
  {
    hide FirstAllowed, HasAllowed, Ripe, GateOpen, ValidGate;
    forall l | 0 <= l < |g.queues|
      ensures Stealable(tun, g, mine, l, allowed, now) <==>
        l != mine && Ripe(tun, g, l, now) && HasAllowed(g.queues[l], allowed)
      ensures FirstAllowed(g.queues[l], allowed).Some? <==> HasAllowed(g.queues[l], allowed)
    {
      QueueMeans(tun, g, l, allowed, now);
    }
    hide Stealable;
    if from.Some? {
      var k := FirstAllowed(g.queues[from.value], allowed).value;
      assert g' == Consumed(g, from.value, k, now);
      assert HasAllowed(g.queues[from.value], allowed);
      assert from.value == mine || Stealable(tun, g, mine, from.value, allowed, now);
    }
  }

  lemma {:induction false} QueueMeans(tun: Tunables, g: Gate, l: LlcId, allowed: set<Pid>, now: nat)
    requires ValidGate(g) && l < |g.queues|
    ensures FirstAllowed(g.queues[l], allowed).Some? <==> HasAllowed(g.queues[l], allowed)
    ensures HasAllowed(g.queues[l], allowed) ==> g.queues[l] != []
    ensures GateOpen(tun, g, l, now) <==> Ripe(tun, g, l, now)
  {
  }

  // ----- Order over runs -----

  /** In every run whose queue keys lie within half the circle from some base, every queue is in
      order, earliest key first and equal keys in arrival order. */
  lemma {:induction false} RunsKeepOrder(tun: Tunables, gates: seq<Gate>, steps: seq<Step>, times: seq<nat>,
      base: nat, n: nat, llc: LlcId)
    requires IsRun(tun, gates, steps, times) && n <= |steps| && base < U64 && llc < |gates[n].queues|
    requires forall i :: 0 <= i < n && steps[i].Enq? ==> steps[i].vtime < U64 && Ahead(base, steps[i].vtime) < HALF
    ensures InOrder(gates[n].queues[llc], base)
  {
    hide HeadSafe, Inserted, InOrder, Ahead;
    if n == 0 {
      EmptyInOrder(base);
    } else {
      var g, a, now := gates[n - 1], steps[n - 1], times[n - 1];
      assert Leads(tun, g, a, now, gates[n - 1 + 1]);
      RunsKeepOrder(tun, gates, steps, times, base, n - 1, llc);
      RunsAreHeadSafe(tun, gates, steps, times, n - 1);
      QueuedBefore(g, if n == 1 then 0 else times[n - 2], llc);
      match a
      case Enq(l, pid, vtime) =>
        if l == llc { InsertKeepsOrder(g.queues[llc], Entry(pid, vtime, now), base); }
      case Disp(mine, allowed, from) =>
        if from == Some(llc) {
          DropKeepsOrder(g.queues[llc], base, FirstAllowed(g.queues[llc], allowed).value);
        }
    }
  }

  lemma {:induction false} EmptyInOrder(base: nat)
    ensures InOrder([], base)
  {
  }

  lemma {:induction false} QueuedBefore(g: Gate, now: nat, llc: LlcId)
    requires HeadSafe(g, now) && llc < |g.queues|
    ensures forall d :: d in g.queues[llc] ==> d.at <= now
  {
  }

  lemma {:induction false} DropKeepsOrder(q: seq<Entry>, base: nat, k: nat)
    requires InOrder(q, base) && k < |q|
    ensures InOrder(q[..k] + q[k + 1..], base)
  {
    hide Ahead;
    var r := q[..k] + q[k + 1..];
    assert forall i :: 0 <= i < |r| ==> r[i] == if i < k then q[i] else q[i + 1];
  }

  // ----- What the head timestamp means, and when a waiter faces a closed gate -----

  /** The step took a task out of queue `llc`. */
  predicate Consumes(a: Step, llc: LlcId) {
    a.Disp? && a.from == Some(llc)
  }

  /** The step restarted the head timestamp of `llc`: it consumed a task there, or queued one while
      the queue was empty. */
  predicate Restarts(g: Gate, a: Step, llc: LlcId)
    requires llc < |g.queues|
  {
    Consumes(a, llc) || (a.Enq? && a.llc == llc && g.queues[llc] == [])
  }

  /** Step `k` is the last of the first `n` that restarted the head timestamp of `llc`. */
  ghost predicate LastRestart(gates: seq<Gate>, steps: seq<Step>, n: nat, llc: LlcId, k: nat)
    requires n <= |steps| < |gates| && forall i :: 0 <= i <= n ==> llc < |gates[i].queues|
  {
    && k < n && Restarts(gates[k], steps[k], llc)
    && forall i :: k < i < n ==> !Restarts(gates[i], steps[i], llc)
  }

  /** One step seen from one queue. */
  lemma {:induction false} QueueStep(tun: Tunables, g: Gate, a: Step, now: nat, g': Gate, llc: LlcId)
    requires Leads(tun, g, a, now, g') && llc < |g.queues|
    ensures ValidGate(g') && |g'.queues| == |g.queues|
    ensures g'.head[llc] == if Restarts(g, a, llc) then now else g.head[llc]
    ensures !Consumes(a, llc) ==> forall d :: d in g'.queues[llc] ==> d in g.queues[llc] || d.at == now
    ensures !Restarts(g, a, llc) && g.queues[llc] == [] ==> g'.queues[llc] == []
  {
    hide FirstAllowed, GateOpen, Stealable, Inserted;
    if a.Enq? && a.llc == llc {
      forall d ensures d in g'.queues[llc] ==> d in g.queues[llc] || d.at == now {
        InsertedMember(g.queues[llc], Entry(a.pid, a.vtime, now), d);
      }
    }
  }

  lemma {:induction false} RunWidth(tun: Tunables, gates: seq<Gate>, steps: seq<Step>, times: seq<nat>, n: nat)
    requires IsRun(tun, gates, steps, times) && n <= |steps|
    ensures ValidGate(gates[n]) && |gates[n].queues| == |gates[0].queues|
  {
    hide Leads;
    if n > 0 {
      RunWidth(tun, gates, steps, times, n - 1);
      assert Leads(tun, gates[n - 1], steps[n - 1], times[n - 1], gates[n - 1 + 1]);
      QueueStep(tun, gates[n - 1], steps[n - 1], times[n - 1], gates[n], 0);
    }
  }

  /** Over every run, the head timestamp of a queue is the time of the last step that consumed from
      it or queued into it while it was empty; a queue without such a step is still empty.  When
      that step was an enqueue, every task there was queued at that time or later. */
  lemma {:induction false} HeadMeaning(tun: Tunables, gates: seq<Gate>, steps: seq<Step>, times: seq<nat>, n: nat,
      llc: LlcId)
    returns (k: Option<nat>)
    requires IsRun(tun, gates, steps, times) && n <= |steps| && llc < |gates[0].queues|
    ensures ValidGate(gates[n]) && forall i :: 0 <= i <= n ==> llc < |gates[i].queues|
    ensures k.None? ==> gates[n].queues[llc] == [] && gates[n].head[llc] == 0
    ensures k.None? ==> forall i :: 0 <= i < n ==> !Restarts(gates[i], steps[i], llc)
    ensures k.Some? ==> LastRestart(gates, steps, n, llc, k.value) && gates[n].head[llc] == times[k.value]
    ensures k.Some? && steps[k.value].Enq? ==> forall d :: d in gates[n].queues[llc] ==> d.at >= times[k.value]
  {
    hide Leads, Restarts, Consumes;
    forall i | 0 <= i <= n ensures llc < |gates[i].queues| && llc < |gates[i].head| {
      RunWidth(tun, gates, steps, times, i);
    }
    if n == 0 {
      k := None;
    } else {
      k := HeadMeaning(tun, gates, steps, times, n - 1, llc);
      var g, a, now := gates[n - 1], steps[n - 1], times[n - 1];
      assert Leads(tun, g, a, now, gates[n - 1 + 1]);
      QueueStep(tun, g, a, now, gates[n], llc);
      RestartKinds(g, a, llc);
      if Restarts(g, a, llc) { k := Some(n - 1); }
    }
  }

  lemma {:induction false} RestartKinds(g: Gate, a: Step, llc: LlcId)
    requires llc < |g.queues|
    ensures Consumes(a, llc) ==> a.Disp? && Restarts(g, a, llc)
    ensures Restarts(g, a, llc) && a.Enq? ==> g.queues[llc] == []
    ensures Restarts(g, a, llc) && !Consumes(a, llc) ==> a.Enq?
  {
  }

  /** Some task was consumed from the queue within the last `stealDelay`. */
  ghost predicate RecentlyConsumed(tun: Tunables, steps: seq<Step>, times: seq<nat>, n: nat, llc: LlcId, now: nat)
    requires n <= |steps| == |times|
  {
    exists k :: 0 <= k < n && Consumes(steps[k], llc) && now - times[k] <= tun.stealDelay
  }

  /** When a long waiter faces a closed gate, over every run: for a queue holding a task that has
      waited longer than the delay, the gate is closed if and only if the queue is not deep and
      some other task was consumed from it within the last delay. */
  lemma {:induction false} WaiterBlockedExactlyWhen(tun: Tunables, gates: seq<Gate>, steps: seq<Step>, times: seq<nat>,
      n: nat, llc: LlcId, now: nat, w: Entry)
    requires IsRun(tun, gates, steps, times) && n <= |steps| && llc < |gates[n].queues|
    requires (n > 0 ==> times[n - 1] <= now) && now < U64
    requires w in gates[n].queues[llc] && now - w.at > tun.stealDelay
    ensures ValidGate(gates[n])
    ensures !GateOpen(tun, gates[n], llc, now) <==>
      |gates[n].queues[llc]| <= tun.stealMin && RecentlyConsumed(tun, steps, times, n, llc, now)
  {
    hide Leads, Restarts, Consumes;
    RunWidth(tun, gates, steps, times, n);
    var last := HeadMeaning(tun, gates, steps, times, n, llc);
    var k := last.value;
    Sub64Cases(now, times[k]);
    forall j | 0 <= j < n && Consumes(steps[j], llc) ensures times[j] <= times[k] {
      RestartKinds(gates[j], steps[j], llc);
    }
    RestartKinds(gates[k], steps[k], llc);
  }

  /** Such a run: two tasks are queued on LLC 1 at time 0, one is consumed there at 600000, and at
      600001 an idle CPU of LLC 0 finds the gate closed and takes nothing, although the other has
      waited past the delay of 500000. */
  lemma {:induction false} LongWaiterBehindClosedGate()
    returns (tun: Tunables, gates: seq<Gate>, steps: seq<Step>, times: seq<nat>)
    ensures tun == Tunables(2, 500000, 4000000, 50, 2000000) && times == [0, 0, 600000, 600001]
    ensures steps == [Enq(1, 1, 0), Enq(1, 2, 0), Disp(1, {1, 2}, Some(1)), Disp(0, {1, 2}, None)]
    ensures IsRun(tun, gates, steps, times)
    ensures gates[3].queues == [[], [Entry(2, 0, 0)]]
    ensures ValidGate(gates[3]) && !GateOpen(tun, gates[3], 1, 600001)
  {
    hide Leads, GateOpen;
    tun := Tunables(2, 500000, 4000000, 50, 2000000);
    steps := [Enq(1, 1, 0), Enq(1, 2, 0), Disp(1, {1, 2}, Some(1)), Disp(0, {1, 2}, None)];
    times := [0, 0, 600000, 600001];
    var a, b := Entry(1, 0, 0), Entry(2, 0, 0);
    var g0, g1, g2 := Gate([[], []], [0, 0]), Gate([[], [a]], [0, 0]), Gate([[], [a, b]], [0, 0]);
    var g3 := Gate([[], [b]], [0, 600000]);
    gates := [g0, g1, g2, g3, g3];
    QueuedBoth(tun, a, b, g0, g1, g2);
    OneTaken(tun, a, b, g2, g3);
    LeftWaiting(tun, b, g3);
  }

  lemma {:induction false} QueuedBoth(tun: Tunables, a: Entry, b: Entry, g0: Gate, g1: Gate, g2: Gate)
    requires a == Entry(1, 0, 0) && b == Entry(2, 0, 0) && g0 == Gate([[], []], [0, 0])
    requires g1 == Gate([[], [a]], [0, 0]) && g2 == Gate([[], [a, b]], [0, 0])
    ensures Leads(tun, g0, Enq(1, 1, 0), 0, g1) && Leads(tun, g1, Enq(1, 2, 0), 0, g2)
  {
    assert Inserted([], a) == [a];
    assert Inserted([a], b) == [a, b] by { assert [a][1..] == [] && Inserted([], b) == [b]; }
  }

  lemma {:induction false} OneTaken(tun: Tunables, a: Entry, b: Entry, g: Gate, g': Gate)
    requires a == Entry(1, 0, 0) && g == Gate([[], [a, b]], [0, 0]) && g' == Gate([[], [b]], [0, 600000])
    ensures Leads(tun, g, Disp(1, {1, 2}, Some(1)), 600000, g')
  {
    assert FirstAllowed([a, b], {1, 2}) == Some(0);
    assert [a, b][..0] + [a, b][0 + 1..] == [b];
  }

  lemma {:induction false} LeftWaiting(tun: Tunables, b: Entry, g: Gate)
    requires tun == Tunables(2, 500000, 4000000, 50, 2000000) && g == Gate([[], [b]], [0, 600000])
    ensures !GateOpen(tun, g, 1, 600001) && Leads(tun, g, Disp(0, {1, 2}, None), 600001, g)
  {
    assert FirstAllowed([], {1, 2}) == None;
    Sub64Cases(600001, 600000);
    hide Sub64;
  }
}
