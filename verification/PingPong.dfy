/** The two-process futex ping-pong as interleaved atomic steps: line-by-line
    payload accesses, word stores, word loads, FUTEX_WAIT's compare-and-block,
    FUTEX_WAKE and spurious wakeups. */
module PingPong {
  import opened Domain
  import opened Modular

  const U32: nat := 0x1_0000_0000

  /** Rounds to play, and cache lines in the payload. */
  datatype Cfg = Cfg(total: nat, lines: nat)

  predicate ValidCfg(cfg: Cfg) {
    1 <= cfg.total < U64 && 1 <= cfg.lines
  }

  /** A futex word holds the round number truncated to 32 bits. */
  function Word(i: nat): nat {
    i % U32
  }

  /** What `payload_write` leaves on line `k`: the stamp plus the byte offset, wrapping. */
  function Line(stamp: nat, k: nat): nat {
    (stamp + 64 * k) % U64
  }

  function ClientStamp(i: nat): nat {
    i
  }

  /** The server stamps with the bitwise complement of the round. */
  function ServerStamp(i: nat): nat
    requires i < U64
  {
    U64 - 1 - i
  }

  /** The wrapping sum of the first `k` lines of a stamp. */
  function LineSum(stamp: nat, k: nat): nat {
    if k == 0 then 0 else (LineSum(stamp, k - 1) + Line(stamp, k - 1)) % U64
  }

  /** What a client sums up over its first `n` rounds when it reads exactly the server's stamps. */
  function ClientSink(lines: nat, n: nat): nat
    requires n < U64
  {
    if n == 0 then 0 else (ClientSink(lines, n - 1) + LineSum(ServerStamp(n), lines)) % U64
  }

  /** What a server sums up over its first `n` rounds when it reads exactly the client's stamps. */
  function ServerSink(lines: nat, n: nat): nat {
    if n == 0 then 0 else (ServerSink(lines, n - 1) + LineSum(ClientStamp(n), lines)) % U64
  }

  datatype Client =
    | CWrite(line: nat) | CStore | CWake
    | CLoad | CWait(cur: nat) | CBlocked
    | CRead(line: nat, sum: nat) | CDone

  datatype Server =
    | SLoad | SWait(cur: nat) | SBlocked
    | SRead(line: nat, sum: nat) | SWrite(line: nat)
    | SStore | SWake | SDone

  /** Each process's round, program point and sink, the two futex words, and the payload lines. */
  datatype Sys = Sys(ci: nat, c: Client, csink: nat, si: nat, s: Server, ssink: nat,
                     ping: nat, pong: nat, payload: seq<nat>)

  function Init(cfg: Cfg): Sys {
    Sys(1, CWrite(0), 0, 1, SLoad, 0, 0, 0, seq(cfg.lines, _ => 0))
  }

  // ----- Steps -----

  /** The client's next step, if it has one. */
  function ClientStep(cfg: Cfg, y: Sys): Option<Sys>
    requires |y.payload| == cfg.lines
  {
    match y.c
    case CWrite(k) =>
      if k >= cfg.lines then None
      else Some(y.(payload := y.payload[k := Line(ClientStamp(y.ci), k)],
                   c := if k + 1 == cfg.lines then CStore else CWrite(k + 1)))
    case CStore => Some(y.(ping := Word(y.ci), c := CWake))
    case CWake => Some(y.(s := if y.s.SBlocked? then SLoad else y.s, c := CLoad))
    case CLoad => Some(y.(c := if y.pong == Word(y.ci) then CRead(0, 0) else CWait(y.pong)))
    case CWait(cur) => Some(y.(c := if y.pong == cur then CBlocked else CLoad))
    case CBlocked => None
    case CRead(k, sum) =>
      if k >= cfg.lines then None
      else if k + 1 < cfg.lines then Some(y.(c := CRead(k + 1, (sum + y.payload[k]) % U64)))
      else
        var sunk := y.(csink := (y.csink + (sum + y.payload[k]) % U64) % U64);
        Some(if y.ci < cfg.total then sunk.(ci := y.ci + 1, c := CWrite(0)) else sunk.(c := CDone))
    case CDone => None
  }

  /** The server's next step, if it has one. */
  function ServerStep(cfg: Cfg, y: Sys): Option<Sys>
    requires |y.payload| == cfg.lines && y.si < U64
  {
    match y.s
    case SLoad => Some(y.(s := if y.ping == Word(y.si) then SRead(0, 0) else SWait(y.ping)))
    case SWait(cur) => Some(y.(s := if y.ping == cur then SBlocked else SLoad))
    case SBlocked => None
    case SRead(k, sum) =>
      if k >= cfg.lines then None
      else if k + 1 < cfg.lines then Some(y.(s := SRead(k + 1, (sum + y.payload[k]) % U64)))
      else Some(y.(ssink := (y.ssink + (sum + y.payload[k]) % U64) % U64, s := SWrite(0)))
    case SWrite(k) =>
      if k >= cfg.lines then None
      else Some(y.(payload := y.payload[k := Line(ServerStamp(y.si), k)],
                   s := if k + 1 == cfg.lines then SStore else SWrite(k + 1)))
    case SStore => Some(y.(pong := Word(y.si), s := SWake))
    case SWake =>
      var woken := y.(c := if y.c.CBlocked? then CLoad else y.c);
      Some(if y.si < cfg.total then woken.(si := y.si + 1, s := SLoad) else woken.(s := SDone))
    case SDone => None
  }

  /** FUTEX_WAIT may return although nobody called FUTEX_WAKE. */
  predicate SpuriousWake(y: Sys, y': Sys) {
    || (y.c.CBlocked? && y' == y.(c := CLoad))
    || (y.s.SBlocked? && y' == y.(s := SLoad))
  }

  predicate Works(cfg: Cfg, y: Sys, y': Sys)
    requires |y.payload| == cfg.lines && y.si < U64
  {
    ClientStep(cfg, y) == Some(y') || ServerStep(cfg, y) == Some(y')
  }

  predicate Final(y: Sys) {
    y.c.CDone? && y.s.SDone?
  }

  // ----- The invariant -----

  /** Rounds the client has stored to `ping`. */
  function Pings(y: Sys): int {
    if y.c.CWrite? || y.c.CStore? then y.ci - 1 else y.ci
  }

  /** Rounds the server has stored to `pong`. */
  function Pongs(y: Sys): int {
    if y.s.SWake? || y.s.SDone? then y.si else y.si - 1
  }

  predicate ClientWaiting(y: Sys) {
    y.c.CLoad? || y.c.CWait? || y.c.CBlocked?
  }

  predicate ServerWaiting(y: Sys) {
    y.s.SLoad? || y.s.SWait? || y.s.SBlocked?
  }

  /** The first `k` lines carry `stamp`. */
  predicate Stamped(payload: seq<nat>, stamp: nat, k: nat) {
    k <= |payload| && forall j :: 0 <= j < k ==> payload[j] == Line(stamp, j)
  }

  /** The ping is out and not yet answered: the payload belongs to the server. */
  ghost predicate ServersTurn(cfg: Cfg, y: Sys)
    requires ValidCfg(cfg) && |y.payload| == cfg.lines && y.si <= cfg.total
  {
    && (y.c.CWake? || ClientWaiting(y))
    && (|| (y.s.SWake? && y.si == y.ci - 1)
        || (y.si == y.ci && !y.s.SWake? && !y.s.SDone?))
    && (match y.s
        case SRead(k, sum) =>
          && k < cfg.lines && sum == LineSum(ClientStamp(y.ci), k)
          && Stamped(y.payload, ClientStamp(y.ci), cfg.lines)
        case SWrite(k) => k < cfg.lines && Stamped(y.payload, ServerStamp(y.si), k)
        case SStore => Stamped(y.payload, ServerStamp(y.si), cfg.lines)
        case _ => Stamped(y.payload, ClientStamp(y.ci), cfg.lines))
  }

  /** Every ping has been answered: the payload belongs to the client. */
  ghost predicate ClientsTurn(cfg: Cfg, y: Sys)
    requires ValidCfg(cfg) && |y.payload| == cfg.lines && y.ci <= cfg.total
  {
    && (|| (y.s.SWake? && y.si == Pings(y))
        || (ServerWaiting(y) && y.si == Pings(y) + 1)
        || (y.s.SDone? && y.si == Pings(y) == cfg.total))
    && (match y.c
        case CWrite(k) => k < cfg.lines && Stamped(y.payload, ClientStamp(y.ci), k)
        case CStore => Stamped(y.payload, ClientStamp(y.ci), cfg.lines)
        case CRead(k, sum) =>
          && k < cfg.lines && sum == LineSum(ServerStamp(y.ci), k)
          && Stamped(y.payload, ServerStamp(y.ci), cfg.lines)
        case CDone => y.ci == cfg.total
        case _ => Stamped(y.payload, ServerStamp(y.ci), cfg.lines))
  }

  /** A waiter read the word before it changed; a blocked waiter whose word has changed has a wake pending. */
  predicate WaitersSafe(y: Sys)
    requires y.ci >= 1 && y.si >= 1
  {
    && (y.c.CWait? ==> y.c.cur == Word(y.ci - 1))
    && (y.s.SWait? ==> y.s.cur == Word(y.si - 1))
    && (y.c.CBlocked? && y.pong != Word(y.ci - 1) ==> y.s.SWake?)
    && (y.s.SBlocked? && y.ping != Word(y.si - 1) ==> y.c.CWake?)
  }

  /** Both sinks hold exactly what the finished reads should have added. */
  predicate SinksExact(cfg: Cfg, y: Sys)
    requires 1 <= y.ci < U64 && 1 <= y.si
  {
    && y.csink == ClientSink(cfg.lines, if y.c.CDone? then y.ci else y.ci - 1)
    && y.ssink == ServerSink(cfg.lines, if ServerWaiting(y) || y.s.SRead? then y.si - 1 else y.si)
  }

  ghost predicate Core(cfg: Cfg, y: Sys)
    requires ValidCfg(cfg)
  {
    && |y.payload| == cfg.lines
    && 1 <= y.ci <= cfg.total && 1 <= y.si <= cfg.total
    && y.ping == Word(Pings(y)) && y.pong == Word(Pongs(y))
    && (Pings(y) == Pongs(y) || Pings(y) == Pongs(y) + 1)
    && (if Pings(y) == Pongs(y) then ClientsTurn(cfg, y) else ServersTurn(cfg, y))
    && WaitersSafe(y)
  }

  ghost predicate Inv(cfg: Cfg, y: Sys)
    requires ValidCfg(cfg)
  {
    Core(cfg, y) && SinksExact(cfg, y)
  }

  /** Consecutive rounds never collide, even when the 32-bit words wrap. */
  lemma {:induction false} WordsDiffer(i: nat)
    requires i >= 1
    ensures Word(i) != Word(i - 1)
  {
  }

  lemma {:induction false} InitInv(cfg: Cfg)
    requires ValidCfg(cfg)
    ensures Inv(cfg, Init(cfg))
  {
  }

  lemma {:induction false} ClientKeepsSinks(cfg: Cfg, y: Sys, y': Sys)
    requires ValidCfg(cfg) && Inv(cfg, y) && ClientStep(cfg, y) == Some(y')
    requires 1 <= y'.ci < U64 && 1 <= y'.si
    ensures SinksExact(cfg, y')
  {
    hide Line, Word, WaitersSafe;
  }

  lemma {:induction false} ClientKeepsCore(cfg: Cfg, y: Sys, y': Sys)
    requires ValidCfg(cfg) && Core(cfg, y) && ClientStep(cfg, y) == Some(y')
    ensures Core(cfg, y')
  {
    hide Line, Word;
    WordsDiffer(y.ci);
    WordsDiffer(y.si);
  }

  lemma {:induction false} ServerKeepsSinks(cfg: Cfg, y: Sys, y': Sys)
    requires ValidCfg(cfg) && Inv(cfg, y) && ServerStep(cfg, y) == Some(y')
    requires 1 <= y'.ci < U64 && 1 <= y'.si
    ensures SinksExact(cfg, y')
  {
    hide Line, Word, WaitersSafe;
  }

  lemma {:induction false} ServerKeepsCore(cfg: Cfg, y: Sys, y': Sys)
    requires ValidCfg(cfg) && Core(cfg, y) && ServerStep(cfg, y) == Some(y')
    ensures Core(cfg, y')
  {
    hide Line, Word;
    WordsDiffer(y.ci);
    WordsDiffer(y.si);
  }

  lemma {:induction false} SpuriousKeepsInv(cfg: Cfg, y: Sys, y': Sys)
    requires ValidCfg(cfg) && Inv(cfg, y) && SpuriousWake(y, y')
    ensures Inv(cfg, y')
  {
    hide Line, Word;
  }

  // ----- What the invariant gives -----

  predicate ClientTouches(y: Sys) {
    y.c.CWrite? || y.c.CRead?
  }

  predicate ServerTouches(y: Sys) {
    y.s.SRead? || y.s.SWrite?
  }

  /** Client and server never touch the payload at the same time, and whoever is reading
      sees, on every line, exactly the stamp the other wrote for its current round. */
  lemma {:induction false} PayloadSafe(cfg: Cfg, y: Sys)
    requires ValidCfg(cfg) && Inv(cfg, y)
    ensures !(ClientTouches(y) && ServerTouches(y))
    ensures y.c.CRead? ==> forall j :: 0 <= j < cfg.lines ==> y.payload[j] == (U64 - 1 - y.ci + 64 * j) % U64
    ensures y.s.SRead? ==> forall j :: 0 <= j < cfg.lines ==> y.payload[j] == (y.si + 64 * j) % U64
  {
    hide Word;
  }

  /** The words in plain numbers: each holds, modulo 2^32, the last round its writer has announced; and a process
      blocked on a word that is no longer the previous round's has a wake on the way. */
  lemma {:induction false} WordsMean(cfg: Cfg, y: Sys)
    requires ValidCfg(cfg) && Inv(cfg, y)
    ensures y.ping == (if y.c.CWrite? || y.c.CStore? then y.ci - 1 else y.ci) % 0x1_0000_0000
    ensures y.pong == (if y.s.SWake? || y.s.SDone? then y.si else y.si - 1) % 0x1_0000_0000
    ensures y.c.CBlocked? && y.pong != (y.ci - 1) % 0x1_0000_0000 ==> y.s.SWake?
    ensures y.s.SBlocked? && y.ping != (y.si - 1) % 0x1_0000_0000 ==> y.c.CWake?
  {
  }

  /** No wakeup is lost: a process blocked on a word that has reached its round has a wake on the way. */
  lemma {:induction false} NoLostWakeup(cfg: Cfg, y: Sys)
    requires ValidCfg(cfg) && Inv(cfg, y)
    ensures y.c.CBlocked? && y.pong == y.ci % 0x1_0000_0000 ==> y.s.SWake?
    ensures y.s.SBlocked? && y.ping == y.si % 0x1_0000_0000 ==> y.c.CWake?
  {
    WordsDiffer(y.ci);
    WordsDiffer(y.si);
  }

  /** No deadlock: some process can always work until both are done. */
  lemma {:induction false} NoDeadlock(cfg: Cfg, y: Sys)
    requires ValidCfg(cfg) && Inv(cfg, y) && !Final(y)
    ensures ClientStep(cfg, y).Some? || ServerStep(cfg, y).Some?
  {
    hide Line, Word;
    WordsDiffer(y.ci);
    WordsDiffer(y.si);
  }

  // ----- Runs -----

  /** Every interleaving of client steps, server steps and spurious wakeups. */
  ghost predicate IsRun(cfg: Cfg, run: seq<Sys>)
    requires ValidCfg(cfg)
  {
    && run != [] && run[0] == Init(cfg)
    && forall i, j :: 0 <= i && j == i + 1 < |run| ==> Moves(cfg, run[i], run[j])
  }

  ghost predicate Moves(cfg: Cfg, y: Sys, y': Sys) {
    |y.payload| == cfg.lines && y.si < U64 && (Works(cfg, y, y') || SpuriousWake(y, y'))
  }

  lemma {:induction false} StepKeepsInv(cfg: Cfg, y: Sys, y': Sys)
    requires ValidCfg(cfg) && Inv(cfg, y) && Moves(cfg, y, y')
    ensures Inv(cfg, y')
  {
    hide ClientStep, ServerStep, SinksExact, ClientsTurn, ServersTurn, WaitersSafe;
    if ClientStep(cfg, y) == Some(y') { ClientKeepsCore(cfg, y, y'); ClientKeepsSinks(cfg, y, y'); }
    else if ServerStep(cfg, y) == Some(y') { ServerKeepsCore(cfg, y, y'); ServerKeepsSinks(cfg, y, y'); }
    else { SpuriousKeepsInv(cfg, y, y'); }
  }

  /** Every state of every run satisfies the invariant. */
  lemma {:induction false} RunsAreSafe(cfg: Cfg, run: seq<Sys>, n: nat)
    requires ValidCfg(cfg) && IsRun(cfg, run) && n < |run|
    ensures Inv(cfg, run[n])
  {
    hide Inv, Moves, Init;
    if n == 0 {
      InitInv(cfg);
    } else {
      RunsAreSafe(cfg, run, n - 1);
      StepKeepsInv(cfg, run[n - 1], run[n]);
    }
  }

  /** Every run that finishes leaves the same two sinks. */
  lemma {:induction false} FinalSinks(cfg: Cfg, run: seq<Sys>)
    requires ValidCfg(cfg) && IsRun(cfg, run) && Final(run[|run| - 1])
    ensures run[|run| - 1].csink == ClientSink(cfg.lines, cfg.total)
    ensures run[|run| - 1].ssink == ServerSink(cfg.lines, cfg.total)
  {
    hide ClientSink, ServerSink;
    RunsAreSafe(cfg, run, |run| - 1);
  }

  // ----- Termination -----

  /** Steps a waiter may still take before it sees its word: fewer once the word has changed. */
  function WaitRank(changed: bool, load: bool, blocked: bool): nat {
    if changed then (if load then 1 else 2) else if load then 4 else if blocked then 2 else 3
  }

  function RoundCost(cfg: Cfg): nat {
    2 * cfg.lines + 8
  }

  function Rounds(n: nat, cost: nat): nat {
    if n == 0 then 0 else cost + Rounds(n - 1, cost)
  }

  function ClientRank(cfg: Cfg, y: Sys): int {
    Rounds(if y.ci <= cfg.total then cfg.total - y.ci else 0, RoundCost(cfg)) +
    match y.c
    case CWrite(k) => 2 * cfg.lines - k + 8
    case CStore => cfg.lines + 8
    case CWake => cfg.lines + 7
    case CRead(k, _) => cfg.lines - k
    case CDone => 0
    case _ => cfg.lines + WaitRank(y.pong == Word(y.ci), y.c.CLoad?, y.c.CBlocked?)
  }

  function ServerRank(cfg: Cfg, y: Sys): int {
    Rounds(if y.si <= cfg.total then cfg.total - y.si else 0, RoundCost(cfg)) +
    match y.s
    case SRead(k, _) => 2 * cfg.lines - k + 4
    case SWrite(k) => cfg.lines - k + 4
    case SStore => 4
    case SWake => 3
    case SDone => 0
    case _ => 2 * cfg.lines + 4 + WaitRank(y.ping == Word(y.si), y.s.SLoad?, y.s.SBlocked?)
  }

  function Rank(cfg: Cfg, y: Sys): int {
    ClientRank(cfg, y) + ServerRank(cfg, y)
  }

  lemma {:induction false} ClientRankFalls(cfg: Cfg, y: Sys, y': Sys)
    requires ValidCfg(cfg) && Core(cfg, y) && ClientStep(cfg, y) == Some(y')
    ensures Rank(cfg, y') < Rank(cfg, y)
  {
    hide Core, Rank, ClientStep;
    if y.c.CWake? || y.c.CStore? {
      ClientSignalRank(cfg, y, y');
    } else {
      ClientWorkRank(cfg, y, y');
    }
  }

  lemma {:induction false} ClientSignalRank(cfg: Cfg, y: Sys, y': Sys)
    requires ValidCfg(cfg) && Core(cfg, y) && (y.c.CWake? || y.c.CStore?) && ClientStep(cfg, y) == Some(y')
    ensures Rank(cfg, y') < Rank(cfg, y)
  {
    hide Line, Word, LineSum, Stamped;
    WordsDiffer(y.ci);
    WordsDiffer(y.si);
  }

  lemma {:induction false} ClientWorkRank(cfg: Cfg, y: Sys, y': Sys)
    requires ValidCfg(cfg) && Core(cfg, y) && !y.c.CWake? && !y.c.CStore? && ClientStep(cfg, y) == Some(y')
    ensures Rank(cfg, y') < Rank(cfg, y)
  {
    hide Line, Word, LineSum, Stamped;
    WordsDiffer(y.ci);
    WordsDiffer(y.si);
  }

  lemma {:induction false} ServerRankFalls(cfg: Cfg, y: Sys, y': Sys)
    requires ValidCfg(cfg) && Core(cfg, y) && ServerStep(cfg, y) == Some(y')
    ensures Rank(cfg, y') < Rank(cfg, y)
  {
    hide Core, Rank, ServerStep;
    if y.s.SWake? {
      ServerWakeRank(cfg, y, y');
    } else if y.s.SRead? || y.s.SWrite? {
      ServerLineRank(cfg, y, y');
    } else {
      ServerWaitRank(cfg, y, y');
    }
  }

  lemma {:induction false} ServerLineRank(cfg: Cfg, y: Sys, y': Sys)
    requires ValidCfg(cfg) && Core(cfg, y) && (y.s.SRead? || y.s.SWrite?) && ServerStep(cfg, y) == Some(y')
    ensures Rank(cfg, y') < Rank(cfg, y)
  {
    hide Line, Word, LineSum, Stamped, RoundCost, WaitRank;
    WaitRanks();
  }

  lemma {:induction false} ServerWaitRank(cfg: Cfg, y: Sys, y': Sys)
    requires ValidCfg(cfg) && Core(cfg, y) && !y.s.SWake? && !y.s.SRead? && !y.s.SWrite?
    requires ServerStep(cfg, y) == Some(y')
    ensures Rank(cfg, y') < Rank(cfg, y)
  {
    hide Line, Word, LineSum, Stamped, RoundCost, WaitRank;
    WordsDiffer(y.si);
    WaitRanks();
  }

  lemma {:induction false} WaitRanks()
    ensures forall c, l, b :: 1 <= WaitRank(c, l, b) <= 4
    ensures WaitRank(true, true, false) == 1 && forall b :: WaitRank(true, false, b) == 2
    ensures WaitRank(false, true, false) == 4 && WaitRank(false, false, false) == 3 && WaitRank(false, false, true) == 2
  {
  }

  lemma {:induction false} ServerWakeRank(cfg: Cfg, y: Sys, y': Sys)
    requires ValidCfg(cfg) && Core(cfg, y) && y.s.SWake? && ServerStep(cfg, y) == Some(y')
    ensures Rank(cfg, y') < Rank(cfg, y)
  {
    hide Line, Word, LineSum, Stamped;
  }

  lemma {:induction false} RankBounds(cfg: Cfg, y: Sys, y': Sys)
    requires ValidCfg(cfg) && Inv(cfg, y)
    ensures Rank(cfg, y) >= 0
    ensures SpuriousWake(y, y') ==> Rank(cfg, y') <= Rank(cfg, y) + 2
  {
    hide Line, Word, LineSum, Stamped;
  }

  /** How many moves of a run are spurious wakeups. */
  ghost function Spurious(cfg: Cfg, run: seq<Sys>, n: nat): nat
    requires n < |run|
  {
    if n == 0 then 0
    else
      Spurious(cfg, run, n - 1) +
      (if |run[n - 1].payload| == cfg.lines && run[n - 1].si < U64 && Works(cfg, run[n - 1], run[n]) then 0 else 1)
  }

  /** Termination: a run is no longer than a bound fixed by the configuration, plus three
      steps for every spurious wakeup in it. */
  lemma {:induction false} RunsTerminate(cfg: Cfg, run: seq<Sys>, n: nat)
    requires ValidCfg(cfg) && IsRun(cfg, run) && n < |run|
    ensures n + Rank(cfg, run[n]) <= Rank(cfg, Init(cfg)) + 3 * Spurious(cfg, run, n)
    ensures n <= Rank(cfg, Init(cfg)) + 3 * Spurious(cfg, run, n)
  {
    hide Core, SinksExact, Init, ClientStep, ServerStep, Rank, SpuriousWake;
    RunsAreSafe(cfg, run, n);
    RankBounds(cfg, run[n], run[n]);
    if n > 0 {
      RunsTerminate(cfg, run, n - 1);
      var y, y' := run[n - 1], run[n];
      RunsAreSafe(cfg, run, n - 1);
      assert Moves(cfg, y, y');
      if ClientStep(cfg, y) == Some(y') { ClientRankFalls(cfg, y, y'); }
      else if ServerStep(cfg, y) == Some(y') { ServerRankFalls(cfg, y, y'); }
      else { RankBounds(cfg, y, y'); }
    }
  }
}
