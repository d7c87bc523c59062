/** Closed forms of the two sinks a finished ping-pong leaves behind. */
module PingPongSinks {
  import opened Modular
  import opened PingPong

  /** 1 + 2 + ... + n. */
  function Triangle(n: nat): nat {
    n * (n + 1) / 2
  }

  lemma {:induction false} TriangleNext(n: nat)
    requires n > 0
    ensures Triangle(n) == Triangle(n - 1) + n
  {
    assert n * (n + 1) == (n - 1) * n + 2 * n;
  }

  lemma {:induction false} AddReduced(x: int, y: int)
    ensures (x % U64 + y % U64) % U64 == (x + y) % U64
  {
    ReduceFirst(x, y % U64);
    ReduceFirst(y, x);
  }

  /** The lines of one message add up to its stamp on every line plus the offsets. */
  lemma {:induction false} LineSumIs(stamp: nat, k: nat)
    ensures LineSum(stamp, k) == (k * stamp + 32 * (k * (k - 1))) % U64
  {
    if k > 0 {
      LineSumIs(stamp, k - 1);
      var x, y := (k - 1) * stamp + 32 * ((k - 1) * (k - 2)), stamp + 64 * (k - 1);
      AddReduced(x, y);
      assert x + y == k * stamp + 32 * (k * (k - 1));
    }
  }

  lemma {:induction false} ServerSinkIs(lines: nat, n: nat)
    ensures ServerSink(lines, n) == (lines * Triangle(n) + n * (32 * (lines * (lines - 1)))) % U64
  {
    hide LineSum, Triangle;
    if n == 0 {
      TriangleZero();
    } else {
      ServerSinkIs(lines, n - 1);
      LineSumIs(n, lines);
      TriangleNext(n);
      var o := 32 * (lines * (lines - 1));
      AddReduced(lines * Triangle(n - 1) + (n - 1) * o, lines * n + o);
      Times(lines, Triangle(n - 1), n);
      assert n * o == (n - 1) * o + o;
    }
  }

  lemma {:induction false} ClientSinkIs(lines: nat, n: nat)
    requires n < U64
    ensures ClientSink(lines, n) ==
      (n * (32 * (lines * (lines - 1))) - lines * n - lines * Triangle(n)) % U64
  {
    hide LineSum, Triangle;
    if n == 0 {
      TriangleZero();
    } else {
      ClientSinkIs(lines, n - 1);
      LineSumIs(ServerStamp(n), lines);
      TriangleNext(n);
      var o := 32 * (lines * (lines - 1));
      assert lines * (U64 - 1 - n) == lines * U64 - lines - lines * n;
      WholeTurns(o - lines - lines * n, lines);
      AddReduced((n - 1) * o - lines * (n - 1) - lines * Triangle(n - 1), o - lines - lines * n);
      Times(lines, Triangle(n - 1), n);
      Times(lines, n - 1, 1);
      assert n * o == (n - 1) * o + o;
    }
  }

  lemma {:induction false} TriangleZero()
    ensures Triangle(0) == 0
  {
  }

  lemma {:induction false} Times(c: int, x: int, y: int)
    ensures c * (x + y) == c * x + c * y
  {
  }

  /** Every finished run leaves sinks fixed by the number of rounds N and of lines L alone: the server has
      summed each round number on each line, the client each round number's complement, both with the
      line offsets; so together they add up to N (64 L (L - 1) - L), whatever the rounds were. */
  lemma {:induction false} SinksClosedForm(cfg: Cfg, run: seq<Sys>)
    requires ValidCfg(cfg) && IsRun(cfg, run) && Final(run[|run| - 1])
    ensures var n, l, y := cfg.total, cfg.lines, run[|run| - 1];
      && y.ssink == (l * Triangle(n) + n * (32 * (l * (l - 1)))) % U64
      && y.csink == (n * (32 * (l * (l - 1))) - l * n - l * Triangle(n)) % U64
      && (y.csink + y.ssink) % U64 == (n * (64 * (l * (l - 1))) - l * n) % U64
  {
    hide ClientSink, ServerSink, IsRun, Triangle, Final;
    FinalSinks(cfg, run);
    ServerSinkIs(cfg.lines, cfg.total);
    ClientSinkIs(cfg.lines, cfg.total);
    var n, l := cfg.total, cfg.lines;
    var o := 32 * (l * (l - 1));
    AddReduced(n * o - l * n - l * Triangle(n), l * Triangle(n) + n * o);
    Times(n, o, o);
  }
}
