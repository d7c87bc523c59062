/** The loops of the ping-pong benchmark that run inside one process: walking the
    payload line by line, and subsampling round trips into the fixed buffer. */
module PingPongLoops {
  import opened Modular
  import opened PingPong

  const CACHE_LINE := 64
  const MAX_SAMPLES: nat := 512 * 1024

  /** The wrapping sum of the first `k` lines. */
  function SumLines(lines: seq<nat>, k: nat): nat
    requires k <= |lines|
  {
    if k == 0 then 0 else (SumLines(lines, k - 1) + lines[k - 1]) % U64
  }

  /** Writes the stamp plus the byte offset to every line below `len`, and nothing else. */
  method PayloadWrite(buf: array<nat>, len: nat, stamp: nat)
    requires len <= CACHE_LINE * buf.Length
    modifies buf
    ensures forall k :: 0 <= k < buf.Length ==> buf[k] == if CACHE_LINE * k < len then Line(stamp, k) else old(buf[k])
  {
    var off := 0;
    ghost var n := 0;
    while off < len
      invariant off == CACHE_LINE * n && n <= buf.Length
      invariant forall k :: 0 <= k < buf.Length ==> buf[k] == if k < n then Line(stamp, k) else old(buf[k])
      invariant forall k :: 0 <= k < n ==> CACHE_LINE * k < len
    {
      buf[off / CACHE_LINE] := (stamp + off) % U64;
      off, n := off + CACHE_LINE, n + 1;
    }
  }

  /** Sums every line below `len`, wrapping. */
  method PayloadRead(buf: array<nat>, len: nat) returns (sum: nat)
    requires len <= CACHE_LINE * buf.Length
    ensures sum == SumLines(buf[..], (len + CACHE_LINE - 1) / CACHE_LINE)
  {
    sum := 0;
    var off := 0;
    ghost var n := 0;
    while off < len
      invariant off == CACHE_LINE * n && n <= (len + CACHE_LINE - 1) / CACHE_LINE
      invariant sum == SumLines(buf[..], n)
    {
      sum := (sum + buf[off / CACHE_LINE]) % U64;
      off, n := off + CACHE_LINE, n + 1;
    }
  }

  /** Reading back what was written gives the protocol's expected sum. */
  lemma {:induction false} ReadBack(lines: seq<nat>, stamp: nat, k: nat)
    requires k <= |lines| && Stamped(lines, stamp, k)
    ensures SumLines(lines, k) == LineSum(stamp, k)
  {
    if k > 0 { ReadBack(lines, stamp, k - 1); }
  }

  // ----- Subsampling -----

  function CeilDiv(a: nat, b: nat): nat
    requires b > 0
  {
    if a % b == 0 then a / b else a / b + 1
  }

  function SampleStride(iters: nat): nat {
    CeilDiv(iters, MAX_SAMPLES)
  }

  /** The smallest stride at which the buffer holds all iterations. */
  lemma {:induction false} StrideCovers(iters: nat)
    requires iters >= 1
    ensures 1 <= SampleStride(iters)
    ensures (SampleStride(iters) - 1) * MAX_SAMPLES < iters <= SampleStride(iters) * MAX_SAMPLES
  {
    assert iters == (iters / MAX_SAMPLES) * MAX_SAMPLES + iters % MAX_SAMPLES;
  }

  lemma {:induction false} NextMultiple(k: nat, n: nat, stride: nat)
    requires stride > 0 && n * stride >= k && (n == 0 || (n - 1) * stride < k) && (n == 0 ==> k == 0)
    ensures k % stride == 0 <==> k == n * stride
  {
    if k == n * stride {
      MultipleMod(n, stride);
    } else {
      var r := k - (n - 1) * stride;
      assert n * stride == (n - 1) * stride + stride;
      ModShift(n - 1, r, stride);
    }
  }

  lemma {:induction false} MultipleMod(n: nat, stride: nat)
    requires stride > 0
    ensures (n * stride) % stride == 0
  {
    ModShift(n, 0, stride);
  }

  lemma {:induction false} ModShift(n: nat, r: nat, stride: nat)
    requires r < stride
    ensures (n * stride + r) % stride == r
  {
    var x := n * stride + r;
    UniqueQuotient(n, r, x / stride, x % stride, stride);
  }

  lemma {:induction false} UniqueQuotient(n: nat, r: nat, q: nat, m: nat, stride: nat)
    requires r < stride && m < stride && n * stride + r == q * stride + m
    ensures n == q && r == m
  {
    if n < q {
      Multiples(n, q, stride);
    } else if q < n {
      Multiples(q, n, stride);
    }
  }

  lemma {:induction false} Multiples(n: nat, q: nat, stride: nat)
    requires n < q
    ensures n * stride + stride <= q * stride
  {
    assert q * stride == n * stride + (q - n) * stride;
    assert (q - n) * stride == stride + (q - n - 1) * stride;
  }

  lemma {:induction false} RoomLeft(n: nat, stride: nat, iters: nat)
    requires iters <= stride * MAX_SAMPLES
    ensures n * stride < iters ==> n < MAX_SAMPLES
  {
    if n >= MAX_SAMPLES { assert n * stride >= MAX_SAMPLES * stride; }
  }

  /** The client's sampling: every `stride`-th measured round trip is kept, evenly to the very
      end; the buffer bound never truncates. */
  method Sample(iters: nat, dts: seq<nat>) returns (samples: seq<nat>)
    requires iters >= 1 && |dts| == iters
    ensures var stride := SampleStride(iters);
      && |samples| <= MAX_SAMPLES
      && (|samples| - 1) * stride < iters <= |samples| * stride
      && forall q :: 0 <= q < |samples| ==> 0 <= q * stride < iters && samples[q] == dts[q * stride]
  {
    hide SampleStride;
    StrideCovers(iters);
    var stride := SampleStride(iters);
    samples := [];
    for k := 0 to iters
      invariant |samples| * stride >= k && (|samples| == 0 || (|samples| - 1) * stride < k)
      invariant |samples| == 0 ==> k == 0
      invariant |samples| <= MAX_SAMPLES
      invariant forall q :: 0 <= q < |samples| ==> 0 <= q * stride < k && samples[q] == dts[q * stride]
    {
      NextMultiple(k, |samples|, stride);
      RoomLeft(|samples|, stride, iters);
      assert (|samples| + 1) * stride == |samples| * stride + stride;
      if k % stride == 0 && |samples| < MAX_SAMPLES {
        samples := samples + [dts[k]];
      }
    }
  }
}
