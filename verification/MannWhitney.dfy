/** The Mann-Whitney U test of the benchmark analysis: the midrank form equals the
    pairwise definition, and the exact permutation p-value is a symmetric probability.
    All ranks and statistics are doubled, so they are integers. */
module MannWhitney {
  import opened Collections

  function Same(x: real): real {
    x
  }

  predicate Sorted(s: seq<real>) {
    SortedBy(s, Same)
  }

  // ----- Reference definition: pairwise comparison -----

  /** Twice the credit of one pair: a win counts two, a tie one. */
  function Score(x: real, y: real): nat {
    if x > y then 2 else if x == y then 1 else 0
  }

  /** Twice the number of values `x` beats, ties counting half. */
  function Beats(x: real, ys: seq<real>): nat {
    if ys == [] then 0 else Beats(x, ys[..|ys| - 1]) + Score(x, ys[|ys| - 1])
  }

  /** Twice U: every x against every y. */
  function PairU(xs: seq<real>, ys: seq<real>): nat {
    if xs == [] then 0 else PairU(xs[..|xs| - 1], ys) + Beats(xs[|xs| - 1], ys)
  }

  lemma {:induction false} BeatsConcat(x: real, s: seq<real>, t: seq<real>)
    ensures Beats(x, s + t) == Beats(x, s) + Beats(x, t)
  {
    if t == [] {
      assert s + t == s;
    } else {
      assert (s + t)[..|s + t| - 1] == s + t[..|t| - 1];
      BeatsConcat(x, s, t[..|t| - 1]);
    }
  }

  lemma {:induction false} BeatsPermuted(x: real, s: seq<real>, t: seq<real>)
    requires multiset(s) == multiset(t)
    ensures Beats(x, s) == Beats(x, t)
    decreases |s|
  {
    SameMembers(s, t);
    if s != [] {
      assert s[|s| - 1] in t;
      var i :| 0 <= i < |t| && t[i] == s[|s| - 1];
      DropLast(s);
      DropOne(t, i);
      BeatsPermuted(x, s[..|s| - 1], t[..i] + t[i + 1..]);
      BeatsTake(x, t, i);
    }
  }

  lemma {:induction false} BeatsTake(x: real, t: seq<real>, i: nat)
    requires i < |t|
    ensures Beats(x, t) == Beats(x, t[..i] + t[i + 1..]) + Score(x, t[i])
  {
    assert t == t[..i] + [t[i]] + t[i + 1..];
    BeatsConcat(x, t[..i], t[i + 1..]);
    BeatsConcat(x, t[..i] + [t[i]], t[i + 1..]);
    BeatsConcat(x, t[..i], [t[i]]);
    assert [t[i]][..0] == [];
  }

  /** Adding one value to the right-hand sample. */
  lemma {:induction false} PairRight(xs: seq<real>, ys: seq<real>, y: real)
    ensures PairU(xs, ys + [y]) + Beats(y, xs) == PairU(xs, ys) + 2 * |xs|
  {
    assert (ys + [y])[..|ys|] == ys;
    if xs != [] {
      PairRight(xs[..|xs| - 1], ys, y);
    }
  }

  /** Every value is counted once from each side: U(a, b) + U(b, a) = n1 n2. */
  lemma {:induction false} PairsSum(xs: seq<real>, ys: seq<real>)
    ensures PairU(xs, ys) + PairU(ys, xs) == 2 * (|xs| * |ys|)
  {
    if ys == [] {
      NothingToBeat(xs);
    } else {
      var n := |ys| - 1;
      PairsSum(xs, ys[..n]);
      PairRight(xs, ys[..n], ys[n]);
      assert ys == ys[..n] + [ys[n]];
      TimesNext(|xs|, n);
    }
  }

  lemma {:induction false} TimesNext(m: nat, n: nat)
    ensures m * (n + 1) == m * n + m
  {
  }

  lemma {:induction false} NothingToBeat(xs: seq<real>)
    ensures PairU(xs, []) == 0
  {
    if xs != [] { NothingToBeat(xs[..|xs| - 1]); }
  }

  // ----- The midrank form -----

  /** Twice the 1-based midrank of `x` in the pool. */
  function Midrank(pooled: seq<real>, x: real): nat {
    Beats(x, pooled) + 1
  }

  function RankSum(xs: seq<real>, pooled: seq<real>): nat {
    if xs == [] then 0 else RankSum(xs[..|xs| - 1], pooled) + Midrank(pooled, xs[|xs| - 1])
  }

  /** Twice the rank-sum statistic. */
  function RankU(xs: seq<real>, pooled: seq<real>): int {
    RankSum(xs, pooled) - |xs| * (|xs| + 1)
  }

  lemma {:induction false} RankSumSplits(zs: seq<real>, xs: seq<real>, ys: seq<real>, pooled: seq<real>)
    requires multiset(pooled) == multiset(xs + ys)
    ensures RankSum(zs, pooled) == PairU(zs, xs) + PairU(zs, ys) + |zs|
  {
    if zs != [] {
      RankSumSplits(zs[..|zs| - 1], xs, ys, pooled);
      BeatsPermuted(zs[|zs| - 1], pooled, xs + ys);
      BeatsConcat(zs[|zs| - 1], xs, ys);
    }
  }

  /** The rank form equals the pairwise form, ties included. */
  lemma {:induction false} RankEqualsPairs(xs: seq<real>, ys: seq<real>, pooled: seq<real>)
    requires multiset(pooled) == multiset(xs + ys)
    ensures RankU(xs, pooled) == PairU(xs, ys)
  {
    RankSumSplits(xs, xs, ys, pooled);
    PairsSum(xs, xs);
    assert |xs| * (|xs| + 1) == |xs| * |xs| + |xs|;
  }

  /** A run of ties in a sorted pool: everything before is beaten, the run itself is tied. */
  lemma {:induction false} RunBeats(pooled: seq<real>, i: nat, j: nat, n: nat)
    requires i < j <= |pooled| && n <= |pooled|
    requires forall k :: 0 <= k < i ==> pooled[k] < pooled[i]
    requires forall k :: i <= k < j ==> pooled[k] == pooled[i]
    requires forall k :: j <= k < |pooled| ==> pooled[k] > pooled[i]
    ensures Beats(pooled[i], pooled[..n]) == if n <= i then 2 * n else if n <= j then i + n else i + j
  {
    if n > 0 {
      RunBeats(pooled, i, j, n - 1);
      assert pooled[..n][..n - 1] == pooled[..n - 1];
    }
  }

  /** `u_stat`: midranks from runs of ties, then the rank sum less its minimum. */
  method UStat(xs: seq<real>, pooled: seq<real>) returns (u: int)
    requires Sorted(pooled) && forall x :: x in xs ==> x in pooled
    ensures u == RankU(xs, pooled)
  {
    var ranks: map<real, nat> := map[];
    var i := 0;
    while i < |pooled|
      invariant 0 <= i <= |pooled|
      invariant forall k :: 0 <= k < i ==> pooled[k] in ranks
      invariant forall v :: v in ranks ==> ranks[v] == Midrank(pooled, v)
      invariant i < |pooled| ==> forall k :: 0 <= k < i ==> pooled[k] < pooled[i]
    {
      var j := RunEnd(pooled, i);
      RunBeats(pooled, i, j, |pooled|);
      assert pooled[..|pooled|] == pooled;
      ranks := ranks[pooled[i] := i + j + 1];
      i := j;
    }
    var r := 0;
    for k := 0 to |xs|
      invariant r == RankSum(xs[..k], pooled)
    {
      assert xs[..k + 1][..k] == xs[..k];
      assert xs[k] in xs;
      ghost var m :| 0 <= m < |pooled| && pooled[m] == xs[k];
      r := r + ranks[xs[k]];
    }
    assert xs[..|xs|] == xs;
    u := r - |xs| * (|xs| + 1);
  }

  /** The end of the run of ties that starts at `i`. */
  method RunEnd(pooled: seq<real>, i: nat) returns (j: nat)
    requires Sorted(pooled) && i < |pooled|
    ensures i < j <= |pooled|
    ensures forall k :: i <= k < j ==> pooled[k] == pooled[i]
    ensures forall k :: j <= k < |pooled| ==> pooled[k] > pooled[i]
    ensures j < |pooled| ==> forall k :: 0 <= k < j ==> pooled[k] < pooled[j]
  {
    j := i;
    while j < |pooled| && pooled[j] == pooled[i]
      invariant i <= j <= |pooled|
      invariant forall k :: i <= k < j ==> pooled[k] == pooled[i]
    {
      j := j + 1;
    }
    OrderAround(pooled, i, j);
  }

  lemma {:induction false} OrderAround(pooled: seq<real>, i: nat, j: nat)
    requires Sorted(pooled) && i < j <= |pooled|
    requires forall k :: i <= k < j ==> pooled[k] == pooled[i]
    requires j < |pooled| ==> pooled[j] != pooled[i]
    ensures forall k :: j <= k < |pooled| ==> pooled[k] > pooled[i]
    ensures j < |pooled| ==> forall k :: 0 <= k < j ==> pooled[k] < pooled[j]
  {
    if j < |pooled| {
      assert Same(pooled[i]) <= Same(pooled[j]);
      forall k | j < k < |pooled| ensures pooled[j] <= pooled[k] { assert Same(pooled[j]) <= Same(pooled[k]); }
      forall k | 0 <= k < i ensures pooled[k] <= pooled[i] { assert Same(pooled[k]) <= Same(pooled[i]); }
    }
  }

  // ----- Enumerating assignments -----

  function Range(n: nat): (r: set<nat>)
    ensures forall i :: i in r <==> 0 <= i < n
    ensures |r| == n
  {
    if n == 0 then {} else Range(n - 1) + {n - 1}
  }

  /** `combinations(range(n), k)`. */
  function Choose(n: nat, k: nat): set<set<nat>> {
    if k == 0 then {{}}
    else if n == 0 then {}
    else Choose(n - 1, k) + With(n - 1, Choose(n - 1, k - 1))
  }

  function With(x: nat, sets: set<set<nat>>): set<set<nat>> {
    set s | s in sets :: s + {x}
  }

  ghost predicate Avoids(x: nat, sets: set<set<nat>>) {
    forall t :: t in sets ==> x !in t
  }

  lemma {:induction false} WithMember(x: nat, sets: set<set<nat>>, s: set<nat>)
    requires Avoids(x, sets)
    ensures s in With(x, sets) <==> x in s && s - {x} in sets
  {
    if s in With(x, sets) {
      var t :| t in sets && s == t + {x};
      assert s - {x} == t;
    }
    if x in s && s - {x} in sets {
      assert s == (s - {x}) + {x};
    }
  }

  lemma {:induction false} ChooseAvoids(n: nat, k: nat, x: nat)
    requires x >= n
    ensures Avoids(x, Choose(n, k))
  {
    if k > 0 && n > 0 {
      ChooseAvoids(n - 1, k, x);
      ChooseAvoids(n - 1, k - 1, x);
    }
  }

  lemma {:induction false} ChooseUnfold(n: nat, k: nat, s: set<nat>)
    ensures k == 0 ==> (s in Choose(n, k) <==> s == {})
    ensures k > 0 && n == 0 ==> s !in Choose(n, k)
    ensures k > 0 && n > 0 ==> (s in Choose(n, k) <==> s in Choose(n - 1, k) || s in With(n - 1, Choose(n - 1, k - 1)))
  {
    hide With;
  }

  /** Exactly the index sets of size `k`. */
  lemma {:induction false} ChooseMember(n: nat, k: nat, s: set<nat>)
    ensures s in Choose(n, k) <==> s <= Range(n) && |s| == k
    decreases n
  {
    hide Avoids, Range, Choose, With;
    ChooseUnfold(n, k, s);
    if k > 0 && n > 0 {
      ChooseMember(n - 1, k, s);
      ChooseMember(n - 1, k - 1, s - {n - 1});
      ChooseAvoids(n - 1, k - 1, n - 1);
      WithMember(n - 1, Choose(n - 1, k - 1), s);
      RangeNext(n, s);
    }
  }

  lemma {:induction false} RangeNext(n: nat, s: set<nat>)
    requires n > 0
    ensures n - 1 in s ==> (s <= Range(n) <==> s - {n - 1} <= Range(n - 1)) && |s - {n - 1}| == |s| - 1
    ensures n - 1 !in s ==> (s <= Range(n) <==> s <= Range(n - 1))
    ensures s <= Range(n - 1) ==> n - 1 !in s
  {
  }

  /** Pascal's triangle: `math.comb`. */
  function Comb(n: nat, k: nat): nat {
    if k == 0 then 1 else if n == 0 then 0 else Comb(n - 1, k) + Comb(n - 1, k - 1)
  }

  lemma {:induction false} WithSize(x: nat, sets: set<set<nat>>)
    requires Avoids(x, sets)
    ensures |With(x, sets)| == |sets|
  {
    if sets == {} {
      assert With(x, sets) == {};
    } else {
      var t :| t in sets;
      WithSize(x, sets - {t});
      WithInsert(x, sets, t);
      hide With;
    }
  }

  lemma {:induction false} WithInsert(x: nat, sets: set<set<nat>>, t: set<nat>)
    requires Avoids(x, sets) && t in sets
    ensures With(x, sets) == With(x, sets - {t}) + {t + {x}}
    ensures t + {x} !in With(x, sets - {t})
  {
    forall s ensures s in With(x, sets) <==> s in With(x, sets - {t}) || s == t + {x} {
      WithMember(x, sets, s);
      WithMember(x, sets - {t}, s);
      assert s == t + {x} <==> x in s && s - {x} == t;
    }
    hide With;
  }

  lemma {:induction false} DisjointSize<T>(a: set<T>, b: set<T>)
    requires a !! b
    ensures |a + b| == |a| + |b|
  {
  }

  lemma {:induction false} ChooseSize(n: nat, k: nat)
    ensures |Choose(n, k)| == Comb(n, k)
  {
    hide Choose;
    ChooseBase(n, k);
    if k > 0 && n > 0 {
      ChooseSize(n - 1, k);
      ChooseSize(n - 1, k - 1);
      ChooseSplits(n, k);
    }
  }

  lemma {:induction false} ChooseBase(n: nat, k: nat)
    ensures k == 0 ==> |Choose(n, k)| == 1
    ensures k > 0 && n == 0 ==> |Choose(n, k)| == 0
  {
  }

  lemma {:induction false} ChooseSplits(n: nat, k: nat)
    requires n > 0 && k > 0
    ensures |Choose(n, k)| == |Choose(n - 1, k)| + |Choose(n - 1, k - 1)|
  {
    hide With, Avoids;
    var skip, take := Choose(n - 1, k), Choose(n - 1, k - 1);
    ChooseAvoids(n - 1, k, n - 1);
    ChooseAvoids(n - 1, k - 1, n - 1);
    WithSize(n - 1, take);
    WithDisjoint(n - 1, skip, take);
    DisjointSize(skip, With(n - 1, take));
  }

  lemma {:induction false} WithDisjoint(x: nat, skip: set<set<nat>>, take: set<set<nat>>)
    requires Avoids(x, skip) && Avoids(x, take)
    ensures skip !! With(x, take)
  {
    hide With;
    forall s | s in skip ensures s !in With(x, take) { WithMember(x, take, s); }
  }

  /** The pooled values at the chosen indices. */
  function Pick(pooled: seq<real>, idx: set<nat>, n: nat): (r: seq<real>)
    requires n <= |pooled|
    ensures forall x :: x in r ==> x in pooled
  {
    if n == 0 then []
    else
      assert pooled[n - 1] in pooled;
      Pick(pooled, idx, n - 1) + (if n - 1 in idx then [pooled[n - 1]] else [])
  }

  lemma {:induction false} PickSize(pooled: seq<real>, idx: set<nat>, n: nat)
    requires n <= |pooled|
    ensures |Pick(pooled, idx, n)| == |idx * Range(n)|
  {
    if n == 0 {
      assert idx * Range(0) == {};
    } else {
      PickSize(pooled, idx, n - 1);
      if n - 1 in idx {
        assert idx * Range(n) == idx * Range(n - 1) + {n - 1};
      } else {
        assert idx * Range(n) == idx * Range(n - 1);
      }
    }
  }

  /** A selection and its complement make up the pool. */
  lemma {:induction false} PickSplits(pooled: seq<real>, idx: set<nat>, co: set<nat>, n: nat)
    requires n <= |pooled| && forall i :: 0 <= i < n ==> (i in idx <==> i !in co)
    ensures multiset(pooled[..n]) == multiset(Pick(pooled, idx, n)) + multiset(Pick(pooled, co, n))
  {
    hide Pick;
    PickNone(pooled, idx);
    PickNone(pooled, co);
    if n > 0 {
      PickSplits(pooled, idx, co, n - 1);
      PickNext(pooled, idx, n);
      PickNext(pooled, co, n);
      DropLast(pooled[..n]);
      assert pooled[..n][..n - 1] == pooled[..n - 1];
    }
  }

  lemma {:induction false} PickNone(pooled: seq<real>, idx: set<nat>)
    ensures Pick(pooled, idx, 0) == []
  {
  }

  lemma {:induction false} PickNext(pooled: seq<real>, idx: set<nat>, n: nat)
    requires 0 < n <= |pooled|
    ensures multiset(Pick(pooled, idx, n)) ==
            multiset(Pick(pooled, idx, n - 1)) + (if n - 1 in idx then multiset{pooled[n - 1]} else multiset{})
    ensures n - 1 !in idx ==> Pick(pooled, idx, n) == Pick(pooled, idx, n - 1)
  {
  }

  // ----- The exact p-value -----

  function Distance(x: int, y: int): nat {
    if x >= y then x - y else y - x
  }

  /** How far from its mean the statistic of one assignment lies, doubled. */
  function Deviation(pooled: seq<real>, idx: set<nat>): nat
  {
    var xs := Pick(pooled, idx, |pooled|);
    Distance(RankU(xs, pooled), |xs| * (|pooled| - |xs|))
  }

  lemma {:induction false} MirrorDistance(u: int, v: int, m: int)
    requires u + v == 2 * m
    ensures Distance(u, m) == Distance(v, m)
  {
  }

  /** Assigning the complement to the first group deviates exactly as much. */
  lemma {:induction false} ComplementDeviates(pooled: seq<real>, idx: set<nat>)
    requires idx <= Range(|pooled|)
    ensures Deviation(pooled, Range(|pooled|) - idx) == Deviation(pooled, idx)
  {
    hide Pick, RankU, PairU, Distance, Range;
    var n := |pooled|;
    var co := Range(n) - idx;
    var xs, ys := Pick(pooled, idx, n), Pick(pooled, co, n);
    PickSplits(pooled, idx, co, n);
    assert pooled[..n] == pooled;
    SplitStatistics(pooled, xs, ys);
    MirrorDistance(RankU(xs, pooled), RankU(ys, pooled), |xs| * |ys|);
  }

  lemma {:induction false} SplitStatistics(pooled: seq<real>, xs: seq<real>, ys: seq<real>)
    requires multiset(pooled) == multiset(xs) + multiset(ys)
    ensures |xs| + |ys| == |pooled|
    ensures |xs| * |ys| == |ys| * |xs|
    ensures RankU(xs, pooled) + RankU(ys, pooled) == 2 * (|xs| * |ys|)
  {
    hide RankU, PairU;
    assert |multiset(pooled)| == |multiset(xs)| + |multiset(ys)|;
    assert multiset(xs + ys) == multiset(xs) + multiset(ys);
    assert multiset(ys + xs) == multiset(xs) + multiset(ys);
    RankEqualsPairs(xs, ys, pooled);
    RankEqualsPairs(ys, xs, pooled);
    PairsSum(xs, ys);
  }

  /** The assignments at least as extreme as `obs`. */
  function Extremes(pooled: seq<real>, k: nat, obs: nat): set<set<nat>> {
    set idx | idx in Choose(|pooled|, k) && Deviation(pooled, idx) >= obs
  }

  lemma {:induction false} ImageSize(a: set<set<nat>>, b: set<set<nat>>, all: set<nat>)
    requires forall s :: s in a ==> s <= all && all - s in b
    ensures |a| <= |b|
  {
    if a != {} {
      var s :| s in a;
      forall t | t in a - {s} ensures t <= all && all - t in b - {all - s} {
        assert all - (all - t) == t && all - (all - s) == s;
      }
      ImageSize(a - {s}, b - {all - s}, all);
    }
  }

  lemma {:induction false} ComplementExtreme(pooled: seq<real>, k: nat, obs: nat, idx: set<nat>)
    requires k <= |pooled| && idx in Extremes(pooled, k, obs)
    ensures idx <= Range(|pooled|) && Range(|pooled|) - idx in Extremes(pooled, |pooled| - k, obs)
  {
    hide Deviation, Choose;
    var n := |pooled|;
    ChooseMember(n, k, idx);
    ComplementDeviates(pooled, idx);
    assert |Range(n) - idx| == n - k;
    ChooseMember(n, n - k, Range(n) - idx);
  }

  /** An assignment is extreme in pairwise terms: it picks `k` of the values, and among all pairs of a picked
      and an unpicked value, the wins with half the ties differ from half the pairs by at least the observed
      distance, in either direction. */
  lemma {:induction false} ExtremesMean(pooled: seq<real>, k: nat, obs: nat, idx: set<nat>)
    ensures var n := |pooled|; var xs, ys := Pick(pooled, idx, n), Pick(pooled, Range(n) - idx, n);
      idx in Extremes(pooled, k, obs) <==>
        && (forall i :: i in idx ==> i < n) && |idx| == k
        && (PairU(xs, ys) - |xs| * |ys| >= obs || |xs| * |ys| - PairU(xs, ys) >= obs)
  {
    hide Pick, RankU, PairU, Choose;
    var n := |pooled|;
    ChooseMember(n, k, idx);
    var co := Range(n) - idx;
    PickSplits(pooled, idx, co, n);
    assert pooled[..n] == pooled;
    var xs, ys := Pick(pooled, idx, n), Pick(pooled, co, n);
    SplitStatistics(pooled, xs, ys);
    assert multiset(xs + ys) == multiset(xs) + multiset(ys);
    RankEqualsPairs(xs, ys, pooled);
    hide Range;
  }

  /** As many extreme assignments for one group as for the other. */
  lemma {:induction false} ExtremesSymmetric(pooled: seq<real>, k: nat, obs: nat)
    requires k <= |pooled|
    ensures |Extremes(pooled, k, obs)| == |Extremes(pooled, |pooled| - k, obs)|
    ensures Comb(|pooled|, k) == Comb(|pooled|, |pooled| - k)
  {
    hide Extremes, Choose, Comb;
    var n := |pooled|;
    ExtremesAtMost(pooled, k, obs);
    ExtremesAtMost(pooled, n - k, obs);
    ExtremesAtMost(pooled, k, 0);
    ExtremesAtMost(pooled, n - k, 0);
    AllExtreme(pooled, k);
    AllExtreme(pooled, n - k);
  }

  lemma {:induction false} AllExtreme(pooled: seq<real>, k: nat)
    ensures |Extremes(pooled, k, 0)| == Comb(|pooled|, k)
  {
    hide Deviation, Choose, Comb;
    assert Extremes(pooled, k, 0) == Choose(|pooled|, k);
    ChooseSize(|pooled|, k);
  }

  lemma {:induction false} ExtremesAtMost(pooled: seq<real>, k: nat, obs: nat)
    requires k <= |pooled|
    ensures |Extremes(pooled, k, obs)| <= |Extremes(pooled, |pooled| - k, obs)|
  {
    hide Extremes, Range;
    forall idx | idx in Extremes(pooled, k, obs)
      ensures idx <= Range(|pooled|) && Range(|pooled|) - idx in Extremes(pooled, |pooled| - k, obs)
    {
      ComplementExtreme(pooled, k, obs, idx);
    }
    ImageSize(Extremes(pooled, k, obs), Extremes(pooled, |pooled| - k, obs), Range(|pooled|));
  }

  /** `idx` selects exactly `part` from the first `n` values. */
  ghost predicate Selects(pooled: seq<real>, part: multiset<real>, n: nat, idx: set<nat>)
    requires n <= |pooled|
  {
    idx <= Range(n) && multiset(Pick(pooled, idx, n)) == part && |idx| == |part|
  }

  lemma {:induction false} SelectNext(pooled: seq<real>, part: multiset<real>, n: nat, idx: set<nat>)
    requires 0 < n <= |pooled| && Selects(pooled, part, n - 1, idx)
    ensures Selects(pooled, part, n, idx)
    ensures Selects(pooled, part + multiset{pooled[n - 1]}, n, idx + {n - 1})
  {
    hide Pick, Range;
    assert n - 1 !in idx;
    PickNext(pooled, idx, n);
    PickNext(pooled, idx + {n - 1}, n);
    PickFrame(pooled, idx, idx + {n - 1}, n - 1);
  }

  /** Any part of the pool is the selection of some index set. */
  lemma {:induction false} Embed(pooled: seq<real>, part: multiset<real>, n: nat) returns (idx: set<nat>)
    requires n <= |pooled| && part <= Prefix(pooled, n)
    ensures Selects(pooled, part, n, idx)
  {
    hide Selects, Prefix;
    if n == 0 {
      idx := {};
      SelectNone(pooled, part);
    } else {
      PrefixNext(pooled, n);
      var x := pooled[n - 1];
      if x in part {
        WithoutIs(part, Prefix(pooled, n - 1), x);
        var rest := Without(part, x);
        idx := Embed(pooled, rest, n - 1);
        SelectNext(pooled, rest, n, idx);
        idx := idx + {n - 1};
      } else {
        NotIn(part, Prefix(pooled, n - 1), x);
        idx := Embed(pooled, part, n - 1);
        SelectNext(pooled, part, n, idx);
      }
    }
  }

  ghost function Prefix(pooled: seq<real>, n: nat): multiset<real>
    requires n <= |pooled|
  {
    multiset(pooled[..n])
  }

  ghost function Without(part: multiset<real>, x: real): multiset<real> {
    part - multiset{x}
  }

  lemma {:induction false} PrefixNext(pooled: seq<real>, n: nat)
    requires 0 < n <= |pooled|
    ensures Prefix(pooled, n) == Prefix(pooled, n - 1) + multiset{pooled[n - 1]}
  {
    assert pooled[..n] == pooled[..n - 1] + [pooled[n - 1]];
  }

  lemma {:induction false} SelectNone(pooled: seq<real>, part: multiset<real>)
    requires part <= Prefix(pooled, 0)
    ensures Selects(pooled, part, 0, {})
  {
    assert part == multiset{};
  }

  lemma {:induction false} WithoutIs(part: multiset<real>, whole: multiset<real>, x: real)
    requires part <= whole + multiset{x} && x in part
    ensures Without(part, x) <= whole && Without(part, x) + multiset{x} == part
  {
  }

  lemma {:induction false} NotIn(part: multiset<real>, whole: multiset<real>, x: real)
    requires part <= whole + multiset{x} && x !in part
    ensures part <= whole
  {
    forall y ensures part[y] <= whole[y] {}
  }

  lemma {:induction false} PickFrame(pooled: seq<real>, a: set<nat>, b: set<nat>, n: nat)
    requires n <= |pooled| && forall i :: 0 <= i < n ==> (i in a <==> i in b)
    ensures Pick(pooled, a, n) == Pick(pooled, b, n)
  {
    if n > 0 { PickFrame(pooled, a, b, n - 1); }
  }

  lemma {:induction false} RankSumPermuted(s: seq<real>, t: seq<real>, pooled: seq<real>)
    requires multiset(s) == multiset(t)
    ensures RankSum(s, pooled) == RankSum(t, pooled)
    decreases |s|
  {
    SameMembers(s, t);
    if s != [] {
      assert s[|s| - 1] in t;
      var i :| 0 <= i < |t| && t[i] == s[|s| - 1];
      DropLast(s);
      DropOne(t, i);
      RankSumPermuted(s[..|s| - 1], t[..i] + t[i + 1..], pooled);
      RankSumTake(t, i, pooled);
    }
  }

  lemma {:induction false} RankSumTake(t: seq<real>, i: nat, pooled: seq<real>)
    requires i < |t|
    ensures RankSum(t, pooled) == RankSum(t[..i] + t[i + 1..], pooled) + Midrank(pooled, t[i])
    decreases |t|
  {
    var n := |t| - 1;
    var rest := t[..i] + t[i + 1..];
    if i == n {
      assert rest == t[..n];
    } else {
      RankSumTake(t[..n], i, pooled);
      assert t[..n][..i] + t[..n][i + 1..] == rest[..|rest| - 1];
    }
  }

  /** The observed split is one of the enumerated ones, so at least one is as extreme. */
  lemma {:induction false} ObservedIsExtreme(a: seq<real>, b: seq<real>, pooled: seq<real>)
    requires multiset(pooled) == multiset(a + b)
    ensures |Extremes(pooled, |a|, Distance(RankU(a, pooled), |a| * |b|))| >= 1
  {
    hide Choose, RankSum, Range, Pick;
    var n := |pooled|;
    assert pooled[..n] == pooled && multiset(a + b) == multiset(a) + multiset(b);
    SameMembers(pooled, a + b);
    var idx := Embed(pooled, multiset(a), n);
    ChooseMember(n, |a|, idx);
    var xs := Pick(pooled, idx, n);
    SameMembers(xs, a);
    RankSumPermuted(xs, a, pooled);
    assert idx in Extremes(pooled, |a|, Distance(RankU(a, pooled), |a| * |b|));
  }

  lemma {:induction false} LastIsMax(s: seq<real>, x: real)
    requires Sorted(s) && x in s
    ensures x <= s[|s| - 1]
  {
    var i :| 0 <= i < |s| && s[i] == x;
    assert i == |s| - 1 || Same(s[i]) <= Same(s[|s| - 1]);
  }

  lemma {:induction false} SortedPrefix(s: seq<real>, n: nat)
    requires Sorted(s) && n <= |s|
    ensures Sorted(s[..n])
  {
  }

  /** Two sorted arrangements of the same values are the same. */
  lemma {:induction false} SortedUnique(s: seq<real>, t: seq<real>)
    requires Sorted(s) && Sorted(t) && multiset(s) == multiset(t)
    ensures s == t
  {
    hide Sorted;
    SameMembers(s, t);
    if s != [] {
      var n := |s| - 1;
      SameLast(s, t);
      DropLast(s);
      DropLast(t);
      SortedPrefix(s, n);
      SortedPrefix(t, n);
      SortedUnique(s[..n], t[..n]);
      assert s == s[..n] + [s[n]] && t == t[..n] + [t[n]];
    }
  }

  lemma {:induction false} SameLast(s: seq<real>, t: seq<real>)
    requires Sorted(s) && Sorted(t) && multiset(s) == multiset(t) && s != []
    ensures |s| == |t| && s[|s| - 1] == t[|t| - 1]
  {
    hide Sorted;
    SameMembers(s, t);
    LastIsMax(s, t[|t| - 1]);
    LastIsMax(t, s[|s| - 1]);
  }

  // ----- The tie correction of the normal approximation -----

  /** How many values of the pool equal `x`. */
  function Tied(x: real, s: seq<real>): nat {
    if s == [] then 0 else Tied(x, s[..|s| - 1]) + (if s[|s| - 1] == x then 1 else 0)
  }

  /** Reference form of the tie term over the first `n` values, without runs: each value adds the
      square of its multiplicity less one. */
  function TieSum(pooled: seq<real>, n: nat): int
    requires n <= |pooled|
  {
    if n == 0 then 0
    else TieSum(pooled, n - 1) + Tied(pooled[n - 1], pooled) * Tied(pooled[n - 1], pooled) - 1
  }

  lemma {:induction false} RunTied(pooled: seq<real>, i: nat, j: nat, n: nat)
    requires i < j <= |pooled| && n <= |pooled|
    requires forall k :: 0 <= k < |pooled| ==> (pooled[k] == pooled[i] <==> i <= k < j)
    ensures Tied(pooled[i], pooled[..n]) == if n <= i then 0 else if n <= j then n - i else j - i
  {
    if n > 0 {
      RunTied(pooled, i, j, n - 1);
      assert pooled[..n][..n - 1] == pooled[..n - 1];
    }
  }

  lemma {:induction false} RunAdds(pooled: seq<real>, i: nat, n: nat, share: int)
    requires i <= n <= |pooled|
    requires forall k :: i <= k < n ==> Tied(pooled[k], pooled) * Tied(pooled[k], pooled) - 1 == share
    ensures TieSum(pooled, n) == TieSum(pooled, i) + (n - i) * share
  {
    if i < n {
      RunAdds(pooled, i, n - 1, share);
      assert (n - i) * share == (n - 1 - i) * share + share;
    }
  }

  lemma {:induction false} TieSumNone(pooled: seq<real>)
    ensures TieSum(pooled, 0) == 0
  {
  }

  /** A run of length t adds t cubed less t. */
  lemma {:induction false} RunTerm(pooled: seq<real>, i: nat, j: nat)
    requires i < j <= |pooled|
    requires forall k :: 0 <= k < |pooled| ==> (pooled[k] == pooled[i] <==> i <= k < j)
    ensures var t := j - i; TieSum(pooled, j) == TieSum(pooled, i) + t * t * t - t
  {
    hide TieSum;
    var t := j - i;
    RunTied(pooled, i, j, |pooled|);
    assert pooled[..|pooled|] == pooled;
    RunAdds(pooled, i, j, t * t - 1);
    assert t * t * t - t == t * (t * t - 1);
  }

  /** The tie term as the run loop computes it: the cube of every run's length less its length. */
  method TieTerm(pooled: seq<real>) returns (tie: int)
    requires Sorted(pooled)
    ensures tie == TieSum(pooled, |pooled|)
  {
    hide Sorted, TieSum;
    tie := 0;
    TieSumNone(pooled);
    var i := 0;
    while i < |pooled|
      invariant 0 <= i <= |pooled| && tie == TieSum(pooled, i)
      invariant i < |pooled| ==> forall k :: 0 <= k < i ==> pooled[k] < pooled[i]
    {
      var j := RunEnd(pooled, i);
      var t := j - i;
      RunTerm(pooled, i, j);
      tie := tie + t * t * t - t;
      i := j;
    }
  }

  lemma {:induction false} TiedAtMost(x: real, s: seq<real>)
    ensures Tied(x, s) <= |s|
    ensures Tied(x, s) == |s| <==> forall k :: 0 <= k < |s| ==> s[k] == x
  {
    if s != [] {
      var n := |s| - 1;
      TiedAtMost(x, s[..n]);
      assert forall k :: 0 <= k < n ==> s[..n][k] == s[k];
    }
  }

  ghost predicate AllEqual(s: seq<real>) {
    forall i, j :: 0 <= i < j < |s| ==> s[i] == s[j]
  }

  /** The tie term is largest for a single run, and only then. */
  lemma {:induction false} TieSumAtMost(pooled: seq<real>, n: nat)
    requires 0 < n <= |pooled|
    ensures TieSum(pooled, n) <= n * (|pooled| * |pooled| - 1)
    ensures TieSum(pooled, n) == n * (|pooled| * |pooled| - 1) <==>
            forall k :: 0 <= k < n ==> Tied(pooled[k], pooled) == |pooled|
  {
    var m, t := |pooled|, Tied(pooled[n - 1], pooled);
    TiedAtMost(pooled[n - 1], pooled);
    SquareAtMost(t, m);
    assert n * (m * m - 1) == (n - 1) * (m * m - 1) + (m * m - 1);
    if n > 1 { TieSumAtMost(pooled, n - 1); }
  }

  function MaxTies(n: nat): int {
    n * (n * n - 1)
  }

  lemma {:induction false} TiesAtMost(pooled: seq<real>)
    requires pooled != []
    ensures TieSum(pooled, |pooled|) <= MaxTies(|pooled|)
    ensures TieSum(pooled, |pooled|) == MaxTies(|pooled|) <==> AllEqual(pooled)
  {
    hide TieSum, Tied;
    TieSumAtMost(pooled, |pooled|);
    AllEqualWhen(pooled);
  }

  lemma {:induction false} AllEqualWhen(pooled: seq<real>)
    ensures AllEqual(pooled) <==> forall k :: 0 <= k < |pooled| ==> Tied(pooled[k], pooled) == |pooled|
  {
    hide Tied;
    forall k | 0 <= k < |pooled|
      ensures Tied(pooled[k], pooled) == |pooled| <==> forall i :: 0 <= i < |pooled| ==> pooled[i] == pooled[k]
    {
      TiedAtMost(pooled[k], pooled);
    }
  }

  lemma {:induction false} SquareAtMost(t: nat, m: nat)
    requires t <= m
    ensures t * t <= m * m && (t * t == m * m <==> t == m)
  {
    if t < m {
      assert t * t <= t * m < m * m;
    }
  }

  /** The factor ties take from the variance: positive unless there is nothing but ties. */
  function TieFactor(n: nat, tie: int): real
    requires n >= 2
  {
    assert n * (n - 1) > 0;
    (n + 1) as real - tie as real / (n * (n - 1)) as real
  }

  /** The variance of U under ties. */
  function Variance(n1: nat, n2: nat, tie: int): real
    requires n1 > 0 && n2 > 0
  {
    (n1 * n2) as real / 12.0 * TieFactor(n1 + n2, tie)
  }

  lemma {:induction false} TieFactorSign(n: nat, tie: int)
    requires n >= 2
    ensures TieFactor(n, tie) > 0.0 <==> tie < MaxTies(n)
  {
    hide MaxTies;
    MaxTiesAs(n);
    QuotientBelow(tie, n * (n - 1), n + 1);
  }

  lemma {:induction false} MaxTiesAs(n: nat)
    requires n >= 2
    ensures n * (n - 1) > 0 && MaxTies(n) == (n + 1) * (n * (n - 1))
  {
  }

  lemma {:induction false} VarianceSign(n1: nat, n2: nat, tie: int)
    requires n1 > 0 && n2 > 0
    ensures Variance(n1, n2, tie) > 0.0 <==> tie < MaxTies(n1 + n2)
  {
    hide TieFactor, MaxTies;
    TieFactorSign(n1 + n2, tie);
    assert n1 * n2 > 0;
    assert (n1 * n2) as real > 0.0;
    ProductSign((n1 * n2) as real / 12.0, TieFactor(n1 + n2, tie));
  }

  /** The variance in the textbook form, cleared of fractions. */
  lemma {:induction false} VarianceMeans(n1: nat, n2: nat, tie: int)
    requires n1 > 0 && n2 > 0
    ensures var n := n1 + n2;
      && 12.0 * Variance(n1, n2, tie) == (n1 * n2) as real * TieFactor(n, tie)
      && TieFactor(n, tie) * (n * (n - 1)) as real == ((n + 1) * (n * (n - 1)) - tie) as real
  {
    hide TieFactor, Variance;
    FactorTimes(n1 + n2, tie);
    VarianceTimes(n1, n2, tie);
  }

  lemma {:induction false} VarianceTimes(n1: nat, n2: nat, tie: int)
    requires n1 > 0 && n2 > 0
    ensures 12.0 * Variance(n1, n2, tie) == (n1 * n2) as real * TieFactor(n1 + n2, tie)
  {
    hide TieFactor;
    Twelfth((n1 * n2) as real, TieFactor(n1 + n2, tie));
  }

  lemma {:induction false} Twelfth(c: real, x: real)
    ensures 12.0 * (c / 12.0 * x) == c * x
  {
  }

  lemma {:induction false} FactorTimes(n: nat, tie: int)
    requires n >= 2
    ensures TieFactor(n, tie) * (n * (n - 1)) as real == ((n + 1) * (n * (n - 1)) - tie) as real
  {
    MaxTiesAs(n);
    var d := n * (n - 1);
    var q := tie as real / d as real;
    assert q * d as real == tie as real;
    SubtractQuotient(n + 1, d, q);
  }

  lemma {:induction false} SubtractQuotient(m: int, d: int, q: real)
    ensures (m as real - q) * d as real == (m * d) as real - q * d as real
  {
    assert (m * d) as real == m as real * d as real;
  }

  lemma {:induction false} QuotientBelow(x: int, d: int, y: int)
    requires d > 0
    ensures x as real / d as real < y as real <==> x < y * d
  {
    var q := x as real / d as real;
    assert q * d as real == x as real;
    assert (y * d) as real == y as real * d as real;
    ProductSign(d as real, y as real - q);
    assert d as real * (y as real - q) == (y * d) as real - x as real;
  }

  lemma {:induction false} ProductSign(c: real, x: real)
    requires c > 0.0
    ensures c * x > 0.0 <==> x > 0.0
  {
  }

  /** The corrected variance vanishes exactly when all pooled values are equal. */
  lemma {:induction false} VarianceVanishesWhen(pooled: seq<real>, n1: nat, n2: nat)
    requires n1 > 0 && n2 > 0 && |pooled| == n1 + n2
    ensures Variance(n1, n2, TieSum(pooled, |pooled|)) <= 0.0 <==> AllEqual(pooled)
  {
    hide Variance, TieSum, AllEqual, MaxTies;
    VarianceSign(n1, n2, TieSum(pooled, |pooled|));
    TiesAtMost(pooled);
  }

  // ----- The test -----

  /** No verdict without data; an exact count when there are few enough assignments; otherwise
      certainty for an all-tied pool, or the two numbers the normal approximation is made of:
      twice the distance of U from its mean, and its variance. */
  datatype Verdict = NoData | Exact(extreme: nat, total: nat) | AllTied | Normal(distance: nat, variance: real)

  const EXACT_LIMIT: nat := 200_000

  ghost function Expected(a: seq<real>, b: seq<real>): Verdict {
    if a == [] || b == [] then NoData
    else
      var pooled := SortBy(a + b, Same);
      var obs := Distance(PairU(a, b), |a| * |b|);
      if Comb(|a| + |b|, |a|) <= EXACT_LIMIT then
        Exact(|Extremes(pooled, |a|, obs)|, Comb(|a| + |b|, |a|))
      else if AllEqual(pooled) then AllTied
      else Normal(obs, Variance(|a|, |b|, TieSum(pooled, |pooled|)))
  }

  /** `mann_whitney` up to the error function. */
  method MannWhitney(a: seq<real>, b: seq<real>) returns (v: Verdict)
    ensures v == Expected(a, b)
    ensures v.Exact? <==> a != [] && b != [] && Comb(|a| + |b|, |a|) <= 200_000
    ensures v.Normal? ==> v.variance > 0.0
  {
    hide AllEqual, TieSum, Variance, PairU, RankU, Extremes, Comb, SortBy, Choose, Distance;
    var n1, n2 := |a|, |b|;
    if n1 == 0 || n2 == 0 {
      return NoData;
    }
    var pooled := SortBy(a + b, Same);
    SameMembers(pooled, a + b);
    var u1 := UStat(a, pooled);
    RankEqualsPairs(a, b, pooled);
    if Comb(n1 + n2, n1) <= EXACT_LIMIT {
      var extreme, total := CountExtremes(pooled, n1, Distance(u1, n1 * n2));
      ChooseSize(n1 + n2, n1);
      return Exact(extreme, total);
    }
    var tie := TieTerm(pooled);
    var sigma2 := Variance(n1, n2, tie);
    VarianceVanishesWhen(pooled, n1, n2);
    if sigma2 <= 0.0 {
      return AllTied;
    }
    v := Normal(Distance(u1, n1 * n2), sigma2);
  }

  /** Counting over every assignment, in any order. */
  method CountExtremes(pooled: seq<real>, k: nat, obs: nat) returns (extreme: nat, total: nat)
    requires Sorted(pooled) && k <= |pooled|
    ensures extreme == |Extremes(pooled, k, obs)| && total == |Choose(|pooled|, k)|
  {
    hide Choose, Extremes, RankU, Pick;
    extreme, total := 0, 0;
    var all := Choose(|pooled|, k);
    var rest := all;
    ghost var found := Extremes(pooled, k, obs);
    ExtremesMember(pooled, k, obs);
    assert found - rest == {};
    while rest != {}
      invariant rest <= all && total == |all| - |rest|
      invariant extreme == |found - rest|
      decreases |rest|
    {
      var idx :| idx in rest;
      ghost var before := found - rest;
      rest := rest - {idx};
      var xs := Pick(pooled, idx, |pooled|);
      var u := UStat(xs, pooled);
      PickedSize(pooled, k, idx);
      if Distance(u, k * (|pooled| - k)) >= obs {
        assert found - rest == before + {idx};
        extreme := extreme + 1;
      } else {
        assert found - rest == before;
      }
      total := total + 1;
    }
    assert found - rest == found;
  }

  lemma {:induction false} ExtremesMember(pooled: seq<real>, k: nat, obs: nat)
    ensures Extremes(pooled, k, obs) <= Choose(|pooled|, k)
    ensures forall idx :: idx in Choose(|pooled|, k) ==>
      (idx in Extremes(pooled, k, obs) <==> Deviation(pooled, idx) >= obs)
  {
    hide Choose, Deviation;
  }

  lemma {:induction false} PickedSize(pooled: seq<real>, k: nat, idx: set<nat>)
    requires idx in Choose(|pooled|, k)
    ensures |Pick(pooled, idx, |pooled|)| == k
  {
    hide Choose, Pick, Range;
    ChooseMember(|pooled|, k, idx);
    PickSize(pooled, idx, |pooled|);
    assert idx * Range(|pooled|) == idx;
  }

  lemma {:induction false} VarianceSymmetric(n1: nat, n2: nat, tie: int)
    requires n1 > 0 && n2 > 0
    ensures Variance(n1, n2, tie) == Variance(n2, n1, tie)
  {
    assert n1 * n2 == n2 * n1;
  }

  /** Swapping the samples changes neither the sorted pool nor the observed distance. */
  lemma {:induction false} SwapSamples(a: seq<real>, b: seq<real>)
    ensures SortBy(a + b, Same) == SortBy(b + a, Same)
    ensures Distance(PairU(a, b), |a| * |b|) == Distance(PairU(b, a), |b| * |a|)
  {
    hide PairU, SortBy, SortedBy;
    assert multiset(a + b) == multiset(b + a);
    SortedUnique(SortBy(a + b, Same), SortBy(b + a, Same));
    PairsSum(a, b);
    assert |a| * |b| == |b| * |a|;
    MirrorDistance(PairU(a, b), PairU(b, a), |a| * |b|);
  }

  /** The verdict does not depend on which sample comes first, and the exact p-value lies in (0, 1]. */
  lemma {:induction false} ExactIsProbability(a: seq<real>, b: seq<real>)
    ensures Expected(a, b) == Expected(b, a)
    ensures Expected(a, b).Exact? ==> 0 < Expected(a, b).extreme <= Expected(a, b).total
  {
    hide PairU, Extremes, Choose, Comb, SortBy, SortedBy, RankU, Variance, TieSum, AllEqual, Distance;
    if a != [] && b != [] {
      var p := SortBy(a + b, Same);
      SwapSamples(a, b);
      SameMembers(p, a + b);
      VarianceSymmetric(|a|, |b|, TieSum(p, |p|));
      var obs := Distance(PairU(a, b), |a| * |b|);
      ExtremesSymmetric(p, |a|, obs);
      RankEqualsPairs(a, b, p);
      ObservedIsExtreme(a, b, p);
      ChooseSize(|p|, |a|);
      ExtremesMember(p, |a|, obs);
      SubsetSize(Extremes(p, |a|, obs), Choose(|p|, |a|));
    }
  }
}
