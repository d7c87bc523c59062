/** Union-find over the members of one cohort, and what its answers mean: two
    members share a root exactly when a path of live edges joins them. */
module Connectivity {
  import opened Domain

  // ----- Reference definition: reachability along live edges -----

  predicate Adjacent(live: set<Edge>, a: Tgid, b: Tgid) {
    (a, b) in live || (b, a) in live
  }

  /** A walk along live edges that never leaves `members`. */
  ghost predicate IsPath(live: set<Edge>, members: set<Tgid>, p: seq<Tgid>) {
    && p != []
    && p[0] in members
    && (|p| > 1 ==> Adjacent(live, p[0], p[1]) && IsPath(live, members, p[1..]))
  }

  ghost predicate Joined(live: set<Edge>, members: set<Tgid>, a: Tgid, b: Tgid) {
    exists p :: IsPath(live, members, p) && p[0] == a && p[|p| - 1] == b
  }

  lemma {:induction false} JoinedRefl(live: set<Edge>, members: set<Tgid>, a: Tgid)
    requires a in members
    ensures Joined(live, members, a, a)
  {
    assert IsPath(live, members, [a]);
  }

  lemma {:induction false} JoinedEdge(live: set<Edge>, members: set<Tgid>, a: Tgid, b: Tgid)
    requires a in members && b in members && Adjacent(live, a, b)
    ensures Joined(live, members, a, b)
  {
    var p := [a, b];
    assert p[1..] == [b];
    assert IsPath(live, members, p) && p[0] == a && p[|p| - 1] == b;
  }

  lemma {:induction false} PathConcat(live: set<Edge>, members: set<Tgid>, p: seq<Tgid>, q: seq<Tgid>)
    requires IsPath(live, members, p) && IsPath(live, members, q) && p[|p| - 1] == q[0]
    ensures IsPath(live, members, p + q[1..])
  {
    if |p| == 1 {
      assert p + q[1..] == q;
    } else {
      PathConcat(live, members, p[1..], q);
      assert (p + q[1..])[1..] == p[1..] + q[1..];
    }
  }

  lemma {:induction false} JoinedTrans(live: set<Edge>, members: set<Tgid>, a: Tgid, b: Tgid, c: Tgid)
    requires Joined(live, members, a, b) && Joined(live, members, b, c)
    ensures Joined(live, members, a, c)
  {
    var p :| IsPath(live, members, p) && p[0] == a && p[|p| - 1] == b;
    var q :| IsPath(live, members, q) && q[0] == b && q[|q| - 1] == c;
    PathConcat(live, members, p, q);
    var r := p + q[1..];
    assert r[0] == a && r[|r| - 1] == c;
  }

  lemma {:induction false} PathEndsMeet(live: set<Edge>, members: set<Tgid>, p: seq<Tgid>)
    requires IsPath(live, members, p)
    ensures p[|p| - 1] in members && Joined(live, members, p[|p| - 1], p[0])
  {
    if |p| == 1 {
      JoinedRefl(live, members, p[0]);
    } else {
      PathEndsMeet(live, members, p[1..]);
      JoinedEdge(live, members, p[1], p[0]);
      JoinedTrans(live, members, p[|p| - 1], p[1], p[0]);
    }
  }

  lemma {:induction false} JoinedSym(live: set<Edge>, members: set<Tgid>, a: Tgid, b: Tgid)
    requires Joined(live, members, a, b)
    ensures a in members && b in members
    ensures Joined(live, members, b, a)
  {
    var p :| IsPath(live, members, p) && p[0] == a && p[|p| - 1] == b;
    PathEndsMeet(live, members, p);
  }

  // ----- The parent forest -----

  /** One node of the forest: its parent has the same root, and `rank` strictly
      falls on the way up. */
  ghost predicate NodeOk(parent: map<Tgid, Tgid>, rep: map<Tgid, Tgid>, rank: map<Tgid, nat>, x: Tgid)
    requires rep.Keys == parent.Keys && rank.Keys == parent.Keys && x in parent
  {
    var p, r := parent[x], rep[x];
    && p in parent && r in parent
    && rep[p] == r && rep[r] == r
    && (p == x <==> r == x)
    && (p != x ==> rank[p] < rank[x])
    && (r != x ==> rank[r] < rank[x])
  }

  /** `rep` gives every node's root and `rank` witnesses that climbing ends there. */
  ghost predicate IsForest(parent: map<Tgid, Tgid>, rep: map<Tgid, Tgid>, rank: map<Tgid, nat>) {
    && rep.Keys == parent.Keys && rank.Keys == parent.Keys
    && (forall x {:trigger NodeOk(parent, rep, rank, x)} :: x in parent ==> NodeOk(parent, rep, rank, x))
  }

  /** The parent map alone decides the roots: `rep` is not a choice. */
  lemma {:induction false} RootsUnique(parent: map<Tgid, Tgid>,
      rep: map<Tgid, Tgid>, rank: map<Tgid, nat>, rep': map<Tgid, Tgid>, rank': map<Tgid, nat>, x: Tgid)
    requires IsForest(parent, rep, rank) && IsForest(parent, rep', rank')
    requires x in parent
    ensures rep[x] == rep'[x]
    decreases rank[x]
  {
    assert NodeOk(parent, rep, rank, x) && NodeOk(parent, rep', rank', x);
    if parent[x] != x {
      RootsUnique(parent, rep, rank, rep', rank', parent[x]);
    }
  }

  lemma {:induction false} CompressKeepsForest(parent: map<Tgid, Tgid>, rep: map<Tgid, Tgid>, rank: map<Tgid, nat>,
      x: Tgid)
    requires IsForest(parent, rep, rank) && x in parent
    ensures IsForest(parent[x := rep[x]], rep, rank)
  {
    var parent' := parent[x := rep[x]];
    assert NodeOk(parent, rep, rank, x);
    forall y | y in parent' ensures NodeOk(parent', rep, rank, y) {
      assert NodeOk(parent, rep, rank, y);
    }
  }

  /** `find` with path compression: it returns the root and changes nobody's root. */
  method Find(parent: map<Tgid, Tgid>, ghost rep: map<Tgid, Tgid>, ghost rank: map<Tgid, nat>, x: Tgid)
    returns (root: Tgid, parent': map<Tgid, Tgid>)
    requires IsForest(parent, rep, rank) && x in parent
    ensures root == rep[x] && root in parent && rep[root] == root
    ensures IsForest(parent', rep, rank)
    ensures parent'[x] == root
    decreases rank[x]
  {
    assert NodeOk(parent, rep, rank, x);
    var p := parent[x];
    if p == x {
      return x, parent;
    }
    root, parent' := Find(parent, rep, rank, p);
    CompressKeepsForest(parent', rep, rank, x);
    parent' := parent'[x := root];
  }

  /** Linking root `ra` under root `rb`. */
  ghost function Relinked(rep: map<Tgid, Tgid>, ra: Tgid, rb: Tgid): map<Tgid, Tgid> {
    map x | x in rep :: if rep[x] == ra then rb else rep[x]
  }

  ghost function Raised(rep: map<Tgid, Tgid>, rank: map<Tgid, nat>, ra: Tgid, rb: Tgid): map<Tgid, nat>
    requires rep.Keys == rank.Keys && rb in rank
  {
    map x | x in rank :: if rep[x] == ra then rank[x] + rank[rb] + 1 else rank[x]
  }

  lemma {:induction false} LinkKeepsForest(parent: map<Tgid, Tgid>, rep: map<Tgid, Tgid>, rank: map<Tgid, nat>,
      ra: Tgid, rb: Tgid)
    requires IsForest(parent, rep, rank)
    requires ra in parent && rb in parent && rep[ra] == ra && rep[rb] == rb && ra != rb
    ensures IsForest(parent[ra := rb], Relinked(rep, ra, rb), Raised(rep, rank, ra, rb))
  {
    var parent', rep', rank' := parent[ra := rb], Relinked(rep, ra, rb), Raised(rep, rank, ra, rb);
    assert NodeOk(parent, rep, rank, ra) && NodeOk(parent, rep, rank, rb);
    forall x | x in parent' ensures NodeOk(parent', rep', rank', x) {
      assert NodeOk(parent, rep, rank, x);
    }
  }

  // ----- Roots agree with reachability -----

  /** Every pair with a common root is joined. */
  ghost predicate RootsSound(live: set<Edge>, rep: map<Tgid, Tgid>) {
    forall x :: x in rep ==> Joined(live, rep.Keys, x, rep[x])
  }

  /** Every edge in `done` that lies between members has been closed under. */
  ghost predicate RootsClosed(done: set<Edge>, rep: map<Tgid, Tgid>) {
    forall e :: e in done && e.0 in rep && e.1 in rep ==> rep[e.0] == rep[e.1]
  }

  lemma {:induction false} LinkKeepsSound(live: set<Edge>, rep: map<Tgid, Tgid>, a: Tgid, b: Tgid)
    requires RootsSound(live, rep)
    requires a in rep && b in rep && (a, b) in live
    ensures RootsSound(live, Relinked(rep, rep[a], rep[b]))
  {
    var rep' := Relinked(rep, rep[a], rep[b]);
    assert rep'.Keys == rep.Keys;
    forall x | x in rep' ensures Joined(live, rep'.Keys, x, rep'[x]) {
      if rep[x] == rep[a] {
        JoinedSym(live, rep.Keys, a, rep[a]);
        JoinedTrans(live, rep.Keys, x, rep[a], a);
        JoinedEdge(live, rep.Keys, a, b);
        JoinedTrans(live, rep.Keys, x, a, b);
        JoinedTrans(live, rep.Keys, x, b, rep[b]);
      }
    }
  }

  /** A path never leaves a class that is closed under the live edges. */
  lemma {:induction false} PathKeepsRoot(live: set<Edge>, rep: map<Tgid, Tgid>, p: seq<Tgid>)
    requires RootsClosed(live, rep) && IsPath(live, rep.Keys, p)
    ensures p[|p| - 1] in rep && rep[p[0]] == rep[p[|p| - 1]]
    decreases |p|
  {
    if |p| > 1 {
      PathKeepsRoot(live, rep, p[1..]);
    }
  }

  /** Union-find correctness: equal roots exactly for joined members. */
  lemma {:induction false} RootsMeanJoined(live: set<Edge>, rep: map<Tgid, Tgid>, a: Tgid, b: Tgid)
    requires RootsSound(live, rep) && RootsClosed(live, rep)
    requires a in rep && b in rep
    ensures rep[a] == rep[b] <==> Joined(live, rep.Keys, a, b)
  {
    if rep[a] == rep[b] {
      JoinedSym(live, rep.Keys, b, rep[b]);
      JoinedTrans(live, rep.Keys, a, rep[a], b);
    }
    if Joined(live, rep.Keys, a, b) {
      var p :| IsPath(live, rep.Keys, p) && p[0] == a && p[|p| - 1] == b;
      PathKeepsRoot(live, rep, p);
    }
  }

  // ----- Components of one cohort -----

  function Tgids(members: seq<Member>): (s: set<Tgid>)
    ensures forall m :: m in members ==> m.0 in s
  {
    set m | m in members :: m.0
  }

  /** The edges whose rate still connects their endpoints. */
  function Live(edges: map<Edge, EdgeState>, minRate: real): set<Edge> {
    set e | e in edges && edges[e].rate >= minRate
  }

  /** The members joined to `t`, in member order. */
  ghost function ComponentOf(live: set<Edge>, all: set<Tgid>, members: seq<Member>, t: Tgid): seq<Member> {
    if members == [] then []
    else
      var m := members[|members| - 1];
      ComponentOf(live, all, members[..|members| - 1], t) +
      (if Joined(live, all, t, m.0) then [m] else [])
  }

  lemma {:induction false} ComponentMembers(live: set<Edge>, all: set<Tgid>, members: seq<Member>, t: Tgid, m: Member)
    ensures m in ComponentOf(live, all, members, t) <==> m in members && Joined(live, all, t, m.0)
  {
    if members != [] {
      ComponentMembers(live, all, members[..|members| - 1], t, m);
      assert members == members[..|members| - 1] + [members[|members| - 1]];
    }
  }

  lemma {:induction false} ComponentCongruent(live: set<Edge>, all: set<Tgid>, members: seq<Member>, t: Tgid, u: Tgid)
    requires Joined(live, all, t, u)
    ensures ComponentOf(live, all, members, t) == ComponentOf(live, all, members, u)
  {
    if members != [] {
      var m := members[|members| - 1];
      ComponentCongruent(live, all, members[..|members| - 1], t, u);
      JoinedSym(live, all, t, u);
      if Joined(live, all, u, m.0) { JoinedTrans(live, all, t, u, m.0); }
      if Joined(live, all, t, m.0) { JoinedTrans(live, all, u, t, m.0); }
    }
  }

  /** `comps` lists each component of `members` once, under one of its own tgids. */
  ghost predicate IsPartition(live: set<Edge>, members: seq<Member>, comps: map<Tgid, seq<Member>>) {
    var all := Tgids(members);
    && comps.Keys <= all
    && (forall r :: r in comps ==> comps[r] == ComponentOf(live, all, members, r))
    && (forall t :: t in all ==> exists r :: r in comps && Joined(live, all, r, t))
    && (forall r, s :: r in comps && s in comps && Joined(live, all, r, s) ==> r == s)
  }

  /** `rep` partitions its keys exactly into the classes of `Joined`. */
  ghost predicate RootsAreComponents(live: set<Edge>, rep: map<Tgid, Tgid>) {
    forall a, b :: a in rep && b in rep ==> (rep[a] == rep[b] <==> Joined(live, rep.Keys, a, b))
  }

  /** One live edge between members: `find` both ends, link the roots if they differ. */
  method UniteEdge(parent: map<Tgid, Tgid>, ghost rep: map<Tgid, Tgid>, ghost rank: map<Tgid, nat>,
      ghost live: set<Edge>, a: Tgid, b: Tgid)
    returns (parent': map<Tgid, Tgid>, ghost rep': map<Tgid, Tgid>, ghost rank': map<Tgid, nat>)
    requires IsForest(parent, rep, rank) && RootsSound(live, rep)
    requires a in parent && b in parent && (a, b) in live
    ensures IsForest(parent', rep', rank') && RootsSound(live, rep')
    ensures rep'.Keys == rep.Keys == parent'.Keys && rep'[a] == rep'[b]
    ensures forall x, y :: x in rep && y in rep ==>
      (rep'[x] == rep'[y] <==> rep[x] == rep[y] || {rep[x], rep[y]} == {rep[a], rep[b]})
  {
    var ra, rb;
    ra, parent' := Find(parent, rep, rank, a);
    rb, parent' := Find(parent', rep, rank, b);
    rep', rank' := rep, rank;
    if ra != rb {
      LinkKeepsForest(parent', rep, rank, ra, rb);
      LinkKeepsSound(live, rep, a, b);
      parent' := parent'[ra := rb];
      rank' := Raised(rep, rank, ra, rb);
      rep' := Relinked(rep, ra, rb);
    }
  }

  lemma {:induction false} TrivialForest(parent: map<Tgid, Tgid>, rank: map<Tgid, nat>)
    requires rank.Keys == parent.Keys && forall t :: t in parent ==> parent[t] == t
    ensures IsForest(parent, parent, rank)
  {
  }

  lemma {:induction false} ForestKeys(parent: map<Tgid, Tgid>, rep: map<Tgid, Tgid>, rank: map<Tgid, nat>)
    requires IsForest(parent, rep, rank)
    ensures rep.Keys == parent.Keys
  {
  }

  /** The union pass over every edge, in any iteration order. */
  method Unite(edges: map<Edge, EdgeState>, minRate: real, members: seq<Member>)
    returns (parent: map<Tgid, Tgid>, ghost rep: map<Tgid, Tgid>, ghost rank: map<Tgid, nat>)
    ensures IsForest(parent, rep, rank) && parent.Keys == Tgids(members)
    ensures RootsAreComponents(Live(edges, minRate), rep)
  {
    hide Joined, IsForest;
    ghost var live := Live(edges, minRate);
    parent := map t | t in Tgids(members) :: t;
    rep := parent;
    rank := map t | t in parent :: 0;
    forall t | t in parent ensures Joined(live, rep.Keys, t, rep[t]) { JoinedRefl(live, rep.Keys, t); }
    TrivialForest(parent, rank);
    var rest := edges.Keys;
    while rest != {}
      invariant rest <= edges.Keys
      invariant IsForest(parent, rep, rank) && parent.Keys == Tgids(members)
      invariant RootsSound(live, rep)
      invariant RootsClosed(live - rest, rep)
      decreases |rest|
    {
      var e :| e in rest;
      rest := rest - {e};
      var (a, b) := e;
      ForestKeys(parent, rep, rank);
      if edges[e].rate >= minRate && a in parent && b in parent {
        parent, rep, rank := UniteEdge(parent, rep, rank, live, a, b);
      }
    }
    assert live - rest == live;
    ForestKeys(parent, rep, rank);
    forall a, b | a in rep && b in rep
      ensures rep[a] == rep[b] <==> Joined(live, rep.Keys, a, b)
    {
      RootsMeanJoined(live, rep, a, b);
    }
  }

  /** The grouping built from a prefix of the members. */
  ghost predicate Grouped(live: set<Edge>, rep: map<Tgid, Tgid>, members: seq<Member>, comps: map<Tgid, seq<Member>>) {
    && (forall r :: r in comps ==> r in rep && rep[r] == r)
    && (forall m :: m in members ==> m.0 in rep && rep[m.0] in comps)
    && (forall r :: r in rep && rep[r] == r ==>
          ComponentOf(live, rep.Keys, members, r) == if r in comps then comps[r] else [])
  }

  lemma {:induction false} RootPair(live: set<Edge>, rep: map<Tgid, Tgid>, a: Tgid, b: Tgid)
    requires RootsAreComponents(live, rep) && a in rep && b in rep
    ensures rep[a] == rep[b] <==> Joined(live, rep.Keys, a, b)
  {
  }

  lemma {:induction false} GroupNone(live: set<Edge>, rep: map<Tgid, Tgid>)
    ensures Grouped(live, rep, [], map[])
  {
  }

  lemma {:induction false} GroupOne(live: set<Edge>, rep: map<Tgid, Tgid>, members: seq<Member>,
      comps: map<Tgid, seq<Member>>, m: Member)
    requires RootsAreComponents(live, rep) && Grouped(live, rep, members, comps)
    requires m.0 in rep && rep[m.0] in rep && rep[rep[m.0]] == rep[m.0]
    ensures var root := rep[m.0];
      Grouped(live, rep, members + [m], comps[root := (if root in comps then comps[root] else []) + [m]])
  {
    hide Joined, RootsAreComponents;
    var root := rep[m.0];
    var comps' := comps[root := (if root in comps then comps[root] else []) + [m]];
    var all := members + [m];
    assert all[..|all| - 1] == members && all[|all| - 1] == m;
    forall r | r in rep && rep[r] == r
      ensures ComponentOf(live, rep.Keys, all, r) == if r in comps' then comps'[r] else []
    {
      RootPair(live, rep, r, m.0);
    }
  }

  lemma {:induction false} GroupedIsPartition(live: set<Edge>, rep: map<Tgid, Tgid>, members: seq<Member>,
      comps: map<Tgid, seq<Member>>)
    requires RootsAreComponents(live, rep) && Grouped(live, rep, members, comps)
    requires rep.Keys == Tgids(members)
    ensures IsPartition(live, members, comps)
  {
    forall t | t in rep ensures exists r :: r in comps && Joined(live, rep.Keys, r, t) {
      var m :| m in members && m.0 == t;
      var r := rep[t];
      assert r in comps && rep[r] == rep[t];
    }
    forall r, s | r in comps && s in comps && Joined(live, rep.Keys, r, s) ensures r == s {
      assert rep[r] == rep[s];
    }
  }

  /** Grouping the members by root. */
  method Components(edges: map<Edge, EdgeState>, minRate: real, members: seq<Member>)
    returns (comps: map<Tgid, seq<Member>>)
    ensures IsPartition(Live(edges, minRate), members, comps)
  {
    hide Joined, Grouped, RootsAreComponents, Live;
    ghost var live := Live(edges, minRate);
    var parent;
    ghost var rep, rank;
    parent, rep, rank := Unite(edges, minRate, members);
    comps := map[];
    GroupNone(live, rep);
    var i := 0;
    while i < |members|
      invariant 0 <= i <= |members|
      invariant IsForest(parent, rep, rank)
      invariant Grouped(live, rep, members[..i], comps)
    {
      hide IsForest;
      var (t, n) := members[i];
      assert members[i] in members;
      var root;
      root, parent := Find(parent, rep, rank, t);
      GroupOne(live, rep, members[..i], comps, members[i]);
      comps := comps[root := (if root in comps then comps[root] else []) + [(t, n)]];
      assert members[..i + 1] == members[..i] + [members[i]];
      i := i + 1;
    }
    assert members[..i] == members;
    GroupedIsPartition(live, rep, members, comps);
  }
}
