/** Components seen through cuts instead of paths: what the union-find and the split planner
    mean in terms of single edges and their rates. */
module Cuts {
  import opened Domain
  import opened Connectivity
  import opened SplitPlanning

  /** A tracked edge at or above the rate, between two members, with exactly one end in `s`. */
  ghost predicate Crosses(edges: map<Edge, EdgeState>, minRate: real, all: set<Tgid>, s: set<Tgid>, e: Edge) {
    e in edges && edges[e].rate >= minRate && e.0 in all && e.1 in all && (e.0 in s <==> e.1 !in s)
  }

  ghost function Elements(s: seq<Tgid>): set<Tgid> {
    set t | t in s
  }

  lemma {:induction false} PathCrosses(edges: map<Edge, EdgeState>, minRate: real, all: set<Tgid>, s: set<Tgid>,
      p: seq<Tgid>) returns (e: Edge)
    requires IsPath(Live(edges, minRate), all, p) && p[0] in s && p[|p| - 1] !in s
    ensures Crosses(edges, minRate, all, s, e)
    decreases |p|
  {
    if p[1] in s {
      e := PathCrosses(edges, minRate, all, s, p[1..]);
    } else {
      e := if (p[0], p[1]) in edges && edges[(p[0], p[1])].rate >= minRate then (p[0], p[1]) else (p[1], p[0]);
    }
  }

  /** The members that `a` reaches, a set no strong edge leaves. */
  ghost function Reach(edges: map<Edge, EdgeState>, minRate: real, all: set<Tgid>, a: Tgid): set<Tgid> {
    set t | t in all && Joined(Live(edges, minRate), all, a, t)
  }

  lemma {:induction false} ReachIsClosed(edges: map<Edge, EdgeState>, minRate: real, all: set<Tgid>, a: Tgid, e: Edge)
    requires a in all
    ensures !Crosses(edges, minRate, all, Reach(edges, minRate, all, a), e)
  {
    hide Joined;
    var live := Live(edges, minRate);
    if e in live && e.0 in all && e.1 in all {
      JoinedEdge(live, all, e.0, e.1);
      JoinedEdge(live, all, e.1, e.0);
      if Joined(live, all, a, e.0) { JoinedTrans(live, all, a, e.0, e.1); }
      if Joined(live, all, a, e.1) { JoinedTrans(live, all, a, e.1, e.0); }
    }
  }

  /** Two members are joined exactly when no set separates them without cutting an edge at the rate. */
  lemma {:induction false} JoinedMeans(edges: map<Edge, EdgeState>, minRate: real, all: set<Tgid>, a: Tgid, b: Tgid)
    requires a in all && b in all
    ensures Joined(Live(edges, minRate), all, a, b) <==>
      forall s: set<Tgid> :: a in s && b !in s ==> exists e :: Crosses(edges, minRate, all, s, e)
  {
    var live := Live(edges, minRate);
    if Joined(live, all, a, b) {
      var p :| IsPath(live, all, p) && p[0] == a && p[|p| - 1] == b;
      forall s: set<Tgid> | a in s && b !in s ensures exists e :: Crosses(edges, minRate, all, s, e) {
        var e := PathCrosses(edges, minRate, all, s, p);
      }
    } else {
      var s := Reach(edges, minRate, all, a);
      JoinedRefl(live, all, a);
      forall e ensures !Crosses(edges, minRate, all, s, e) { ReachIsClosed(edges, minRate, all, a, e); }
      assert a in s && b !in s;
    }
  }

  /** A cohort counts as disconnected exactly when its members fall into two parts with no edge at the
      rate between them. */
  lemma {:induction false} DisconnectedMeans(edges: map<Edge, EdgeState>, minRate: real, members: seq<Member>)
    ensures Disconnected(Live(edges, minRate), members) <==>
      exists s: set<Tgid> :: s < Tgids(members) && s != {} && forall e :: !Crosses(edges, minRate, Tgids(members), s, e)
  {
    var live, all := Live(edges, minRate), Tgids(members);
    if Disconnected(live, members) {
      var a, b :| a in all && b in all && !Joined(live, all, a, b);
      var s := Reach(edges, minRate, all, a);
      JoinedRefl(live, all, a);
      forall e ensures !Crosses(edges, minRate, all, s, e) { ReachIsClosed(edges, minRate, all, a, e); }
      assert a in s && b !in s && s < all;
    }
    if s: set<Tgid> :| s < all && s != {} && forall e :: !Crosses(edges, minRate, all, s, e) {
      var a :| a in s;
      var b :| b in all && b !in s;
      if Joined(live, all, a, b) {
        var p :| IsPath(live, all, p) && p[0] == a && p[|p| - 1] == b;
        var e := PathCrosses(edges, minRate, all, s, p);
        assert false;
      }
    }
  }

  /** A split-off set is cut off only at edges below the rate, and holds together: every part of it is
      tied to the rest of it by an edge at the rate. */
  lemma {:induction false} OffMeans(edges: map<Edge, EdgeState>, minRate: real, members: seq<Member>, minTasks: nat,
      offs: seq<seq<Tgid>>, keep: Tgid, i: nat, s: set<Tgid>)
    requires SplitsOff(Live(edges, minRate), members, minTasks, offs, keep) && i < |offs|
    ensures var all, off := Tgids(members), Elements(offs[i]);
      && off <= all && off != {} && keep in all && keep !in off
      && (forall e :: !Crosses(edges, minRate, all, off, e))
      && (s < off && s != {} ==> exists e :: Crosses(edges, minRate, all, s, e) && e.0 in off && e.1 in off)
  {
    hide SplitsOff, Crosses, Reach;
    var all := Tgids(members);
    var r := OffIsReach(edges, minRate, members, minTasks, offs, keep, i);
    forall e ensures !Crosses(edges, minRate, all, Reach(edges, minRate, all, r), e) {
      ReachIsClosed(edges, minRate, all, r, e);
    }
    if s < Reach(edges, minRate, all, r) && s != {} {
      var e := ReachHoldsTogether(edges, minRate, all, r, s);
    }
  }

  lemma {:induction false} OffIsReach(edges: map<Edge, EdgeState>, minRate: real, members: seq<Member>, minTasks: nat,
      offs: seq<seq<Tgid>>, keep: Tgid, i: nat) returns (r: Tgid)
    requires SplitsOff(Live(edges, minRate), members, minTasks, offs, keep) && i < |offs|
    ensures var all, off := Tgids(members), Elements(offs[i]);
      && r in all && keep in all && off == Reach(edges, minRate, all, r)
      && off <= all && r in off && keep !in off
  {
    hide Joined;
    var live, all := Live(edges, minRate), Tgids(members);
    assert IsSomeOff(live, members, minTasks, keep, offs[i]);
    r :| IsOff(live, members, minTasks, keep, r, offs[i]);
    forall t ensures t in offs[i] <==> t in all && Joined(live, all, r, t) {
      OffNames(live, members, minTasks, keep, r, offs[i], t);
    }
    JoinedRefl(live, all, r);
    if Joined(live, all, r, keep) { JoinedSym(live, all, r, keep); }
    hide IsOff, IsSomeOff, SplitsOff;
  }

  lemma {:induction false} ReachHoldsTogether(edges: map<Edge, EdgeState>, minRate: real, all: set<Tgid>, r: Tgid,
      s: set<Tgid>) returns (e: Edge)
    requires r in all && s < Reach(edges, minRate, all, r) && s != {}
    ensures Crosses(edges, minRate, all, s, e)
    ensures e.0 in Reach(edges, minRate, all, r) && e.1 in Reach(edges, minRate, all, r)
  {
    hide Joined;
    var live, off := Live(edges, minRate), Reach(edges, minRate, all, r);
    var a :| a in s;
    var b :| b in off && b !in s;
    JoinedSym(live, all, r, a);
    JoinedTrans(live, all, a, r, b);
    JoinedMeans(edges, minRate, all, a, b);
    e :| Crosses(edges, minRate, all, s, e);
    ReachIsClosed(edges, minRate, all, r, e);
  }
}
