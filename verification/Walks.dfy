/** Walks and reachability over an adjacency map: the meaning the cycle checks are proved against. */
module Walks {

  /** `adjacency.get(node) ?? []`: a node that is no key has no neighbours. */
  function Neighbours<T>(adj: map<T, seq<T>>, u: T): seq<T> {
    if u in adj then adj[u] else []
  }

  ghost predicate IsWalk<T>(adj: map<T, seq<T>>, u: T, v: T, p: seq<T>) {
    && |p| >= 1
    && p[0] == u
    && p[|p| - 1] == v
    && forall i :: 0 <= i < |p| - 1 ==> p[i + 1] in Neighbours(adj, p[i])
  }

  /** `v` can be reached from `u` by zero or more edges. */
  ghost predicate Reach<T(!new)>(adj: map<T, seq<T>>, u: T, v: T) {
    exists p :: IsWalk(adj, u, v, p)
  }

  /** `v` lies on a walk of at least one edge from `v` back to `v`. */
  ghost predicate OnClosedWalk<T(!new)>(adj: map<T, seq<T>>, v: T) {
    exists p :: IsWalk(adj, v, v, p) && |p| >= 2
  }

  ghost predicate Mutual<T(!new)>(adj: map<T, seq<T>>, u: T, v: T) {
    Reach(adj, u, v) && Reach(adj, v, u)
  }

  lemma ReachSelf<T(!new)>(adj: map<T, seq<T>>, u: T)
    ensures Reach(adj, u, u)
  {
    assert IsWalk(adj, u, u, [u]);
  }

  lemma ReachEdge<T(!new)>(adj: map<T, seq<T>>, u: T, v: T)
    requires v in Neighbours(adj, u)
    ensures Reach(adj, u, v)
  {
    assert IsWalk(adj, u, v, [u, v]);
  }

  lemma JoinWalks<T>(adj: map<T, seq<T>>, u: T, v: T, w: T, p: seq<T>, q: seq<T>)
    requires IsWalk(adj, u, v, p) && IsWalk(adj, v, w, q)
    ensures IsWalk(adj, u, w, p + q[1..])
  {
    var r := p + q[1..];
    forall i | 0 <= i < |r| - 1 ensures r[i + 1] in Neighbours(adj, r[i]) {
      if i >= |p| - 1 {
        assert r[i] == q[i - (|p| - 1)] && r[i + 1] == q[i + 1 - (|p| - 1)];
      }
    }
    assert r[|r| - 1] == w;
  }

  lemma ReachTrans<T(!new)>(adj: map<T, seq<T>>, u: T, v: T, w: T)
    requires Reach(adj, u, v) && Reach(adj, v, w)
    ensures Reach(adj, u, w)
  {
    var p :| IsWalk(adj, u, v, p);
    var q :| IsWalk(adj, v, w, q);
    JoinWalks(adj, u, v, w, p, q);
  }

  /** A nonempty closed walk through `v` starts with an edge to a vertex that reaches back. */
  lemma ClosedWalkIff<T(!new)>(adj: map<T, seq<T>>, v: T)
    ensures OnClosedWalk(adj, v) <==> exists n :: n in Neighbours(adj, v) && Reach(adj, n, v)
  {
    if OnClosedWalk(adj, v) {
      var p :| IsWalk(adj, v, v, p) && |p| >= 2;
      assert IsWalk(adj, p[1], v, p[1..]);
      assert p[1] in Neighbours(adj, p[0]);
    }
    if n :| n in Neighbours(adj, v) && Reach(adj, n, v) {
      var q :| IsWalk(adj, n, v, q);
      JoinWalks(adj, v, n, v, [v, n], q);
    }
  }

  /** A vertex met twice on a walk lies on a closed walk. */
  lemma ClosesCycle<T(!new)>(adj: map<T, seq<T>>, u: T, q: seq<T>, k: nat)
    requires 0 < k < |q| && IsWalk(adj, q[0], q[|q| - 1], q) && q[0] == u && q[k] == u
    ensures OnClosedWalk(adj, u)
  {
    assert IsWalk(adj, u, u, q[..k + 1]);
  }

  lemma {:induction false} DistinctFit<T>(p: seq<T>, s: set<T>)
    requires forall i :: 0 <= i < |p| ==> p[i] in s
    requires forall i, j :: 0 <= i < j < |p| ==> p[i] != p[j]
    ensures |p| <= |s|
  {
    if |p| > 0 {
      var init, last := p[..|p| - 1], p[|p| - 1];
      assert forall i :: 0 <= i < |init| ==> init[i] in s - {last};
      DistinctFit(init, s - {last});
    }
  }

  /**
   * Walk backwards from the first vertex of `p` inside `pending`. The vertices met are all different,
   * or the walk would close a cycle, so it ends at one that no pending vertex leads to.
   */
  lemma {:induction false} FindSource<T(!new)>(adj: map<T, seq<T>>, pending: set<T>, p: seq<T>) returns (v: T)
    requires forall u :: !OnClosedWalk(adj, u)
    requires |p| > 0 && IsWalk(adj, p[0], p[|p| - 1], p)
    requires forall i :: 0 <= i < |p| ==> p[i] in pending
    requires forall i, j :: 0 <= i < j < |p| ==> p[i] != p[j]
    ensures v in pending && forall u :: u in pending ==> v !in Neighbours(adj, u)
    decreases |pending| - |p|
  {
    hide Neighbours, OnClosedWalk;
    if forall u :: u in pending ==> p[0] !in Neighbours(adj, u) {
      v := p[0];
    } else {
      var u :| u in pending && p[0] in Neighbours(adj, u);
      var q := [u] + p;
      assert IsWalk(adj, u, q[|q| - 1], q);
      forall k | 0 <= k < |p| ensures p[k] != u {
        if p[k] == u { ClosesCycle(adj, u, q, k + 1); }
      }
      DistinctFit(q, pending);
      v := FindSource(adj, pending, q);
    }
  }
}
