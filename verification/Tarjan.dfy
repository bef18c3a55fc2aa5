/**
 * The iterative strongly-connected-components search of the cycle checks, proved to return exactly the
 * mutual-reachability classes, latest-reached first.
 */
module Tarjan {
  import opened Walks
  import opened TarjanState

  /** One entry of the explicit work stack: a node and how many of its neighbours were looked at. */
  datatype Frame<T> = Frame(node: T, cursor: nat)

  /** The targets of the edges leaving `u`, in edge order. */
  function Successors<T(==)>(edges: seq<(T, T)>, u: T): seq<T> {
    if |edges| == 0 then []
    else
      var init := Successors(edges[..|edges| - 1], u);
      var last := edges[|edges| - 1];
      if last.0 == u then init + [last.1] else init
  }

  /** Only declared nodes are keys; an edge leaving an undeclared node is dropped. */
  function Adjacency<T(==)>(nodeIds: seq<T>, edges: seq<(T, T)>): map<T, seq<T>> {
    map u | u in nodeIds :: Successors(edges, u)
  }

  lemma {:induction false} SuccessorsMember<T>(edges: seq<(T, T)>, u: T, v: T)
    ensures v in Successors(edges, u) <==> (u, v) in edges
  {
    if |edges| != 0 {
      var init, last := edges[..|edges| - 1], edges[|edges| - 1];
      SuccessorsMember(init, u, v);
      assert edges == init + [last];
    }
  }

  /** Everything the search can meet: the declared nodes and the targets of their edges. */
  ghost function Vertices<T(!new)>(nodeIds: seq<T>, edges: seq<(T, T)>): set<T> {
    (set u | u in nodeIds) + (set e | e in edges && e.0 in nodeIds :: e.1)
  }

  /** `comps` lists each mutual-reachability class of `vertices` once, and an edge never leads to a later class. */
  ghost predicate SccPartition<T(!new)>(adj: map<T, seq<T>>, vertices: set<T>, comps: seq<seq<T>>) {
    && (forall c :: 0 <= c < |comps| ==> comps[c] != [])
    && (forall c, i, j :: 0 <= c < |comps| && 0 <= i < j < |comps[c]| ==> comps[c][i] != comps[c][j])
    && (forall c, v :: 0 <= c < |comps| && v in comps[c] ==> v in vertices)
    && (forall v :: v in vertices ==> exists c :: 0 <= c < |comps| && v in comps[c])
    && (forall c, u, v :: 0 <= c < |comps| && u in comps[c] && v in vertices ==> (v in comps[c] <==> Mutual(adj, u, v)))
    && (forall c, d, u, n :: 0 <= c < |comps| && 0 <= d < |comps| && u in comps[c] && n in Neighbours(adj, u) && n in comps[d] ==> d <= c)
  }

  method BuildAdjacency<T(==)>(nodeIds: seq<T>, edges: seq<(T, T)>) returns (adjacency: map<T, seq<T>>)
    ensures adjacency == Adjacency(nodeIds, edges)
  {
    adjacency := map[];
    for i := 0 to |nodeIds|
      invariant adjacency == map u | u in nodeIds[..i] :: []
    {
      assert nodeIds[..i + 1] == nodeIds[..i] + [nodeIds[i]];
      adjacency := adjacency[nodeIds[i] := []];
    }
    assert nodeIds[..|nodeIds|] == nodeIds;
    for i := 0 to |edges|
      invariant adjacency == Adjacency(nodeIds, edges[..i])
    {
      assert edges[..i + 1][..i] == edges[..i];
      var (from, to) := edges[i];
      if from in adjacency {
        adjacency := adjacency[from := adjacency[from] + [to]];
      }
    }
    assert edges[..|edges|] == edges;
  }

  /** The inner loop that moves everything stacked from `root` on into a component. */
  method PopComponent<T(==)>(stack: seq<T>, onStack: set<T>, root: T) returns (rest: seq<T>, onRest: set<T>, component: seq<T>)
    requires root in stack
    ensures |rest| < |stack| && rest == stack[..|rest|] && stack[|rest|] == root
    ensures |component| == |stack| - |rest| && forall j :: 0 <= j < |component| ==> component[j] == stack[|stack| - 1 - j]
    ensures forall v :: v in onRest <==> v in onStack && v !in component
  {
    rest, onRest, component := stack, onStack, [];
    while |rest| > 0
      invariant |rest| <= |stack| && rest == stack[..|rest|]
      invariant |component| == |stack| - |rest| && forall j :: 0 <= j < |component| ==> component[j] == stack[|stack| - 1 - j]
      invariant forall v :: v in onRest <==> v in onStack && v !in component
      invariant root in rest
    {
      var member := rest[|rest| - 1];
      rest := rest[..|rest| - 1];
      onRest := onRest - {member};
      component := component + [member];
      if member == root { return; }
    }
    assert false;
  }

  /** What the loop body needs to know about the open nodes, the top one first of all. */
  ghost predicate Ready<T(!new)>(adj: map<T, seq<T>>, index: map<T, int>, low: map<T, int>, next: int, stack: seq<T>,
                                 work: seq<T>, cur: map<T, nat>, open: set<T>)
    requires |work| > 0
  {
    var t := work[|work| - 1];
    && t in stack && t in open && t in index && t in low && t in cur && cur[t] <= |Neighbours(adj, t)|
    && low[t] <= index[t] < next && ReachesIndex(adj, index, stack, t, low[t])
    && (|work| >= 2 ==> work[|work| - 2] in low)
    && (forall i :: 0 <= i < |work| ==> work[i] in index)
    && (forall i :: 0 <= i < |work| - 1 ==> work[i] != t)
  }

  lemma Top<T(!new)>(adj: map<T, seq<T>>, index: map<T, int>, low: map<T, int>, next: int, stack: seq<T>, work: seq<T>,
                     comps: seq<seq<T>>, cur: map<T, nat>, open: set<T>, compOf: map<T, nat>)
    requires |work| > 0 && Inv(adj, index, low, next, stack, work, comps, cur, open, compOf)
    ensures Ready(adj, index, low, next, stack, work, cur, open)
  {
    hide Grouped, Settled, Looked, Above, Segments, ReachesIndex;
  }

  /** The top open node looks at a neighbour that was discovered before. */
  lemma Seen<T(!new)>(adj: map<T, seq<T>>, index: map<T, int>, low: map<T, int>, next: int, stack: seq<T>, work: seq<T>,
                      comps: seq<seq<T>>, cur: map<T, nat>, open: set<T>, compOf: map<T, nat>, t: T, low': map<T, int>)
    requires |work| > 0 && t == work[|work| - 1] && t in cur && cur[t] < |Neighbours(adj, t)|
    requires t in low && Neighbours(adj, t)[cur[t]] in index
    requires var n := Neighbours(adj, t)[cur[t]];
      low' == if n in stack then low[t := Min(low[t], index[n])] else low
    requires Inv(adj, index, low, next, stack, work, comps, cur, open, compOf)
    ensures Inv(adj, index, low', next, stack, work, comps, cur[t := cur[t] + 1], open, compOf)
  {
    hide Inv, Reach;
    var n := Neighbours(adj, t)[cur[t]];
    Top(adj, index, low, next, stack, work, comps, cur, open, compOf);
    if n in stack {
      assert ReachesIndex(adj, index, stack, t, index[n]) by { ReachEdge(adj, t, n); }
      LowerInv(adj, index, low, next, stack, work, comps, cur, open, compOf, t, Min(low[t], index[n]));
    }
    BumpInv(adj, index, low', next, stack, work, comps, cur, open, compOf, t);
  }

  function Min(a: int, b: int): int { if a <= b then a else b }

  /** The frame below the top one takes over the top one's low link. */
  lemma Parent<T(!new)>(adj: map<T, seq<T>>, index: map<T, int>, low: map<T, int>, next: int, stack: seq<T>, work: seq<T>,
                        comps: seq<seq<T>>, cur: map<T, nat>, open: set<T>, compOf: map<T, nat>, low': map<T, int>)
    requires |work| >= 2 && work[|work| - 1] in low && work[|work| - 2] in low
    requires low' == low[work[|work| - 2] := Min(low[work[|work| - 2]], low[work[|work| - 1]])]
    requires Inv(adj, index, low, next, stack, work, comps, cur, open, compOf)
    ensures Inv(adj, index, low', next, stack, work, comps, cur, open, compOf)
    ensures work[|work| - 2] != work[|work| - 1]
  {
    hide Shape, Grouped, Settled, Cursors, LowBound, Looked, Segments, Reach, ReachesIndex;
    var p, t := work[|work| - 2], work[|work| - 1];
    assert p in work && p in stack && t in work && t in stack;
    assert Reach(adj, p, t);
    var x := LowTarget(adj, index, low, stack, t);
    ReachTrans(adj, p, t, x);
    assert ReachesIndex(adj, index, stack, p, low[t]) by { Witness(adj, index, stack, p, x); }
    assert ReachesIndex(adj, index, stack, p, low[p]);
    LowerInv(adj, index, low, next, stack, work, comps, cur, open, compOf, p, Min(low[p], low[t]));
  }

  lemma Witness<T(!new)>(adj: map<T, seq<T>>, index: map<T, int>, stack: seq<T>, v: T, x: T)
    requires x in stack && x in index && Reach(adj, v, x)
    ensures ReachesIndex(adj, index, stack, v, index[x])
  {
    hide Reach;
  }

  lemma Start<T(!new)>(adj: map<T, seq<T>>)
    ensures Inv<T>(adj, map[], map[], 0, [], [], [], map[], {}, map[])
  {}

  /** Only reachable vertices are discovered, so the search stays inside `vertices`. */
  lemma NeighbourIsVertex<T(!new)>(nodeIds: seq<T>, edges: seq<(T, T)>, u: T, n: T)
    requires n in Neighbours(Adjacency(nodeIds, edges), u)
    ensures n in Vertices(nodeIds, edges)
  {
    SuccessorsMember(edges, u, n);
    assert (u, n) in edges;
  }

  /** The top frame is finished: its node either joins the frame below or closes a component. */
  lemma Finish<T(!new)>(adj: map<T, seq<T>>, index: map<T, int>, low: map<T, int>, next: int, stack: seq<T>, work: seq<T>,
                        comps: seq<seq<T>>, cur: map<T, nat>, open: set<T>, compOf: map<T, nat>)
    requires |work| > 0 && work[|work| - 1] in cur && cur[work[|work| - 1]] == |Neighbours(adj, work[|work| - 1])|
    requires work[|work| - 1] in index && work[|work| - 1] in low && low[work[|work| - 1]] != index[work[|work| - 1]]
    requires |work| >= 2 ==> work[|work| - 2] in low && low[work[|work| - 2]] <= low[work[|work| - 1]]
    requires Inv(adj, index, low, next, stack, work, comps, cur, open, compOf)
    ensures Inv(adj, index, low, next, stack, work[..|work| - 1], comps, cur, open - {work[|work| - 1]}, compOf)
  {
    assert |work| >= 2 by {
      hide Grouped, Settled, Cursors, Looked, Above, Segments, Shape, Frames, LowBound, LowReach;
      if |work| == 1 { LastIsRoot(adj, index, low, next, stack, work, open, compOf); }
    }
    hide Inv;
    Top(adj, index, low, next, stack, work, comps, cur, open, compOf);
    PopInv(adj, index, low, next, stack, work, comps, cur, open, compOf);
  }

  lemma FinishRoot<T(!new)>(adj: map<T, seq<T>>, index: map<T, int>, low: map<T, int>, next: int, stack: seq<T>, work: seq<T>,
                            comps: seq<seq<T>>, cur: map<T, nat>, open: set<T>, compOf: map<T, nat>, rest: seq<T>, comp: seq<T>)
    requires |work| > 0 && work[|work| - 1] in cur && cur[work[|work| - 1]] == |Neighbours(adj, work[|work| - 1])|
    requires work[|work| - 1] in index && work[|work| - 1] in low && low[work[|work| - 1]] == index[work[|work| - 1]]
    requires |rest| < |stack| && rest == stack[..|rest|] && stack[|rest|] == work[|work| - 1]
    requires |comp| == |stack| - |rest| && forall j :: 0 <= j < |comp| ==> comp[j] == stack[|stack| - 1 - j]
    requires Inv(adj, index, low, next, stack, work, comps, cur, open, compOf)
    ensures Inv(adj, index, low, next, rest, work[..|work| - 1], comps + [comp], cur, open - {work[|work| - 1]},
                Numbered(compOf, comp, |comps|))
    ensures forall v :: v in rest <==> v in stack && v !in comp
  {
    hide Inv, Shape, Tail, Numbered;
    RootTail(adj, index, low, next, stack, work, comps, cur, open, compOf, rest, comp);
    RootInv(adj, index, low, next, stack, work, comps, cur, open, compOf, rest, comp);
  }

  lemma RootTail<T(!new)>(adj: map<T, seq<T>>, index: map<T, int>, low: map<T, int>, next: int, stack: seq<T>, work: seq<T>,
                          comps: seq<seq<T>>, cur: map<T, nat>, open: set<T>, compOf: map<T, nat>, rest: seq<T>, comp: seq<T>)
    requires |rest| < |stack| && rest == stack[..|rest|]
    requires |comp| == |stack| - |rest| && forall j :: 0 <= j < |comp| ==> comp[j] == stack[|stack| - 1 - j]
    requires Inv(adj, index, low, next, stack, work, comps, cur, open, compOf)
    ensures Tail(index, stack, stack[|rest|], rest, comp)
    ensures forall v :: v in rest <==> v in stack && v !in comp
  {
    hide Grouped, Settled, Cursors, Looked, Above, Segments, Frames, LowBound, LowReach, Shape, Tail;
    TailOfStack(index, next, stack, compOf, |rest|, comp);
    TailSplits(index, stack, stack[|rest|], rest, comp);
  }

  lemma TailSplits<T(!new)>(index: map<T, int>, stack: seq<T>, t: T, rest: seq<T>, comp: seq<T>)
    requires Tail(index, stack, t, rest, comp)
    ensures forall v :: v in rest <==> v in stack && v !in comp
  {}

  /** Reachability from a settled node stays among nodes settled no later. */
  lemma {:induction false} SettledReach<T(!new)>(adj: map<T, seq<T>>, compOf: map<T, nat>, u: T, v: T, p: seq<T>)
    requires Settled(adj, compOf) && u in compOf && IsWalk(adj, u, v, p)
    ensures v in compOf && compOf[v] <= compOf[u]
    decreases |p|
  {
    hide Reach;
    if |p| >= 2 {
      assert p[1] in Neighbours(adj, p[0]);
      SettledReach(adj, compOf, p[1], v, p[1..]);
    }
  }

  /** Once every vertex is settled, the components are exactly the classes. */
  lemma Classes<T(!new)>(adj: map<T, seq<T>>, vertices: set<T>, comps: seq<seq<T>>, compOf: map<T, nat>)
    requires Settled(adj, compOf) && Grouped(comps, compOf)
    requires forall v :: v in compOf <==> v in vertices
    ensures SccPartition(adj, vertices, comps)
  {
    hide Reach, Mutual;
    forall c, u, v | 0 <= c < |comps| && u in comps[c] && v in vertices
      ensures v in comps[c] <==> Mutual(adj, u, v)
    {
      SameClass(adj, compOf, u, v);
    }
    forall v | v in vertices ensures exists c :: 0 <= c < |comps| && v in comps[c] {
      assert v in comps[compOf[v]];
    }
    forall c, d, u, n | 0 <= c < |comps| && 0 <= d < |comps| && u in comps[c] && n in Neighbours(adj, u) && n in comps[d]
      ensures d <= c
    {
      assert u in compOf && compOf[n] <= compOf[u];
    }
  }

  lemma SameClass<T(!new)>(adj: map<T, seq<T>>, compOf: map<T, nat>, u: T, v: T)
    requires Settled(adj, compOf) && u in compOf && v in compOf
    ensures compOf[u] == compOf[v] <==> Mutual(adj, u, v)
  {
    if Mutual(adj, u, v) {
      var p :| IsWalk(adj, u, v, p);
      var q :| IsWalk(adj, v, u, q);
      SettledReach(adj, compOf, u, v, p);
      SettledReach(adj, compOf, v, u, q);
    }
  }

  /** With the work list empty nothing is stacked: what is discovered is settled. */
  lemma AllSettled<T(!new)>(adj: map<T, seq<T>>, index: map<T, int>, low: map<T, int>, next: int, stack: seq<T>,
                            comps: seq<seq<T>>, cur: map<T, nat>, open: set<T>, compOf: map<T, nat>)
    requires Inv(adj, index, low, next, stack, [], comps, cur, open, compOf)
    ensures Settled(adj, compOf) && Grouped(comps, compOf) && |stack| == 0
    ensures forall v :: v in index <==> v in compOf
  {
    hide Settled, Grouped, Cursors, LowBound, LowReach, Looked, Above, Segments;
  }

  lemma RootIsVertex<T(!new)>(nodeIds: seq<T>, edges: seq<(T, T)>, u: T)
    requires u in nodeIds
    ensures u in Vertices(nodeIds, edges)
  {}

  /** Settled sets are closed under edges, so settling the declared nodes settles every vertex. */
  lemma AllDiscovered<T(!new)>(nodeIds: seq<T>, edges: seq<(T, T)>, compOf: map<T, nat>)
    requires Settled(Adjacency(nodeIds, edges), compOf)
    requires forall u :: u in nodeIds ==> u in compOf
    ensures forall v :: v in Vertices(nodeIds, edges) ==> v in compOf
  {
    hide Reach;
    forall e | e in edges && e.0 in nodeIds ensures e.1 in compOf {
      SuccessorsMember(edges, e.0, e.1);
      assert e.1 in Neighbours(Adjacency(nodeIds, edges), e.0);
    }
  }

  method StronglyConnected<T(==, !new)>(nodeIds: seq<T>, edges: seq<(T, T)>) returns (components: seq<seq<T>>)
    ensures SccPartition(Adjacency(nodeIds, edges), Vertices(nodeIds, edges), components)
  {
    hide Inv, Adjacency, Vertices, SccPartition, Reach, Settled, Grouped, Numbered, ReachesIndex;
    var adjacency := BuildAdjacency(nodeIds, edges);
    ghost var vertices := Vertices(nodeIds, edges);
    var index: map<T, int>, low: map<T, int>, onStack: set<T>, stack: seq<T>, next := map[], map[], {}, [], 0;
    components := [];
    ghost var cur: map<T, nat>, open: set<T>, compOf: map<T, nat> := map[], {}, map[];
    Start(adjacency);

    for r := 0 to |nodeIds|
      invariant Inv(adjacency, index, low, next, stack, [], components, cur, open, compOf)
      invariant index.Keys <= vertices
      invariant forall i :: 0 <= i < r ==> nodeIds[i] in index
      invariant forall v :: v in onStack <==> v in stack
    {
      var root := nodeIds[r];
      if root in index { continue; }
      RootIsVertex(nodeIds, edges, root);
      DiscoverInv(adjacency, index, low, next, stack, [], components, cur, open, compOf, root);
      index, low, next, stack, onStack := index[root := next], low[root := next], next + 1, stack + [root], onStack + {root};
      cur, open := cur[root := 0], open + {root};
      var work := [Frame(root, 0)];
      ghost var path := [] + [root];

      while |work| > 0
        invariant |path| == |work| && forall i :: 0 <= i < |work| ==> work[i].node == path[i]
        invariant forall i :: 0 <= i < |work| ==> path[i] in cur && work[i].cursor == cur[path[i]]
        invariant Inv(adjacency, index, low, next, stack, path, components, cur, open, compOf)
        invariant index.Keys <= vertices
        invariant forall i :: 0 <= i <= r ==> nodeIds[i] in index
        invariant forall v :: v in onStack <==> v in stack
        decreases vertices - index.Keys, |work|,
          if |work| > 0 then |Neighbours(adjacency, work[|work| - 1].node)| - work[|work| - 1].cursor else 0
      {
        Top(adjacency, index, low, next, stack, path, components, cur, open, compOf);
        var frame := work[|work| - 1];
        var neighbours := Neighbours(adjacency, frame.node);
        if frame.cursor < |neighbours| {
          var neighbour := neighbours[frame.cursor];
          NeighbourIsVertex(nodeIds, edges, frame.node, neighbour);
          work := work[|work| - 1 := Frame(frame.node, frame.cursor + 1)];
          if neighbour !in index {
            DiscoverInv(adjacency, index, low, next, stack, path, components, cur, open, compOf, neighbour);
            index, low, next := index[neighbour := next], low[neighbour := next], next + 1;
            stack, onStack := stack + [neighbour], onStack + {neighbour};
            work := work + [Frame(neighbour, 0)];
            cur, open, path := cur[neighbour := 0], open + {neighbour}, path + [neighbour];
            BumpInv(adjacency, index, low, next, stack, path, components, cur, open, compOf, frame.node);
          } else {
            ghost var lowBefore := low;
            if neighbour in onStack {
              low := low[frame.node := Min(low[frame.node], index[neighbour])];
            }
            Seen(adjacency, index, lowBefore, next, stack, path, components, cur, open, compOf, frame.node, low);
          }
          cur := cur[frame.node := cur[frame.node] + 1];
        } else {
          work := work[..|work| - 1];
          if |work| > 0 {
            var parent := work[|work| - 1].node;
            ghost var lowBefore := low;
            low := low[parent := Min(low[parent], low[frame.node])];
            Parent(adjacency, index, lowBefore, next, stack, path, components, cur, open, compOf, low);
          }
          if low[frame.node] == index[frame.node] {
            ghost var stackBefore := stack;
            var component;
            stack, onStack, component := PopComponent(stack, onStack, frame.node);
            FinishRoot(adjacency, index, low, next, stackBefore, path, components, cur, open, compOf, stack, component);
            compOf := Numbered(compOf, component, |components|);
            components := components + [component];
          } else {
            Finish(adjacency, index, low, next, stack, path, components, cur, open, compOf);
          }
          path, open := path[..|path| - 1], open - {frame.node};
        }
      }
      assert path == [];
    }
    AllSettled(adjacency, index, low, next, stack, components, cur, open, compOf);
    AllDiscovered(nodeIds, edges, compOf);
    Classes(adjacency, vertices, components, compOf);
  }
}
