/** The two cycle checks: dependency acyclicity (3) and bounded control cycles (9). */
module GraphCycles {
  import opened Options
  import opened GraphTypes
  import opened Walks
  import Tarjan

  /** The edges of the wanted kinds as (from, to) pairs, in declaration order. */
  function Pairs(edges: seq<EdgeSpec>, wanted: EdgeType -> bool): seq<(Id, Id)> {
    if |edges| == 0 then []
    else
      var init := Pairs(edges[..|edges| - 1], wanted);
      var e := edges[|edges| - 1];
      if wanted(e.kind) then init + [(e.from, e.to)] else init
  }

  lemma {:induction false} PairsMember(edges: seq<EdgeSpec>, wanted: EdgeType -> bool, u: Id, v: Id)
    ensures (u, v) in Pairs(edges, wanted) <==>
            exists i :: 0 <= i < |edges| && wanted(edges[i].kind) && edges[i].from == u && edges[i].to == v
  {
    if |edges| != 0 {
      var init, e := edges[..|edges| - 1], edges[|edges| - 1];
      PairsMember(init, wanted, u, v);
      if (u, v) in Pairs(init, wanted) {
        var i :| 0 <= i < |init| && wanted(init[i].kind) && init[i].from == u && init[i].to == v;
        assert edges[i] == init[i];
      }
      if i :| 0 <= i < |edges| && wanted(edges[i].kind) && edges[i].from == u && edges[i].to == v {
        if i < |init| { assert init[i] == edges[i]; }
      }
    }
  }

  /** The graph whose arrows are the edges of the wanted kinds. */
  ghost function Projection(spec: GraphSpec, wanted: EdgeType -> bool): map<Id, seq<Id>> {
    Tarjan.Adjacency(NodeIds(spec.nodes), Pairs(spec.typedEdges, wanted))
  }

  ghost function Dependencies(spec: GraphSpec): map<Id, seq<Id>> { Projection(spec, IsBlocking) }
  ghost function Control(spec: GraphSpec): map<Id, seq<Id>> { Projection(spec, IsRouting) }

  lemma ProjectionEdge(spec: GraphSpec, wanted: EdgeType -> bool, u: Id, v: Id)
    ensures v in Neighbours(Projection(spec, wanted), u) <==>
            HasNode(spec.nodes, u) && exists i :: 0 <= i < |spec.typedEdges| && wanted(spec.typedEdges[i].kind)
                                        && spec.typedEdges[i].from == u && spec.typedEdges[i].to == v
  {
    Tarjan.SuccessorsMember(Pairs(spec.typedEdges, wanted), u, v);
    PairsMember(spec.typedEdges, wanted, u, v);
    assert u in NodeIds(spec.nodes) <==> HasNode(spec.nodes, u) by { IdsMember(spec.nodes, u); }
  }

  lemma IdsMember(nodes: seq<NodeSpec>, u: Id)
    ensures u in NodeIds(nodes) <==> HasNode(nodes, u)
  {
    if u in NodeIds(nodes) {
      var i :| 0 <= i < |NodeIds(nodes)| && NodeIds(nodes)[i] == u;
      assert nodes[i].nodeId == u;
    }
    if HasNode(nodes, u) {
      var i :| 0 <= i < |nodes| && nodes[i].nodeId == u;
      assert NodeIds(nodes)[i] == u;
    }
  }

  /** With both ends of every edge declared, the search meets exactly the declared nodes. */
  lemma DeclaredVertices(spec: GraphSpec, wanted: EdgeType -> bool)
    requires EndpointsDeclared(spec)
    ensures forall u :: u in Tarjan.Vertices(NodeIds(spec.nodes), Pairs(spec.typedEdges, wanted)) <==> HasNode(spec.nodes, u)
  {
    forall u ensures u in Tarjan.Vertices(NodeIds(spec.nodes), Pairs(spec.typedEdges, wanted)) <==> HasNode(spec.nodes, u) {
      IdsMember(spec.nodes, u);
      forall e | e in Pairs(spec.typedEdges, wanted) && e.1 == u ensures HasNode(spec.nodes, u) {
        PairsMember(spec.typedEdges, wanted, e.0, e.1);
      }
    }
  }

  /** A real cycle: more than one member, or a member with a self-edge. */
  predicate IsCyclic(component: seq<Id>, edges: seq<(Id, Id)>) {
    |component| > 1 || exists m :: m in component && (m, m) in edges
  }

  method CyclicComponents(nodeIds: seq<Id>, edges: seq<(Id, Id)>) returns (cyclic: seq<seq<Id>>, ghost all: seq<seq<Id>>)
    ensures Tarjan.SccPartition(Tarjan.Adjacency(nodeIds, edges), Tarjan.Vertices(nodeIds, edges), all)
    ensures forall c :: c in cyclic <==> c in all && IsCyclic(c, edges)
  {
    hide Tarjan.SccPartition, Tarjan.Adjacency, Tarjan.Vertices;
    var comps := Tarjan.StronglyConnected(nodeIds, edges);
    all := comps;
    cyclic := [];
    for i := 0 to |comps|
      invariant forall c :: c in cyclic <==> c in comps[..i] && IsCyclic(c, edges)
    {
      assert comps[..i + 1] == comps[..i] + [comps[i]];
      if IsCyclic(comps[i], edges) { cyclic := cyclic + [comps[i]]; }
    }
    assert comps[..|comps|] == comps;
  }

  /** A vertex lies on a nonempty closed walk exactly when its component holds a real cycle. */
  lemma CyclicIff(nodeIds: seq<Id>, edges: seq<(Id, Id)>, comps: seq<seq<Id>>, c: nat, v: Id)
    requires forall e :: e in edges ==> e.0 in nodeIds
    requires c < |comps| && v in comps[c]
    requires Tarjan.SccPartition(Tarjan.Adjacency(nodeIds, edges), Tarjan.Vertices(nodeIds, edges), comps)
    ensures OnClosedWalk(Tarjan.Adjacency(nodeIds, edges), v) <==> IsCyclic(comps[c], edges)
  {
    hide Reach, OnClosedWalk, Tarjan.Adjacency, Tarjan.Vertices;
    var adj := Tarjan.Adjacency(nodeIds, edges);
    var comp := comps[c];
    if OnClosedWalk(adj, v) {
      ClosedWalkIff(adj, v);
      var n :| n in Neighbours(adj, v) && Reach(adj, n, v);
      ReachEdge(adj, v, n);
      Tarjan.NeighbourIsVertex(nodeIds, edges, v, n);
      assert Mutual(adj, v, n);
      assert n in comp;
      if n == v { NeighbourEdge(nodeIds, edges, v, v); } else { assert |comp| > 1; }
    }
    if IsCyclic(comp, edges) {
      if |comp| > 1 {
        var u := if comp[0] == v then comp[1] else comp[0];
        assert u in comp && u != v && Mutual(adj, v, u);
        ReachBothWays(adj, v, u);
      } else {
        assert comp == [v];
        NeighbourEdge(nodeIds, edges, v, v);
        ReachSelf(adj, v);
        ClosedWalkIff(adj, v);
      }
    }
  }

  lemma NeighbourEdge(nodeIds: seq<Id>, edges: seq<(Id, Id)>, u: Id, v: Id)
    ensures v in Neighbours(Tarjan.Adjacency(nodeIds, edges), u) <==> u in nodeIds && (u, v) in edges
  {
    Tarjan.SuccessorsMember(edges, u, v);
  }

  lemma ReachBothWays(adj: map<Id, seq<Id>>, a: Id, b: Id)
    requires a != b && Reach(adj, a, b) && Reach(adj, b, a)
    ensures OnClosedWalk(adj, a)
  {
    var p :| IsWalk(adj, a, b, p);
    var q :| IsWalk(adj, b, a, q);
    assert |p| >= 2;
    JoinWalks(adj, a, b, a, p, q);
  }

  /** Check 3's meaning: the dependency and data edges have no nonempty closed walk. */
  ghost predicate Acyclic(spec: GraphSpec) {
    forall v :: !OnClosedWalk(Dependencies(spec), v)
  }

  lemma PairsFrom(spec: GraphSpec, wanted: EdgeType -> bool)
    requires EndpointsDeclared(spec)
    ensures forall e :: e in Pairs(spec.typedEdges, wanted) ==> e.0 in NodeIds(spec.nodes)
  {
    forall e | e in Pairs(spec.typedEdges, wanted) ensures e.0 in NodeIds(spec.nodes) {
      PairsMember(spec.typedEdges, wanted, e.0, e.1);
      IdsMember(spec.nodes, e.0);
    }
  }

  /** Only declared nodes have neighbours, so a closed walk starts at a vertex. */
  lemma ClosedWalkVertex(nodeIds: seq<Id>, edges: seq<(Id, Id)>, v: Id)
    requires OnClosedWalk(Tarjan.Adjacency(nodeIds, edges), v)
    ensures v in Tarjan.Vertices(nodeIds, edges)
  {
    ClosedWalkIff(Tarjan.Adjacency(nodeIds, edges), v);
  }

  /** Check 3 — one issue per cyclic component of the dependency projection. */
  method CheckDependencyAcyclic(spec: GraphSpec) returns (issues: seq<Issue>)
    ensures Tagged(issues, 3, DependencyCycle)
    ensures EndpointsDeclared(spec) ==> (|issues| == 0 <==> Acyclic(spec))
  {
    hide Tarjan.SccPartition, Tarjan.Adjacency, Tarjan.Vertices, Acyclic, EndpointsDeclared;
    var ids, pairs := NodeIds(spec.nodes), Pairs(spec.typedEdges, IsBlocking);
    var cycles;
    ghost var all;
    cycles, all := CyclicComponents(ids, pairs);
    if EndpointsDeclared(spec) { AcyclicIff(spec, all, cycles); }
    issues := seq(|cycles|, i => Issue(3, DependencyCycle));
  }

  lemma AcyclicIff(spec: GraphSpec, comps: seq<seq<Id>>, cycles: seq<seq<Id>>)
    requires EndpointsDeclared(spec)
    requires var ids, pairs := NodeIds(spec.nodes), Pairs(spec.typedEdges, IsBlocking);
      && Tarjan.SccPartition(Tarjan.Adjacency(ids, pairs), Tarjan.Vertices(ids, pairs), comps)
      && forall c :: c in cycles <==> c in comps && IsCyclic(c, pairs)
    ensures |cycles| == 0 <==> Acyclic(spec)
  {
    hide Tarjan.Adjacency, Tarjan.Vertices, OnClosedWalk, IsCyclic, Mutual, EndpointsDeclared;
    var ids, pairs := NodeIds(spec.nodes), Pairs(spec.typedEdges, IsBlocking);
    PairsFrom(spec, IsBlocking);
    assert Dependencies(spec) == Tarjan.Adjacency(ids, pairs);
    if |cycles| != 0 {
      var c := cycles[0];
      assert c in cycles;
      var i :| 0 <= i < |comps| && comps[i] == c;
      CyclicIff(ids, pairs, comps, i, c[0]);
      assert OnClosedWalk(Dependencies(spec), c[0]);
    }
    if !Acyclic(spec) {
      var v :| OnClosedWalk(Dependencies(spec), v);
      ClosedWalkVertex(ids, pairs, v);
      var i :| 0 <= i < |comps| && v in comps[i];
      CyclicIff(ids, pairs, comps, i, v);
      assert comps[i] in cycles;
    }
  }

  // ---- check 9 -------------------------------------------------------------------------------------

  /** `v` declares a loop, or some loop names it in its body. */
  ghost predicate Participant(nodes: seq<NodeSpec>, v: Id) {
    exists i :: 0 <= i < |nodes| && nodes[i].loop.Some? && (nodes[i].nodeId == v || v in nodes[i].loop.value.bodyNodeIds)
  }

  method LoopParticipants(spec: GraphSpec) returns (participants: set<Id>)
    ensures forall v :: v in participants <==> Participant(spec.nodes, v)
  {
    participants := {};
    for i := 0 to |spec.nodes|
      invariant forall v :: v in participants <==> Participant(spec.nodes[..i], v)
    {
      var node := spec.nodes[i];
      ghost var before := participants;
      if node.loop.Some? {
        participants := participants + {node.nodeId};
        for b := 0 to |node.loop.value.bodyNodeIds|
          invariant forall v :: v in participants <==> v in before || v == node.nodeId || v in node.loop.value.bodyNodeIds[..b]
        {
          participants := participants + {node.loop.value.bodyNodeIds[b]};
        }
        assert node.loop.value.bodyNodeIds[..|node.loop.value.bodyNodeIds|] == node.loop.value.bodyNodeIds;
      }
      forall v ensures v in participants <==> Participant(spec.nodes[..i + 1], v) {
        ParticipantStep(spec.nodes, i, v);
      }
    }
    assert spec.nodes[..|spec.nodes|] == spec.nodes;
  }

  lemma ParticipantStep(nodes: seq<NodeSpec>, i: nat, v: Id)
    requires i < |nodes|
    ensures Participant(nodes[..i + 1], v) <==>
            Participant(nodes[..i], v) || (nodes[i].loop.Some? && (nodes[i].nodeId == v || v in nodes[i].loop.value.bodyNodeIds))
  {
    if Participant(nodes[..i], v) {
      var k :| 0 <= k < i && nodes[..i][k].loop.Some? && (nodes[..i][k].nodeId == v || v in nodes[..i][k].loop.value.bodyNodeIds);
      assert nodes[..i + 1][k] == nodes[..i][k];
    }
    if nodes[i].loop.Some? && (nodes[i].nodeId == v || v in nodes[i].loop.value.bodyNodeIds) {
      assert nodes[..i + 1][i] == nodes[i];
    }
    if Participant(nodes[..i + 1], v) {
      var k :| 0 <= k < i + 1 && nodes[..i + 1][k].loop.Some? && (nodes[..i + 1][k].nodeId == v || v in nodes[..i + 1][k].loop.value.bodyNodeIds);
      if k < i { assert nodes[..i][k] == nodes[..i + 1][k]; }
    }
  }

  /** Check 9's meaning: a route edge that closes a control cycle has its whole class inside loops. */
  ghost predicate Terminates(spec: GraphSpec) {
    forall i, v ::
      (&& 0 <= i < |spec.typedEdges| && spec.typedEdges[i].kind == Route
       && Mutual(Control(spec), spec.typedEdges[i].from, spec.typedEdges[i].to)
       && Mutual(Control(spec), spec.typedEdges[i].from, v)) ==> Participant(spec.nodes, v)
  }

  /** Every control edge inside the component is a bounded repair or fallback. */
  predicate AllRepairable(edges: seq<EdgeSpec>, component: seq<Id>) {
    forall i :: 0 <= i < |edges| && IsRouting(edges[i].kind) && edges[i].from in component && edges[i].to in component ==>
      IsRetry(edges[i].kind)
  }

  /** One issue per control cycle that neither retries alone nor declared loops hold in check. */
  method CheckTermination(spec: GraphSpec) returns (issues: seq<Issue>)
    ensures Tagged(issues, 9, NonTerminating)
    ensures EndpointsDeclared(spec) ==> (|issues| == 0 <==> Terminates(spec))
  {
    hide Tarjan.SccPartition, Tarjan.Adjacency, Tarjan.Vertices, Terminates, EndpointsDeclared, AllRepairable, Participant, IsCyclic;
    var cycles;
    ghost var all;
    cycles, all := CyclicComponents(NodeIds(spec.nodes), Pairs(spec.typedEdges, IsRouting));
    var participants := LoopParticipants(spec);
    issues := [];
    for i := 0 to |cycles|
      invariant Tagged(issues, 9, NonTerminating)
      invariant |issues| == 0 <==> forall k :: 0 <= k < i ==> Bounded(spec, cycles[k])
    {
      var component := cycles[i];
      var allRepairable := AllRepairable(spec.typedEdges, component);
      var allInLoop := forall m :: m in component ==> m in participants;
      if !allRepairable && !allInLoop {
        issues := issues + [Issue(9, NonTerminating)];
      }
    }
    if EndpointsDeclared(spec) { TerminatesIff(spec, all, cycles); }
  }

  ghost predicate Bounded(spec: GraphSpec, component: seq<Id>) {
    AllRepairable(spec.typedEdges, component) || forall m :: m in component ==> Participant(spec.nodes, m)
  }

  lemma ControlEdge(spec: GraphSpec, i: nat)
    requires i < |spec.typedEdges| && IsRouting(spec.typedEdges[i].kind) && HasNode(spec.nodes, spec.typedEdges[i].from)
    ensures spec.typedEdges[i].to in Neighbours(Control(spec), spec.typedEdges[i].from)
    ensures (spec.typedEdges[i].from, spec.typedEdges[i].to) in Pairs(spec.typedEdges, IsRouting)
  {
    var e := spec.typedEdges[i];
    ProjectionEdge(spec, IsRouting, e.from, e.to);
    PairsMember(spec.typedEdges, IsRouting, e.from, e.to);
  }

  lemma ReachableVertex(nodeIds: seq<Id>, edges: seq<(Id, Id)>, u: Id, v: Id)
    requires u in Tarjan.Vertices(nodeIds, edges) && Reach(Tarjan.Adjacency(nodeIds, edges), u, v)
    ensures v in Tarjan.Vertices(nodeIds, edges)
  {
    var p :| IsWalk(Tarjan.Adjacency(nodeIds, edges), u, v, p);
    if |p| > 1 {
      assert p[|p| - 2 + 1] in Neighbours(Tarjan.Adjacency(nodeIds, edges), p[|p| - 2]);
      Tarjan.NeighbourIsVertex(nodeIds, edges, p[|p| - 2], v);
    }
  }

  lemma TerminatesIff(spec: GraphSpec, comps: seq<seq<Id>>, cycles: seq<seq<Id>>)
    requires EndpointsDeclared(spec)
    requires var ids, pairs := NodeIds(spec.nodes), Pairs(spec.typedEdges, IsRouting);
      && Tarjan.SccPartition(Tarjan.Adjacency(ids, pairs), Tarjan.Vertices(ids, pairs), comps)
      && forall c :: c in cycles <==> c in comps && IsCyclic(c, pairs)
    ensures (forall k :: 0 <= k < |cycles| ==> Bounded(spec, cycles[k])) <==> Terminates(spec)
  {
    hide Tarjan.Adjacency, Tarjan.Vertices, Reach, IsCyclic, Participant;
    if forall k :: 0 <= k < |cycles| ==> Bounded(spec, cycles[k]) {
      forall i, v | 0 <= i < |spec.typedEdges| && spec.typedEdges[i].kind == Route
        && Mutual(Control(spec), spec.typedEdges[i].from, spec.typedEdges[i].to)
        && Mutual(Control(spec), spec.typedEdges[i].from, v)
        ensures Participant(spec.nodes, v)
      {
        RouteCycleInLoop(spec, comps, cycles, i, v);
      }
    }
    if Terminates(spec) {
      forall k | 0 <= k < |cycles| ensures Bounded(spec, cycles[k]) {
        assert cycles[k] in cycles;
        var c :| 0 <= c < |comps| && comps[c] == cycles[k];
        TerminatingIsBounded(spec, comps, c);
      }
    }
  }

  lemma RouteCycleInLoop(spec: GraphSpec, comps: seq<seq<Id>>, cycles: seq<seq<Id>>, i: nat, v: Id)
    requires EndpointsDeclared(spec)
    requires var ids, pairs := NodeIds(spec.nodes), Pairs(spec.typedEdges, IsRouting);
      && Tarjan.SccPartition(Tarjan.Adjacency(ids, pairs), Tarjan.Vertices(ids, pairs), comps)
      && forall c :: c in cycles <==> c in comps && IsCyclic(c, pairs)
    requires forall k :: 0 <= k < |cycles| ==> Bounded(spec, cycles[k])
    requires i < |spec.typedEdges| && spec.typedEdges[i].kind == Route
    requires Mutual(Control(spec), spec.typedEdges[i].from, spec.typedEdges[i].to)
    requires Mutual(Control(spec), spec.typedEdges[i].from, v)
    ensures Participant(spec.nodes, v)
  {
    hide Tarjan.Adjacency, Tarjan.Vertices, Reach, Participant, OnClosedWalk;
    var ids, pairs := NodeIds(spec.nodes), Pairs(spec.typedEdges, IsRouting);
    var adj := Tarjan.Adjacency(ids, pairs);
    assert Control(spec) == adj;
    var from, to := spec.typedEdges[i].from, spec.typedEdges[i].to;
    DeclaredVertices(spec, IsRouting);
    PairsFrom(spec, IsRouting);
    ControlEdge(spec, i);
    ReachableVertex(ids, pairs, from, v);
    var c :| 0 <= c < |comps| && from in comps[c];
    ClosedWalkIff(adj, from);
    CyclicIff(ids, pairs, comps, c, from);
    assert comps[c] in cycles;
    var k :| 0 <= k < |cycles| && cycles[k] == comps[c];
    assert Bounded(spec, cycles[k]);
    assert to in comps[c] && v in comps[c];
  }

  lemma TerminatingIsBounded(spec: GraphSpec, comps: seq<seq<Id>>, c: nat)
    requires EndpointsDeclared(spec) && Terminates(spec)
    requires var ids, pairs := NodeIds(spec.nodes), Pairs(spec.typedEdges, IsRouting);
      Tarjan.SccPartition(Tarjan.Adjacency(ids, pairs), Tarjan.Vertices(ids, pairs), comps)
    requires c < |comps|
    ensures Bounded(spec, comps[c])
  {
    hide Tarjan.Adjacency, Tarjan.Vertices, Reach, Participant, EndpointsDeclared;
    assert Control(spec) == Tarjan.Adjacency(NodeIds(spec.nodes), Pairs(spec.typedEdges, IsRouting));
    var comp := comps[c];
    if !AllRepairable(spec.typedEdges, comp) {
      var i :| 0 <= i < |spec.typedEdges| && IsRouting(spec.typedEdges[i].kind) && spec.typedEdges[i].from in comp
        && spec.typedEdges[i].to in comp && !IsRetry(spec.typedEdges[i].kind);
      assert Mutual(Control(spec), spec.typedEdges[i].from, spec.typedEdges[i].to);
      forall m | m in comp ensures Participant(spec.nodes, m) {
        assert Mutual(Control(spec), spec.typedEdges[i].from, m);
      }
    }
  }
}
