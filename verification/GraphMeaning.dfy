/** What acceptance buys: bounded control walks, and always a node whose producers are all done. */
module GraphMeaning {
  import opened Options
  import opened GraphTypes
  import opened GraphChecks
  import opened GraphCycles
  import opened GraphGate
  import opened Walks
  import Tarjan

  // ---- control walks are bounded -------------------------------------------------------------------

  /** A run along control edges, given by the positions of the edges it takes. */
  ghost predicate ControlWalk(spec: GraphSpec, w: seq<nat>) {
    && (forall i :: 0 <= i < |w| ==> w[i] < |spec.typedEdges| && IsRouting(spec.typedEdges[w[i]].kind))
    && (forall i :: 0 <= i < |w| - 1 ==> spec.typedEdges[w[i]].to == spec.typedEdges[w[i + 1]].from)
  }

  /** No node the walk leaves is inside a declared loop. */
  ghost predicate OutsideLoops(spec: GraphSpec, w: seq<nat>)
    requires ControlWalk(spec, w)
  {
    forall i :: 0 <= i < |w| ==> !Participant(spec.nodes, spec.typedEdges[w[i]].from)
  }

  /** How often the walk takes the edge at position `k`. */
  function Uses(w: seq<nat>, k: nat): nat {
    if |w| == 0 then 0 else Uses(w[..|w| - 1], k) + if w[|w| - 1] == k then 1 else 0
  }

  /** Each repair or fallback edge is taken at most as often as it declares. */
  ghost predicate WithinAttempts(spec: GraphSpec, w: seq<nat>) {
    forall k :: 0 <= k < |spec.typedEdges| && IsRetry(spec.typedEdges[k].kind) && spec.typedEdges[k].maxAttempts.Some? ==>
      Uses(w, k) <= spec.typedEdges[k].maxAttempts.value
  }

  /** What one edge contributes to the bound: once for a route, its attempts for a repair or fallback. */
  function Allowance(e: EdgeSpec): int {
    if e.kind == Route then 1 else if IsRetry(e.kind) && e.maxAttempts.Some? then e.maxAttempts.value else 0
  }

  /** Number of route edges plus the sum of all declared attempts. */
  function Budget(edges: seq<EdgeSpec>): int {
    if |edges| == 0 then 0 else Budget(edges[..|edges| - 1]) + Allowance(edges[|edges| - 1])
  }

  /** Consecutive edges of a control walk are a walk between nodes. */
  lemma {:induction false} WalkReaches(spec: GraphSpec, w: seq<nat>, i: nat, j: nat)
    requires EndpointsDeclared(spec) && ControlWalk(spec, w) && i < j < |w|
    ensures Reach(Control(spec), spec.typedEdges[w[i]].to, spec.typedEdges[w[j]].from)
    decreases j - i
  {
    hide Reach, Control, Neighbours;
    if j == i + 1 {
      ReachSelf(Control(spec), spec.typedEdges[w[i]].to);
    } else {
      var e := spec.typedEdges[w[i + 1]];
      ControlEdge(spec, w[i + 1]);
      ReachEdge(Control(spec), e.from, e.to);
      WalkReaches(spec, w, i + 1, j);
      ReachTrans(Control(spec), e.from, e.to, spec.typedEdges[w[j]].from);
    }
  }

  /** Outside loops a route edge never repeats: repeating it would close an unbounded cycle. */
  lemma RouteOnce(spec: GraphSpec, w: seq<nat>, i: nat, j: nat)
    requires EndpointsDeclared(spec) && Terminates(spec) && ControlWalk(spec, w) && OutsideLoops(spec, w)
    requires i < j < |w| && w[i] == w[j]
    ensures spec.typedEdges[w[i]].kind != Route
  {
    hide Reach, Control, Neighbours, Participant;
    var e := spec.typedEdges[w[i]];
    WalkReaches(spec, w, i, j);
    ControlEdge(spec, w[i]);
    ReachEdge(Control(spec), e.from, e.to);
    ReachSelf(Control(spec), e.from);
    assert Mutual(Control(spec), e.from, e.to) && Mutual(Control(spec), e.from, e.from);
  }

  lemma {:induction false} UsesMeaning(w: seq<nat>, k: nat)
    ensures Uses(w, k) >= 2 ==> exists i, j :: 0 <= i < j < |w| && w[i] == w[j] == k
    ensures Uses(w, k) >= 1 ==> exists i :: 0 <= i < |w| && w[i] == k
  {
    if |w| > 0 {
      var init := w[..|w| - 1];
      UsesMeaning(init, k);
      if Uses(w, k) >= 2 && w[|w| - 1] == k {
        var i :| 0 <= i < |init| && init[i] == k;
        assert w[i] == w[|w| - 1] == k;
      } else if Uses(w, k) >= 2 {
        var i, j :| 0 <= i < j < |init| && init[i] == init[j] == k;
        assert w[i] == w[j] == k;
      }
      if Uses(w, k) >= 1 && w[|w| - 1] != k {
        var i :| 0 <= i < |init| && init[i] == k;
        assert w[i] == k;
      }
    }
  }

  /** Total uses of the first `n` edges. */
  function TotalUses(w: seq<nat>, n: nat): nat { if n == 0 then 0 else TotalUses(w, n - 1) + Uses(w, n - 1) }

  lemma {:induction false} TotalUsesStep(w: seq<nat>, n: nat)
    requires |w| > 0
    ensures TotalUses(w, n) == TotalUses(w[..|w| - 1], n) + if w[|w| - 1] < n then 1 else 0
  {
    if n > 0 { TotalUsesStep(w, n - 1); }
  }

  lemma {:induction false} TotalUsesEmpty(n: nat)
    ensures TotalUses([], n) == 0
  {
    if n > 0 { TotalUsesEmpty(n - 1); }
  }

  lemma {:induction false} LengthIsTotal(w: seq<nat>, n: nat)
    requires forall i :: 0 <= i < |w| ==> w[i] < n
    ensures |w| == TotalUses(w, n)
  {
    if |w| == 0 {
      TotalUsesEmpty(n);
    } else {
      TotalUsesStep(w, n);
      LengthIsTotal(w[..|w| - 1], n);
    }
  }

  lemma {:induction false} TotalWithinBudget(spec: GraphSpec, w: seq<nat>, n: nat)
    requires n <= |spec.typedEdges|
    requires forall k :: 0 <= k < |spec.typedEdges| ==> Uses(w, k) <= Allowance(spec.typedEdges[k])
    ensures TotalUses(w, n) <= Budget(spec.typedEdges[..n])
  {
    if n > 0 {
      TotalWithinBudget(spec, w, n - 1);
      assert spec.typedEdges[..n][..n - 1] == spec.typedEdges[..n - 1];
    }
  }

  /**
   * In an accepted graph a control walk outside declared loops, which respects the declared attempts,
   * is no longer than the number of route edges plus the sum of all declared attempts.
   */
  lemma ControlWalkBounded(spec: GraphSpec, context: Context, w: seq<nat>)
    requires Accepted(spec, context)
    requires ControlWalk(spec, w) && OutsideLoops(spec, w) && WithinAttempts(spec, w)
    ensures |w| <= Budget(spec.typedEdges)
  {
    assert CheckHolds(spec, context, 2) && CheckHolds(spec, context, 8) && CheckHolds(spec, context, 9);
    forall k | 0 <= k < |spec.typedEdges| ensures Uses(w, k) <= Allowance(spec.typedEdges[k]) {
      UsesWithinAllowance(spec, w, k);
    }
    LengthIsTotal(w, |spec.typedEdges|);
    TotalWithinBudget(spec, w, |spec.typedEdges|);
    assert spec.typedEdges[..|spec.typedEdges|] == spec.typedEdges;
  }

  lemma UsesWithinAllowance(spec: GraphSpec, w: seq<nat>, k: nat)
    requires EndpointsDeclared(spec) && Terminates(spec) && BoundsOk(spec)
    requires ControlWalk(spec, w) && OutsideLoops(spec, w) && WithinAttempts(spec, w) && k < |spec.typedEdges|
    ensures Uses(w, k) <= Allowance(spec.typedEdges[k])
  {
    hide Participant, Control, Terminates;
    UsesMeaning(w, k);
    var e := spec.typedEdges[k];
    if e.kind == Route && Uses(w, k) >= 2 {
      var i, j :| 0 <= i < j < |w| && w[i] == w[j] == k;
      RouteOnce(spec, w, i, j);
    } else if IsRetry(e.kind) {
      assert EdgeBounded(spec.graphLimits, e);
    }
  }

  /** Conversely, a closed control walk outside loops takes repair and fallback edges only. */
  lemma ClosedControlWalk(spec: GraphSpec, context: Context, w: seq<nat>, i: nat)
    requires Accepted(spec, context)
    requires ControlWalk(spec, w) && OutsideLoops(spec, w) && i < |w|
    requires spec.typedEdges[w[|w| - 1]].to == spec.typedEdges[w[0]].from
    ensures IsRetry(spec.typedEdges[w[i]].kind) && spec.typedEdges[w[i]].maxAttempts.Some?
  {
    assert CheckHolds(spec, context, 2) && CheckHolds(spec, context, 8) && CheckHolds(spec, context, 9);
    assert EdgeBounded(spec.graphLimits, spec.typedEdges[w[i]]);
    TwiceAround(spec, w, i);
    RouteOnce(spec, w + w, i, i + |w|);
  }

  lemma TwiceAround(spec: GraphSpec, w: seq<nat>, i: nat)
    requires ControlWalk(spec, w) && OutsideLoops(spec, w) && i < |w|
    requires spec.typedEdges[w[|w| - 1]].to == spec.typedEdges[w[0]].from
    ensures ControlWalk(spec, w + w) && OutsideLoops(spec, w + w) && (w + w)[i] == (w + w)[i + |w|] == w[i]
  {}

  // ---- progress ------------------------------------------------------------------------------------

  /** Every producer a node depends on, by a dependency or data edge, has succeeded. */
  ghost predicate ProducersDone(spec: GraphSpec, done: set<Id>, id: Id) {
    forall i :: 0 <= i < |spec.typedEdges| && IsBlocking(spec.typedEdges[i].kind) && spec.typedEdges[i].to == id ==>
      spec.typedEdges[i].from in done
  }

  ghost function Pending(nodes: seq<NodeSpec>, done: set<Id>): set<Id> {
    set id | id in NodeIds(nodes) && id !in done
  }

  predicate IsJoin(n: NodeSpec) { n.kind == JoinKind }

  /** The required branches of a join are done. */
  ghost predicate BranchesDone(spec: GraphSpec, done: set<Id>, id: Id) {
    forall i, b :: 0 <= i < |spec.nodes| && IsJoin(spec.nodes[i]) && spec.nodes[i].nodeId == id && b in spec.nodes[i].requiredBranches ==>
      b in done
  }

  /** However far an accepted graph got, some unfinished node has all its producers done. */
  lemma SomeNodeCanStart(spec: GraphSpec, context: Context, done: set<Id>) returns (id: Id)
    requires Accepted(spec, context)
    requires Unfinished(spec, done)
    ensures HasNode(spec.nodes, id) && id !in done && ProducersDone(spec, done, id)
  {
    assert CheckHolds(spec, context, 2) && CheckHolds(spec, context, 3);
    hide Accepted, CheckHolds, OnClosedWalk, Tarjan.Adjacency, NodeIds;
    assert Dependencies(spec) == Tarjan.Adjacency(NodeIds(spec.nodes), Pairs(spec.typedEdges, IsBlocking));
    id := SourceOf(spec, Pairs(spec.typedEdges, IsBlocking), done);
    forall i | 0 <= i < |spec.typedEdges| && IsBlocking(spec.typedEdges[i].kind) && spec.typedEdges[i].to == id
      ensures spec.typedEdges[i].from in done
    {
      PairsMember(spec.typedEdges, IsBlocking, spec.typedEdges[i].from, id);
    }
  }

  /** In a graph without closed walks, some unfinished node is the target of no unfinished node. */
  lemma SourceOf(spec: GraphSpec, pairs: seq<(Id, Id)>, done: set<Id>) returns (id: Id)
    requires forall v :: !OnClosedWalk(Tarjan.Adjacency(NodeIds(spec.nodes), pairs), v)
    requires Unfinished(spec, done)
    ensures HasNode(spec.nodes, id) && id !in done
    ensures forall u :: HasNode(spec.nodes, u) && (u, id) in pairs ==> u in done
  {
    var i :| 0 <= i < |spec.nodes| && spec.nodes[i].nodeId !in done;
    var pending := Pending(spec.nodes, done);
    forall v ensures v in pending <==> HasNode(spec.nodes, v) && v !in done { IdsMember(spec.nodes, v); }
    assert HasNode(spec.nodes, spec.nodes[i].nodeId);
    id := FindSource(Tarjan.Adjacency(NodeIds(spec.nodes), pairs), pending, [spec.nodes[i].nodeId]);
    forall u | HasNode(spec.nodes, u) && (u, id) in pairs ensures u in done {
      IdsMember(spec.nodes, u);
      NeighbourEdge(NodeIds(spec.nodes), pairs, u, id);
    }
  }

  // ---- joins wait for their branches, and for nothing else -------------------------------------------

  /** (branch, join) for every branch a join requires. */
  function BranchPairs(nodes: seq<NodeSpec>): seq<(Id, Id)> {
    if |nodes| == 0 then []
    else BranchPairs(nodes[..|nodes| - 1]) + if IsJoin(nodes[|nodes| - 1]) then PairsOf(nodes[|nodes| - 1]) else []
  }

  function PairsOf(n: NodeSpec): seq<(Id, Id)> {
    seq(|n.requiredBranches|, i requires 0 <= i < |n.requiredBranches| => (n.requiredBranches[i], n.nodeId))
  }

  lemma PairsOfMember(n: NodeSpec, b: Id, id: Id)
    ensures (b, id) in PairsOf(n) <==> n.nodeId == id && b in n.requiredBranches
  {
    if b in n.requiredBranches && n.nodeId == id {
      var k :| 0 <= k < |n.requiredBranches| && n.requiredBranches[k] == b;
      assert PairsOf(n)[k] == (b, id);
    }
  }

  ghost predicate Requires(nodes: seq<NodeSpec>, b: Id, id: Id) {
    exists i :: 0 <= i < |nodes| && IsJoin(nodes[i]) && nodes[i].nodeId == id && b in nodes[i].requiredBranches
  }

  lemma {:induction false} BranchPairsMember(nodes: seq<NodeSpec>, b: Id, id: Id)
    ensures (b, id) in BranchPairs(nodes) <==> Requires(nodes, b, id)
  {
    hide PairsOf;
    if |nodes| > 0 {
      var init, n := nodes[..|nodes| - 1], nodes[|nodes| - 1];
      BranchPairsMember(init, b, id);
      PairsOfMember(n, b, id);
      if Requires(init, b, id) {
        var i :| 0 <= i < |init| && IsJoin(init[i]) && init[i].nodeId == id && b in init[i].requiredBranches;
        assert nodes[i] == init[i];
      }
      if Requires(nodes, b, id) {
        var i :| 0 <= i < |nodes| && IsJoin(nodes[i]) && nodes[i].nodeId == id && b in nodes[i].requiredBranches;
        if i < |init| { assert init[i] == nodes[i]; }
      }
    }
  }

  /** A node of this id that is no join. */
  predicate IsPlain(nodes: seq<NodeSpec>, id: Id) { exists i :: 0 <= i < |nodes| && !IsJoin(nodes[i]) && nodes[i].nodeId == id }

  /** The pairs that lead to a node that is no join. */
  function IntoPlain(nodes: seq<NodeSpec>, pairs: seq<(Id, Id)>): seq<(Id, Id)> {
    if |pairs| == 0 then []
    else IntoPlain(nodes, pairs[..|pairs| - 1]) + if IsPlain(nodes, pairs[|pairs| - 1].1) then [pairs[|pairs| - 1]] else []
  }

  lemma {:induction false} IntoPlainMember(nodes: seq<NodeSpec>, pairs: seq<(Id, Id)>, u: Id, id: Id)
    ensures (u, id) in IntoPlain(nodes, pairs) <==> (u, id) in pairs && IsPlain(nodes, id)
  {
    hide IsPlain;
    if |pairs| > 0 {
      var init := pairs[..|pairs| - 1];
      IntoPlainMember(nodes, init, u, id);
      assert pairs == init + [pairs[|pairs| - 1]];
    }
  }

  /** Everything a node waits for: a join for its required branches, any other node for its blocking producers. */
  function WaitPairs(spec: GraphSpec): seq<(Id, Id)> {
    IntoPlain(spec.nodes, Pairs(spec.typedEdges, IsBlocking)) + BranchPairs(spec.nodes)
  }

  ghost function Waits(spec: GraphSpec): map<Id, seq<Id>> { Tarjan.Adjacency(NodeIds(spec.nodes), WaitPairs(spec)) }

  ghost predicate CanStart(spec: GraphSpec, done: set<Id>, id: Id) {
    HasNode(spec.nodes, id) && id !in done && (IsPlain(spec.nodes, id) ==> ProducersDone(spec, done, id)) && BranchesDone(spec, done, id)
  }

  /** Whatever is done, as long as something is not, some node waits for nothing unfinished. */
  ghost predicate NeverStuck(spec: GraphSpec) {
    forall done: set<Id> :: Unfinished(spec, done) ==> exists id :: CanStart(spec, done, id)
  }

  ghost predicate Unfinished(spec: GraphSpec, done: set<Id>) {
    exists i :: 0 <= i < |spec.nodes| && spec.nodes[i].nodeId !in done
  }

  ghost predicate Feeds(spec: GraphSpec, u: Id, id: Id) {
    exists i :: 0 <= i < |spec.typedEdges| && IsBlocking(spec.typedEdges[i].kind) && spec.typedEdges[i].from == u && spec.typedEdges[i].to == id
  }

  lemma WaitPair(spec: GraphSpec, u: Id, id: Id)
    ensures (u, id) in WaitPairs(spec) <==> (IsPlain(spec.nodes, id) && Feeds(spec, u, id)) || Requires(spec.nodes, u, id)
  {
    hide IntoPlain, BranchPairs, IsPlain, Requires;
    PairsMember(spec.typedEdges, IsBlocking, u, id);
    IntoPlainMember(spec.nodes, Pairs(spec.typedEdges, IsBlocking), u, id);
    BranchPairsMember(spec.nodes, u, id);
  }

  lemma CanStartIff(spec: GraphSpec, done: set<Id>, id: Id)
    requires HasNode(spec.nodes, id) && id !in done
    ensures CanStart(spec, done, id) <==> forall u :: (u, id) in WaitPairs(spec) ==> u in done
  {
    hide HasNode, WaitPairs, IsPlain;
    forall u ensures (u, id) in WaitPairs(spec) <==> (IsPlain(spec.nodes, id) && Feeds(spec, u, id)) || Requires(spec.nodes, u, id) {
      WaitPair(spec, u, id);
    }
    if forall u :: (u, id) in WaitPairs(spec) ==> u in done {
      forall i | IsPlain(spec.nodes, id) && 0 <= i < |spec.typedEdges| && IsBlocking(spec.typedEdges[i].kind) && spec.typedEdges[i].to == id
        ensures spec.typedEdges[i].from in done
      { assert Feeds(spec, spec.typedEdges[i].from, id); }
      forall i, b | 0 <= i < |spec.nodes| && IsJoin(spec.nodes[i]) && spec.nodes[i].nodeId == id && b in spec.nodes[i].requiredBranches
        ensures b in done
      { assert Requires(spec.nodes, b, id); }
    }
  }

  /**
   * Some node can always start exactly when nothing waits for itself, directly or through others. Check 3 looks at
   * all blocking edges, those into joins included, and at no required branch.
   */
  lemma NeverStuckIff(spec: GraphSpec)
    requires ReferencesOk(spec)
    ensures NeverStuck(spec) <==> forall v :: !OnClosedWalk(Waits(spec), v)
  {
    hide OnClosedWalk, Tarjan.Adjacency, NodeIds, ReferencesOk, WaitPairs, CanStart, Unfinished;
    assert Waits(spec) == Tarjan.Adjacency(NodeIds(spec.nodes), WaitPairs(spec));
    if forall v :: !OnClosedWalk(Waits(spec), v) {
      forall done: set<Id> | Unfinished(spec, done)
        ensures exists id :: CanStart(spec, done, id)
      {
        var id := SourceOf(spec, WaitPairs(spec), done);
        forall u | (u, id) in WaitPairs(spec) ensures u in done { WaitedForDeclared(spec, u, id); }
        CanStartIff(spec, done, id);
      }
    }
    if v :| OnClosedWalk(Waits(spec), v) { StuckOnCycle(spec, v); }
  }

  lemma WaitedForDeclared(spec: GraphSpec, u: Id, id: Id)
    requires ReferencesOk(spec) && (u, id) in WaitPairs(spec)
    ensures HasNode(spec.nodes, u)
  {
    hide HasNode, DistinctNodes, DistinctEdges, JoinDeclared, WaitPairs;
    WaitPair(spec, u, id);
    if Requires(spec.nodes, u, id) {
      var i :| 0 <= i < |spec.nodes| && IsJoin(spec.nodes[i]) && spec.nodes[i].nodeId == id && u in spec.nodes[i].requiredBranches;
      assert NamesDeclared(spec.nodes, spec.nodes[i]);
      var k :| 0 <= k < |spec.nodes[i].requiredBranches| && spec.nodes[i].requiredBranches[k] == u;
    }
  }

  /** With everything done except the vertices of a closed walk, each of those waits for the one before it. */
  lemma StuckOnCycle(spec: GraphSpec, v: Id)
    requires ReferencesOk(spec) && OnClosedWalk(Waits(spec), v)
    ensures !NeverStuck(spec)
  {
    hide HasNode, WaitPairs, CanStart;
    var p :| IsWalk(Waits(spec), v, v, p) && |p| >= 2;
    var ids := NodeIds(spec.nodes);
    var done := set id | id in ids && id !in p;
    assert v in p && v !in done;
    assert p[1] in Neighbours(Waits(spec), p[0]);
    NeighbourEdge(ids, WaitPairs(spec), v, p[1]);
    IdsMember(spec.nodes, v);
    assert Unfinished(spec, done) by {
      var i :| 0 <= i < |ids| && ids[i] == v;
      assert spec.nodes[i].nodeId == v;
    }
    forall id ensures !CanStart(spec, done, id) { CycleVertexWaits(spec, p, done, id); }
  }

  lemma CycleVertexWaits(spec: GraphSpec, p: seq<Id>, done: set<Id>, id: Id)
    requires |p| >= 2 && IsWalk(Waits(spec), p[0], p[0], p)
    requires forall x :: x in done <==> x in NodeIds(spec.nodes) && x !in p
    ensures !CanStart(spec, done, id)
  {
    hide WaitPairs;
    if HasNode(spec.nodes, id) && id !in done {
      IdsMember(spec.nodes, id);
      var k :| 0 <= k < |p| && p[k] == id;
      var j := if k == 0 then |p| - 1 else k;
      assert p[j] == id && p[j - 1 + 1] in Neighbours(Waits(spec), p[j - 1]);
      NeighbourEdge(NodeIds(spec.nodes), WaitPairs(spec), p[j - 1], id);
      assert p[j - 1] in p;
      CanStartIff(spec, done, id);
    }
  }

  function JoinOn(id: Id, other: Id): NodeSpec { NodeSpec(id, JoinKind, true, [other], None, [], [], [], 1, [], "") }

  /** Two joins that require each other. */
  function MutualJoins(): GraphSpec {
    GraphSpec("1.1.0", "g", 1, "c", [JoinOn("a", "b"), JoinOn("b", "a")], [], ["a", "b"], [], GraphLimits(10, 10, 10), [])
  }

  /** The gate accepts a graph whose two joins wait for each other for ever. */
  lemma AcceptedButStuck()
    ensures Accepted(MutualJoins(), Context([], [], [], [], []))
    ensures !NeverStuck(MutualJoins())
  {
    MutualJoinsAccepted();
    MutualJoinsWait();
  }

  lemma MutualJoinsReferences()
    ensures ReferencesOk(MutualJoins())
  {
    var g := MutualJoins();
    assert g.nodes[0].nodeId == "a" && g.nodes[1].nodeId == "b" && "a" != "b";
    assert HasNode(g.nodes, "a") && HasNode(g.nodes, "b");
    hide HasNode;
    assert FindNode(g.nodes, "a") == Some(g.nodes[0]);
    assert FindNode(g.nodes, "b") == Some(g.nodes[1]) by { assert g.nodes[1..][0] == g.nodes[1]; }
  }

  lemma MutualJoinsFanIn()
    ensures FanInOk(MutualJoins())
  {
    hide FindNode, HasNode;
    MutualJoinsReferences();
    assert "a" != "b";
  }

  lemma MutualJoinsAccepted()
    ensures Accepted(MutualJoins(), Context([], [], [], [], []))
  {
    hide Acyclic, ReferencesOk, Accepted, Mutual, Control, Participant, FanInOk;
    MutualJoinsReferences();
    MutualJoinsFanIn();
    NoEdgesNoWalk(MutualJoins());
    AllHold(MutualJoins(), Context([], [], [], [], []));
  }

  lemma MutualJoinsWait()
    ensures !NeverStuck(MutualJoins())
  {
    var g := MutualJoins();
    var nothing: set<Id> := {};
    forall id ensures !CanStart(g, nothing, id) {
      if HasNode(g.nodes, id) {
        var i :| 0 <= i < |g.nodes| && g.nodes[i].nodeId == id;
        var b := g.nodes[i].requiredBranches[0];
        assert b in g.nodes[i].requiredBranches && b !in nothing;
        assert !BranchesDone(g, nothing, id);
      }
    }
    assert g.nodes[0].nodeId !in nothing;
    assert Unfinished(g, nothing);
  }

  lemma NoEdgesNoWalk(spec: GraphSpec)
    requires |spec.typedEdges| == 0
    ensures Acyclic(spec)
  {
    forall v ensures !OnClosedWalk(Dependencies(spec), v) {
      ClosedWalkIff(Dependencies(spec), v);
      forall n ensures n !in Neighbours(Dependencies(spec), v) { ProjectionEdge(spec, IsBlocking, v, n); }
    }
  }
}
