/** When a graph can be run to its end, by what readiness itself answers. */
module GraphProgress {
  import opened Options
  import opened GraphTypes
  import opened GraphChecks
  import opened GraphCycles
  import opened GraphGate
  import opened GraphMeaning
  import opened GraphDecide
  import opened Walks

  /** The facts say that exactly these nodes have succeeded, to plain nodes and to joins alike. */
  ghost predicate Agree(facts: NodeFacts, done: set<Id>) {
    && (forall id :: HasSucceeded(facts, id) <==> id in done)
    && (forall id :: Done(facts.branches, id) <==> id in done)
  }

  // ---- a join --------------------------------------------------------------------------------------------

  predicate JoinNode(g: CompiledGraph, id: Id) { g.Node(id).Some? && g.Node(id).value.kind == JoinKind }

  /** A join is ready exactly when its required branches are done; its own edges do not matter. */
  lemma JoinReadyIff(g: CompiledGraph, id: Id, facts: NodeFacts, done: set<Id>)
    requires JoinNode(g, id) && Agree(facts, done)
    ensures ReadinessOf(g, id, facts) == Ready <==> forall b :: b in g.Node(id).value.requiredBranches ==> b in done
  {
    var required := g.Node(id).value.requiredBranches;
    assert (forall b :: b in required ==> b in done) <==> AllDone(facts.branches, required) by {
      if AllDone(facts.branches, required) {
        forall b | b in required ensures b in done {
          var k :| 0 <= k < |required| && required[k] == b;
          assert Done(facts.branches, required[k]);
        }
      }
    }
    hide HasDeclaredCover, Done;
  }

  // ---- any other node --------------------------------------------------------------------------------------

  /** One artifact can meet both data edges. */
  predicate Fit(e: EdgeSpec, f: EdgeSpec) {
    e.expected == f.expected && (e.artifact.Some? && f.artifact.Some? ==> e.artifact.value.digest == f.artifact.value.digest)
  }

  /** The facts hold one artifact for each producer: the data inputs from one must fit together. */
  ghost predicate InputsFit(edges: seq<EdgeSpec>) {
    && (forall e :: e in edges && e.kind == Data ==> e.expected.Some?)
    && (forall e, f :: e in edges && f in edges && e.kind == Data && f.kind == Data && e.from == f.from ==> Fit(e, f))
  }

  predicate Holdable(g: CompiledGraph, id: Id) { id in g.resourcePolicy && g.resourcePolicy[id].maxHolders != 0 }

  /** Nothing the node declares keeps it from ever being ready. */
  ghost predicate Attainable(g: CompiledGraph, id: Id)
    requires Plain(g, id)
  {
    InputsFit(g.EdgesTo(id)) && forall r :: r in Resources(g, id) ==> Holdable(g, r)
  }

  ghost predicate FedBy(edges: seq<EdgeSpec>, done: set<Id>) {
    forall e :: e in edges && IsBlocking(e.kind) ==> e.from in done
  }

  lemma {:induction false} ShortIff(g: CompiledGraph, declared: seq<Id>, facts: NodeFacts)
    ensures ResourceGap(g, declared, facts).None? <==> forall r :: r in declared ==> Available(g, r, facts)
    ensures ResourceGap(g, declared, facts).Some? ==> ResourceGap(g, declared, facts).value != Ready
  {
    if |declared| > 0 {
      ShortIff(g, declared[1..], facts);
      assert declared[0] in declared;
      forall r ensures r in declared <==> r == declared[0] || r in declared[1..] {
        assert declared == [declared[0]] + declared[1..];
      }
    }
  }

  /** By the inputs and resources themselves. */
  lemma PlainReadyIff(g: CompiledGraph, id: Id, facts: NodeFacts)
    requires Plain(g, id)
    ensures ReadinessOf(g, id, facts) == Ready <==>
            (forall e :: e in g.EdgesTo(id) ==> InputMet(e, facts)) && forall r :: r in Resources(g, id) ==> Available(g, r, facts)
  {
    hide InputGap, ResourceGap, InputMet, Available;
    var edges := g.EdgesTo(id);
    InputGapIff(g, edges, facts);
    ShortIff(g, Resources(g, id), facts);
    assert forall i :: 0 <= i < |edges| ==> edges[i] in edges;
  }

  lemma ReadyNeeds(g: CompiledGraph, id: Id, facts: NodeFacts, done: set<Id>)
    requires Plain(g, id) && Agree(facts, done) && ReadinessOf(g, id, facts) == Ready
    ensures FedBy(g.EdgesTo(id), done) && Attainable(g, id)
  {
    PlainReadyIff(g, id, facts);
    hide ReadinessOf;
    var edges := g.EdgesTo(id);
    forall e | e in edges && IsBlocking(e.kind) ensures e.from in done { assert InputMet(e, facts); }
    forall e | e in edges && e.kind == Data ensures e.expected.Some? { assert InputMet(e, facts); }
    forall e, f | e in edges && f in edges && e.kind == Data && f.kind == Data && e.from == f.from ensures Fit(e, f) {
      assert InputMet(e, facts) && InputMet(f, facts);
    }
    forall r | r in Resources(g, id) ensures Holdable(g, r) { assert Available(g, r, facts); }
  }

  /** The artifact that meets every data edge from this producer, when they fit together. */
  ghost function Made(edges: seq<EdgeSpec>, from: Id): ArtifactRef
    requires exists e :: e in edges && e.kind == Data && e.from == from && e.expected.Some?
  {
    var e :| e in edges && e.kind == Data && e.from == from && e.expected.Some?;
    if f :| f in edges && f.kind == Data && f.from == from && f.artifact.Some?
    then ArtifactRef("", f.artifact.value.digest, None, e.expected.value, "")
    else ArtifactRef("", "", None, e.expected.value, "")
  }

  /** The facts at which exactly `done` have succeeded and everything else a node may ask for is there. */
  ghost function Provided(edges: seq<EdgeSpec>, done: set<Id>): NodeFacts {
    NodeFacts(map id | id in done :: Succeeded,
              map id | id in (set e | e in edges && e.kind == Data && e.expected.Some? :: e.from) :: Made(edges, id),
              map[], 0, map id | id in done :: BranchFacts(Some(Succeeded), "", None))
  }

  lemma ProvidedAgrees(edges: seq<EdgeSpec>, done: set<Id>)
    ensures Agree(Provided(edges, done), done)
  {
    hide Made;
  }

  lemma ProvidedMeets(edges: seq<EdgeSpec>, done: set<Id>, e: EdgeSpec)
    requires InputsFit(edges) && FedBy(edges, done) && e in edges
    ensures InputMet(e, Provided(edges, done))
  {
    if e.kind == Data {
      assert e.expected.Some? && IsBlocking(e.kind);
      MadeMeets(edges, e);
      hide Made;
      assert e.from in (set x | x in edges && x.kind == Data && x.expected.Some? :: x.from);
      assert Provided(edges, done).artifacts[e.from] == Made(edges, e.from);
    }
  }

  lemma MadeMeets(edges: seq<EdgeSpec>, e: EdgeSpec)
    requires InputsFit(edges) && e in edges && e.kind == Data
    ensures e.expected.Some? && ArtifactConsumable(e, Some(Made(edges, e.from)))
  {
    assert e.expected.Some?;
    if e.artifact.Some? { assert exists f :: f in edges && f.kind == Data && f.from == e.from && f.artifact.Some?; }
    assert forall f :: f in edges && f.kind == Data && f.from == e.from ==> Fit(e, f);
  }

  /** A plain node can be ready at facts that say `done`, exactly when its producers are done and nothing it declares rules it out. */
  lemma PlainPossibleIff(g: CompiledGraph, id: Id, done: set<Id>)
    requires Plain(g, id)
    ensures (exists facts :: Agree(facts, done) && ReadinessOf(g, id, facts) == Ready) <==> FedBy(g.EdgesTo(id), done) && Attainable(g, id)
  {
    hide ReadinessOf;
    if facts :| Agree(facts, done) && ReadinessOf(g, id, facts) == Ready { ReadyNeeds(g, id, facts, done); }
    if FedBy(g.EdgesTo(id), done) && Attainable(g, id) {
      var edges := g.EdgesTo(id);
      var facts := Provided(edges, done);
      forall e | e in edges ensures InputMet(e, facts) { ProvidedMeets(edges, done, e); }
      forall r | r in Resources(g, id) ensures Available(g, r, facts) { assert Holdable(g, r); }
      PlainReadyIff(g, id, facts);
      ProvidedAgrees(edges, done);
    }
  }

  lemma JoinPossibleIff(g: CompiledGraph, id: Id, done: set<Id>)
    requires JoinNode(g, id)
    ensures (exists facts :: Agree(facts, done) && ReadinessOf(g, id, facts) == Ready) <==>
            forall b :: b in g.Node(id).value.requiredBranches ==> b in done
  {
    hide ReadinessOf, Agree;
    ProvidedAgrees([], done);
    JoinReadyIff(g, id, Provided([], done), done);
    if facts :| Agree(facts, done) && ReadinessOf(g, id, facts) == Ready { JoinReadyIff(g, id, facts, done); }
  }

  // ---- the waiting relation is what readiness waits for ---------------------------------------------------

  lemma TheNode(g: CompiledGraph, id: Id)
    requires Indexes(g) && DistinctNodes(g.spec.nodes) && HasNode(g.spec.nodes, id)
    ensures g.Node(id).Some? && g.Node(id).value in g.spec.nodes && g.Node(id).value.nodeId == id
    ensures forall i :: 0 <= i < |g.spec.nodes| && g.spec.nodes[i].nodeId == id ==> g.spec.nodes[i] == g.Node(id).value
  {
    NodeIndexed(g, id);
    LastIsFind(g.spec.nodes, id);
    var n := g.Node(id).value;
    var k :| 0 <= k < |g.spec.nodes| && g.spec.nodes[k] == n;
    hide Indexes, HasNode;
    forall i | 0 <= i < |g.spec.nodes| && g.spec.nodes[i].nodeId == id ensures g.spec.nodes[i] == n { OneOf(g.spec.nodes, i, k); }
  }

  lemma OneOf(nodes: seq<NodeSpec>, i: nat, k: nat)
    requires DistinctNodes(nodes) && i < |nodes| && k < |nodes| && nodes[i].nodeId == nodes[k].nodeId
    ensures i == k
  {}

  lemma ProducersFeed(g: CompiledGraph, id: Id, done: set<Id>)
    requires forall e :: e in g.EdgesTo(id) <==> e in g.spec.typedEdges && e.to == id
    ensures ProducersDone(g.spec, done, id) <==> FedBy(g.EdgesTo(id), done)
  {
    if ProducersDone(g.spec, done, id) {
      forall e | e in g.EdgesTo(id) && IsBlocking(e.kind) ensures e.from in done {
        var i :| 0 <= i < |g.spec.typedEdges| && g.spec.typedEdges[i] == e;
      }
    }
  }

  lemma StartsIff(g: CompiledGraph, id: Id, done: set<Id>)
    requires Indexes(g) && DistinctNodes(g.spec.nodes) && HasNode(g.spec.nodes, id) && id !in done
    ensures Plain(g, id) || JoinNode(g, id)
    ensures Plain(g, id) ==> (CanStart(g.spec, done, id) <==> FedBy(g.EdgesTo(id), done))
    ensures JoinNode(g, id) ==> (CanStart(g.spec, done, id) <==> forall b :: b in g.Node(id).value.requiredBranches ==> b in done)
  {
    TheNode(g, id);
    InputsAreEdges(g, id);
    hide Indexes, HasNode;
    var nodes, n := g.spec.nodes, g.Node(id).value;
    var k :| 0 <= k < |nodes| && nodes[k] == n;
    assert nodes[k].nodeId == id;
    if Plain(g, id) {
      assert IsPlain(nodes, id);
      ProducersFeed(g, id, done);
    } else {
      assert !IsPlain(nodes, id);
      if BranchesDone(g.spec, done, id) {
        forall b | b in n.requiredBranches ensures b in done { assert IsJoin(nodes[k]) && b in nodes[k].requiredBranches; }
      }
    }
  }

  // ---- running on ------------------------------------------------------------------------------------------

  /** With exactly `done` succeeded, some other node can be ready. */
  ghost predicate SomeReady(g: CompiledGraph, done: set<Id>) {
    exists id, facts :: HasNode(g.spec.nodes, id) && id !in done && Agree(facts, done) && ReadinessOf(g, id, facts) == Ready
  }

  ghost predicate RunsOn(g: CompiledGraph) { forall done: set<Id> :: Unfinished(g.spec, done) ==> SomeReady(g, done) }

  /** Readiness lets a node start exactly when it waits for nothing unfinished and, unless it is a join, can be ready at all. */
  lemma ReadyIffStarts(g: CompiledGraph, id: Id, done: set<Id>)
    requires Indexes(g) && DistinctNodes(g.spec.nodes) && HasNode(g.spec.nodes, id) && id !in done
    ensures (exists facts :: Agree(facts, done) && ReadinessOf(g, id, facts) == Ready) <==>
            CanStart(g.spec, done, id) && (Plain(g, id) ==> Attainable(g, id))
  {
    StartsIff(g, id, done);
    hide CanStart, Indexes, Agree, ReadinessOf, FedBy, Attainable, HasNode, DistinctNodes;
    if Plain(g, id) { PlainPossibleIff(g, id, done); } else { JoinPossibleIff(g, id, done); }
  }

  lemma RunsOnNeverStuck(g: CompiledGraph)
    requires Indexes(g) && DistinctNodes(g.spec.nodes) && RunsOn(g)
    ensures NeverStuck(g.spec)
  {
    hide CanStart, Indexes, Agree, ReadinessOf, HasNode, DistinctNodes, Unfinished, Attainable;
    forall done: set<Id> | Unfinished(g.spec, done) ensures exists id :: CanStart(g.spec, done, id) {
      assert SomeReady(g, done);
      var id, facts :| HasNode(g.spec.nodes, id) && id !in done && Agree(facts, done) && ReadinessOf(g, id, facts) == Ready;
      ReadyIffStarts(g, id, done);
    }
  }

  /** With everything done but one node, that node must be ready. */
  lemma RunsOnAttainable(g: CompiledGraph, id: Id)
    requires Indexes(g) && DistinctNodes(g.spec.nodes) && RunsOn(g) && Plain(g, id)
    ensures Attainable(g, id)
  {
    NodeIndexed(g, id);
    LastIsFind(g.spec.nodes, id);
    hide CanStart, Indexes, Agree, ReadinessOf, DistinctNodes, Attainable, Plain;
    var done := set x | x in NodeIds(g.spec.nodes) && x != id;
    var i :| 0 <= i < |g.spec.nodes| && g.spec.nodes[i].nodeId == id;
    assert Unfinished(g.spec, done);
    assert SomeReady(g, done);
    var other, facts :| HasNode(g.spec.nodes, other) && other !in done && Agree(facts, done) && ReadinessOf(g, other, facts) == Ready;
    IdsMember(g.spec.nodes, other);
    ReadyIffStarts(g, other, done);
  }

  /**
   * Whatever has succeeded, as long as something has not, some node can be ready: exactly when nothing waits for itself,
   * directly or through others, the data inputs each plain node takes from one producer fit together, and each resource
   * it declares may be held.
   */
  lemma RunsOnIff(g: CompiledGraph)
    requires Indexes(g) && ReferencesOk(g.spec)
    ensures RunsOn(g) <==> (forall v :: !OnClosedWalk(Waits(g.spec), v)) && forall id :: Plain(g, id) ==> Attainable(g, id)
  {
    hide CanStart, Indexes, Agree, ReadinessOf, HasNode, DistinctNodes, DistinctEdges, EndpointsDeclared, NamesDeclared, JoinDeclared,
      Unfinished, Attainable, Plain, OnClosedWalk, Waits;
    NeverStuckIff(g.spec);
    if RunsOn(g) {
      RunsOnNeverStuck(g);
      forall id | Plain(g, id) ensures Attainable(g, id) { RunsOnAttainable(g, id); }
    }
    if NeverStuck(g.spec) && forall id :: Plain(g, id) ==> Attainable(g, id) {
      forall done: set<Id> | Unfinished(g.spec, done) ensures SomeReady(g, done) {
        var id :| CanStart(g.spec, done, id);
        Startable(g.spec, done, id);
        ReadyIffStarts(g, id, done);
      }
    }
  }

  lemma Startable(spec: GraphSpec, done: set<Id>, id: Id)
    requires CanStart(spec, done, id)
    ensures HasNode(spec.nodes, id) && id !in done
  {}

  // ---- two artifacts from one producer ------------------------------------------------------------------------

  const REPORT: SchemaRef := SchemaRef("Report", "1", "r")
  const PATCH: SchemaRef := SchemaRef("Patch", "1", "p")

  function PlainNode(id: Id, outputs: seq<SchemaRef>): NodeSpec { NodeSpec(id, OtherKind("task"), true, [], None, outputs, [], [], 1, [], "") }
  function DataInput(edgeId: Id, expected: SchemaRef): EdgeSpec { EdgeSpec(edgeId, Data, "a", "b", None, None, Some(expected), None, None) }

  /** One producer of two artifacts, and a consumer of both. */
  function TwoInputs(): GraphSpec {
    GraphSpec("1.1.0", "g", 1, "c", [PlainNode("a", [REPORT, PATCH]), PlainNode("b", [])],
              [DataInput("x", REPORT), DataInput("y", PATCH)], [], [], GraphLimits(10, 10, 10), [])
  }

  lemma TwoInputsReferences()
    ensures ReferencesOk(TwoInputs()) && ShapesOk(TwoInputs())
  {
    var g := TwoInputs();
    assert g.nodes[0].nodeId == "a" && g.nodes[1].nodeId == "b" && "a" != "b" && "x" != "y";
    assert HasNode(g.nodes, "a") && HasNode(g.nodes, "b");
    hide HasNode;
  }

  lemma MatchesOne(a: SchemaRef, b: SchemaRef)
    requires a != b
    ensures Matches([a, b], a) == 1 && Matches([a, b], b) == 1
  {
    assert [a, b][1..] == [b] && [b][1..] == [];
    assert Matches([b], a) == 0 && Matches([b], b) == 1;
  }

  lemma TwoInputsData()
    ensures DataOk(TwoInputs())
  {
    var g := TwoInputs();
    assert REPORT != PATCH by { assert "Report" != "Patch"; }
    MatchesOne(REPORT, PATCH);
    assert g.nodes[..1] == [g.nodes[0]];
    assert LastNode(g.nodes, "a") == Some(g.nodes[0]) by { assert "a" != "b"; }
  }

  lemma TwoInputsAcyclic()
    ensures Acyclic(TwoInputs())
  {
    var g := TwoInputs();
    forall u, v ensures v in Neighbours(Dependencies(g), u) ==> u == "a" && v == "b" { ProjectionEdge(g, IsBlocking, u, v); }
    assert "a" != "b";
    hide Dependencies;
    forall v, p | IsWalk(Dependencies(g), v, v, p) ensures |p| < 2 {
      if |p| >= 2 { OneEdge(Dependencies(g), "a", "b", v, v, p); }
    }
  }

  /** Along a single edge every walk goes from its start to its end. */
  lemma OneEdge(adj: map<Id, seq<Id>>, a: Id, b: Id, u: Id, v: Id, p: seq<Id>)
    requires IsWalk(adj, u, v, p) && |p| >= 2 && forall x, y :: y in Neighbours(adj, x) ==> x == a && y == b
    ensures u == a && v == b
  {
    hide Neighbours;
    var last := |p| - 2;
    assert p[0 + 1] in Neighbours(adj, p[0]) && p[last + 1] in Neighbours(adj, p[last]);
  }

  /** The gate accepts it, and the consumer is never ready, whatever the facts. */
  lemma AcceptedButNeverReady(g: CompiledGraph, facts: NodeFacts)
    requires Indexes(g) && g.spec == TwoInputs()
    ensures Accepted(TwoInputs(), Context([], [], [], [], []))
    ensures HasNode(g.spec.nodes, "b") && ReadinessOf(g, "b", facts) != Ready
  {
    TwoInputsAccepted();
    TheConsumer(g);
    InputsAreEdges(g, "b");
    hide Indexes, Accepted, ReadinessOf, InputMet, Available;
    var x, y := DataInput("x", REPORT), DataInput("y", PATCH);
    assert g.spec.typedEdges[0] == x && g.spec.typedEdges[1] == y;
    assert x in g.EdgesTo("b") && y in g.EdgesTo("b");
    PlainReadyIff(g, "b", facts);
    NotBothMet(facts);
  }

  /** One artifact is not of two schemas. */
  lemma NotBothMet(facts: NodeFacts)
    ensures !(InputMet(DataInput("x", REPORT), facts) && InputMet(DataInput("y", PATCH), facts))
  {
    assert "Report" != "Patch";
  }

  lemma TheConsumer(g: CompiledGraph)
    requires Indexes(g) && g.spec == TwoInputs()
    ensures HasNode(g.spec.nodes, "b") && Plain(g, "b")
  {
    TwoInputsReferences();
    assert g.spec.nodes[1].nodeId == "b";
    TheNode(g, "b");
    hide Indexes;
  }

  lemma TwoInputsAccepted()
    ensures Accepted(TwoInputs(), Context([], [], [], [], []))
  {
    hide Acyclic, ReferencesOk, ShapesOk, DataOk, Accepted, Mutual, Control, Participant;
    TwoInputsReferences();
    TwoInputsData();
    TwoInputsAcyclic();
    AllHold(TwoInputs(), Context([], [], [], [], []));
  }
}
