/** What one accepted patch keeps, and what every run of accepted patches keeps. */
module GraphRevisions {
  import opened Options
  import opened GraphTypes
  import opened GraphChecks
  import opened GraphCycles
  import opened GraphGate
  import opened GraphDecide
  import opened GraphPatches
  import opened Walks

  /** The checks that look at the graph alone. */
  ghost predicate Sound(spec: GraphSpec) {
    && ReferencesOk(spec) && ShapesOk(spec) && Acyclic(spec) && DataOk(spec) && FanInOk(spec)
    && ResourcesOk(spec) && BoundsOk(spec) && Terminates(spec) && TerminalOk(spec)
    && (forall i, j :: 0 <= i < j < |AbandonedIn(spec)| ==> AbandonedIn(spec)[i] != AbandonedIn(spec)[j])
  }

  lemma AcceptedIsSound(spec: GraphSpec, context: Context)
    requires Accepted(spec, context)
    ensures Sound(spec) && EvidenceKept(spec, context)
  {
    hide Acyclic, Terminates, ReferencesOk, ShapesOk, DataOk, FanInOk, ResourcesOk, BoundsOk, TerminalOk;
    assert CheckHolds(spec, context, 2) && CheckHolds(spec, context, 3) && CheckHolds(spec, context, 4)
      && CheckHolds(spec, context, 5) && CheckHolds(spec, context, 7) && CheckHolds(spec, context, 8)
      && CheckHolds(spec, context, 9) && CheckHolds(spec, context, 10) && CheckHolds(spec, context, 11);
  }

  // ---- the candidate's nodes -------------------------------------------------------------------------

  /** Dropping a node keeps exactly the others. */
  lemma {:induction false} WithoutKeeps(nodes: seq<NodeSpec>, id: Id, n: NodeSpec)
    ensures n in Without(nodes, id) <==> n in nodes && n.nodeId != id
  {
    if |nodes| > 0 { WithoutKeeps(nodes[1..], id, n); }
  }

  lemma {:induction false} ReplaceKeeps(nodes: seq<NodeSpec>, c: NodeSpec, n: NodeSpec)
    requires n in nodes && n.nodeId != c.nodeId
    ensures n in Replace(nodes, c)
  {
    if |nodes| > 0 && nodes[0] != n { ReplaceKeeps(nodes[1..], c, n); }
  }

  /** A node that no removal and no change names is declared unchanged in the candidate. */
  lemma UntouchedStays(nodes: seq<NodeSpec>, patch: GraphPatch, n: NodeSpec)
    requires n in nodes && CandidateNodes(nodes, patch).Some?
    requires n.nodeId !in patch.removals && n.nodeId !in NodeIds(patch.changes)
    ensures n in CandidateNodes(nodes, patch).value
  {
    DropKeeps(nodes, patch.removals, n);
    var kept := DropAll(nodes, patch.removals).value;
    ChangeKeeps(kept, patch.changes, n);
    AddKeeps(ChangeAll(kept, patch.changes).value, patch.adds, n);
  }

  lemma {:induction false} DropKeeps(nodes: seq<NodeSpec>, removals: seq<Id>, n: NodeSpec)
    requires n in nodes && n.nodeId !in removals && DropAll(nodes, removals).Some?
    ensures n in DropAll(nodes, removals).value
    decreases |removals|
  {
    if |removals| > 0 {
      WithoutKeeps(nodes, removals[0], n);
      DropKeeps(Without(nodes, removals[0]), removals[1..], n);
    }
  }

  lemma {:induction false} ChangeKeeps(nodes: seq<NodeSpec>, changes: seq<NodeSpec>, n: NodeSpec)
    requires n in nodes && n.nodeId !in NodeIds(changes) && ChangeAll(nodes, changes).Some?
    ensures n in ChangeAll(nodes, changes).value
    decreases |changes|
  {
    if |changes| > 0 {
      assert NodeIds(changes)[0] == changes[0].nodeId;
      ReplaceKeeps(nodes, changes[0], n);
      assert NodeIds(changes[1..]) == NodeIds(changes)[1..];
      ChangeKeeps(Replace(nodes, changes[0]), changes[1..], n);
    }
  }

  lemma {:induction false} AddKeeps(nodes: seq<NodeSpec>, adds: seq<NodeSpec>, n: NodeSpec)
    requires n in nodes && AddAll(nodes, adds).Some?
    ensures n in AddAll(nodes, adds).value
    decreases |adds|
  {
    if |adds| > 0 { AddKeeps(nodes + [adds[0]], adds[1..], n); }
  }

  lemma {:induction false} ReplaceIds(nodes: seq<NodeSpec>, c: NodeSpec, id: Id)
    ensures HasNode(Replace(nodes, c), id) <==> HasNode(nodes, id)
  {
    if |nodes| > 0 {
      ReplaceIds(nodes[1..], c, id);
      var r := Replace(nodes, c);
      assert r[1..] == Replace(nodes[1..], c) && r[0].nodeId == nodes[0].nodeId;
      HeadTail(nodes, id);
      HeadTail(r, id);
    }
  }

  lemma HeadTail(nodes: seq<NodeSpec>, id: Id)
    requires |nodes| > 0
    ensures HasNode(nodes, id) <==> nodes[0].nodeId == id || HasNode(nodes[1..], id)
  {
    if i :| 0 <= i < |nodes[1..]| && nodes[1..][i].nodeId == id { assert nodes[i + 1].nodeId == id; }
    if i :| 0 < i < |nodes| && nodes[i].nodeId == id { assert nodes[1..][i - 1].nodeId == id; }
  }

  /** A node that no removal names is still declared, perhaps changed. */
  lemma UnremovedStays(nodes: seq<NodeSpec>, patch: GraphPatch, id: Id)
    requires HasNode(nodes, id) && id !in patch.removals && CandidateNodes(nodes, patch).Some?
    ensures HasNode(CandidateNodes(nodes, patch).value, id)
  {
    var i :| 0 <= i < |nodes| && nodes[i].nodeId == id;
    DropKeeps(nodes, patch.removals, nodes[i]);
    var kept := DropAll(nodes, patch.removals).value;
    InHas(kept, nodes[i]);
    ChangeHas(kept, patch.changes, id);
    var changed := ChangeAll(kept, patch.changes).value;
    var j :| 0 <= j < |changed| && changed[j].nodeId == id;
    AddKeeps(changed, patch.adds, changed[j]);
    InHas(CandidateNodes(nodes, patch).value, changed[j]);
  }

  lemma InHas(nodes: seq<NodeSpec>, n: NodeSpec)
    requires n in nodes
    ensures HasNode(nodes, n.nodeId)
  {
    var i :| 0 <= i < |nodes| && nodes[i] == n;
    assert nodes[i].nodeId == n.nodeId;
  }

  lemma {:induction false} ChangeHas(nodes: seq<NodeSpec>, changes: seq<NodeSpec>, id: Id)
    requires HasNode(nodes, id) && ChangeAll(nodes, changes).Some?
    ensures HasNode(ChangeAll(nodes, changes).value, id)
    decreases |changes|
  {
    if |changes| > 0 {
      ReplaceIds(nodes, changes[0], id);
      ChangeHas(Replace(nodes, changes[0]), changes[1..], id);
    }
  }

  // ---- one accepted patch ----------------------------------------------------------------------------

  /** Two data edges bind the same input: id, target, selector and, when bound, digest and schema. */
  predicate SameInput(a: EdgeSpec, b: EdgeSpec) {
    && a.kind == Data && b.kind == Data && a.edgeId == b.edgeId && a.to == b.to && a.expected == b.expected
    && (a.artifact.None? <==> b.artifact.None?)
    && (a.artifact.Some? ==> a.artifact.value.digest == b.artifact.value.digest && a.artifact.value.schema == b.artifact.value.schema)
  }

  lemma {:induction false} LastEdgeIn(edges: seq<EdgeSpec>, id: Id)
    ensures LastEdge(edges, id).Some? ==> LastEdge(edges, id).value in edges && LastEdge(edges, id).value.edgeId == id
  {
    if |edges| > 0 { LastEdgeIn(edges[..|edges| - 1], id); }
  }

  lemma {:induction false} FirstEdgeIn(edges: seq<EdgeSpec>, e: EdgeSpec)
    requires DistinctEdges(edges) && e in edges
    ensures FirstEdge(edges, e.edgeId) == Some(e)
  {
    var i :| 0 <= i < |edges| && edges[i] == e;
    if i > 0 {
      assert edges[0].edgeId != edges[i].edgeId;
      assert edges[1..][i - 1] == e;
      assert DistinctEdges(edges[1..]) by { Shift(edges); }
      FirstEdgeIn(edges[1..], e);
    }
  }

  lemma Shift(edges: seq<EdgeSpec>)
    requires |edges| > 0 && DistinctEdges(edges)
    ensures DistinctEdges(edges[1..])
  {
    assert forall i :: 0 <= i < |edges[1..]| ==> edges[1..][i] == edges[i + 1];
  }

  lemma {:induction false} FirstEdgeOf(edges: seq<EdgeSpec>, id: Id)
    ensures FirstEdge(edges, id).Some? ==> FirstEdge(edges, id).value in edges && FirstEdge(edges, id).value.edgeId == id
  {
    if |edges| > 0 { FirstEdgeOf(edges[1..], id); }
  }

  /** In a sound graph every data edge carries a selector, and no other edge does. */
  lemma SelectorIffData(spec: GraphSpec, e: EdgeSpec)
    requires ReferencesOk(spec) && ShapesOk(spec) && DataOk(spec) && e in spec.typedEdges
    ensures e.expected.Some? <==> e.kind == Data
  {
    hide HasNode, DistinctNodes, DistinctEdges, NamesDeclared, JoinDeclared, ValidPredicate;
    var i :| 0 <= i < |spec.typedEdges| && spec.typedEdges[i] == e;
    assert EdgeShapeOk(spec.typedEdges[i]) && Consumable(spec.nodes, spec.typedEdges[i]);
    LastIsFind(spec.nodes, e.from);
  }

  /** Each data input of a mid-flight node survives with its id, target, selector and bound content. */
  lemma LockedInputKept(current: GraphSpec, patch: GraphPatch, context: PatchContext, e: EdgeSpec) returns (kept: EdgeSpec)
    requires PatchOk(current, patch, context) && Sound(current)
    requires e in current.typedEdges && e.kind == Data && Locked(context, e.to)
    ensures kept in Next(current, patch).typedEdges && SameInput(e, kept)
  {
    AcceptedIsSound(Next(current, patch), ValidationContext(current, patch, context));
    SelectorIffData(current, e);
    hide Locked, Accepted, AuthorityOk, CandidateNodes, Acyclic, Terminates, ReferencesOk, ShapesOk, DataOk, ResourcesOk,
      BoundsOk, TerminalOk, FanInOk, EvidenceKept, InputSurvives, SameInput, LastEdge;
    var i :| 0 <= i < |current.typedEdges| && current.typedEdges[i] == e;
    assert InputSurvives(current.typedEdges[i], patch.typedEdges);
    kept := SurvivingInput(e, patch.typedEdges);
    SelectorIffData(Next(current, patch), kept);
  }

  lemma SurvivingInput(e: EdgeSpec, edges: seq<EdgeSpec>) returns (kept: EdgeSpec)
    requires e.kind == Data && e.expected.Some? && InputSurvives(e, edges)
    ensures kept in edges && kept.kind == Data && (kept.expected.Some? ==> SameInput(e, kept))
  {
    LastEdgeIn(edges, e.edgeId);
    kept := LastEdge(edges, e.edgeId).value;
  }

  /** A mid-flight node keeps its whole specification. */
  lemma LockedNodeKept(current: GraphSpec, patch: GraphPatch, context: PatchContext, n: NodeSpec)
    requires PatchOk(current, patch, context) && n in current.nodes && Locked(context, n.nodeId)
    ensures n in Next(current, patch).nodes
  {
    hide Accepted, AuthorityOk, CandidateNodes, LockedInputsSurvive, NoBindingIntoLocked, Locked;
    assert n.nodeId !in patch.removals;
    assert forall i :: 0 <= i < |patch.changes| ==> !Locked(context, patch.changes[i].nodeId);
    UntouchedStays(current.nodes, patch, n);
  }

  /** Evidence and abandonment are never deleted. */
  lemma EvidenceStays(current: GraphSpec, patch: GraphPatch, context: PatchContext, id: Id)
    requires PatchOk(current, patch, context) && HasNode(current.nodes, id)
    requires id in context.evidenceNodeIds || id in AbandonedIn(current)
    ensures HasNode(Next(current, patch).nodes, id)
  {
    var c := ValidationContext(current, patch, context);
    AcceptedIsSound(Next(current, patch), c);
    hide Accepted, AuthorityOk, CandidateNodes, LockedRespected, Sound, HasNode;
    assert forall i :: 0 <= i < |c.removedNodeIds| ==> Removable(c, c.removedNodeIds[i]);
    UnremovedStays(current.nodes, patch, id);
  }

  lemma AbandonmentStays(current: GraphSpec, patch: GraphPatch, context: PatchContext, id: Id)
    requires PatchOk(current, patch, context) && id in AbandonedIn(current)
    ensures id in AbandonedIn(Next(current, patch))
  {
    var c := ValidationContext(current, patch, context);
    AcceptedIsSound(Next(current, patch), c);
    hide Accepted, AuthorityOk, CandidateNodes, LockedRespected, Sound;
    var i :| 0 <= i < |c.priorAbandonedNodeIds| && c.priorAbandonedNodeIds[i] == id;
  }

  // ---- what the protection of inputs does not cover ----------------------------------------------------

  /** Every data input of `id` is an old one with the same producer, or new and still unbound. */
  ghost predicate InputsFrozen(current: GraphSpec, next: GraphSpec, id: Id) {
    forall e :: e in next.typedEdges && e.kind == Data && e.to == id ==>
      || (e.artifact.None? && FirstEdge(current.typedEdges, e.edgeId).None?)
      || (exists p :: p in current.typedEdges && SameInput(p, e) && p.from == e.from)
  }

  /** The patch reuses no edge id with other ends for a data input of `id`. */
  ghost predicate EndsKept(current: GraphSpec, patch: GraphPatch, id: Id) {
    forall e :: e in patch.typedEdges && e.kind == Data && e.to == id ==>
      match FirstEdge(current.typedEdges, e.edgeId)
      case None => true
      case Some(p) => p.from == e.from && p.to == e.to
  }

  /** An accepted patch leaves a mid-flight node's inputs frozen exactly when it reuses no edge with other ends. */
  lemma FrozenIffEndsKept(current: GraphSpec, patch: GraphPatch, context: PatchContext, id: Id)
    requires PatchOk(current, patch, context) && Sound(current) && Locked(context, id)
    ensures InputsFrozen(current, Next(current, patch), id) <==> EndsKept(current, patch, id)
  {
    var next := Next(current, patch);
    assert DistinctEdges(current.typedEdges);
    if EndsKept(current, patch, id) {
      forall e | e in next.typedEdges && e.kind == Data && e.to == id
        ensures (e.artifact.None? && FirstEdge(current.typedEdges, e.edgeId).None?)
             || (exists p :: p in current.typedEdges && SameInput(p, e) && p.from == e.from)
      {
        BindingIntoLocked(current, patch, context, e);
      }
    }
    if InputsFrozen(current, next, id) {
      forall e | e in patch.typedEdges && e.kind == Data && e.to == id && FirstEdge(current.typedEdges, e.edgeId).Some?
        ensures FirstEdge(current.typedEdges, e.edgeId).value.from == e.from && FirstEdge(current.typedEdges, e.edgeId).value.to == e.to
      {
        var p :| p in current.typedEdges && SameInput(p, e) && p.from == e.from;
        FirstEdgeIn(current.typedEdges, p);
      }
    }
  }

  /** A data edge into a mid-flight node is new and unbound, or an old data edge with the same binding. */
  lemma BindingIntoLocked(current: GraphSpec, patch: GraphPatch, context: PatchContext, e: EdgeSpec)
    requires PatchOk(current, patch, context) && Sound(current)
    requires e in patch.typedEdges && e.kind == Data && Locked(context, e.to)
    ensures var p := FirstEdge(current.typedEdges, e.edgeId);
      if p.None? then e.artifact.None?
      else p.value in current.typedEdges && SameInput(p.value.(to := e.to), e)
  {
    AcceptedIsSound(Next(current, patch), ValidationContext(current, patch, context));
    SelectorIffData(Next(current, patch), e);
    FirstEdgeOf(current.typedEdges, e.edgeId);
    var p := FirstEdge(current.typedEdges, e.edgeId);
    if p.Some? { SelectorIffData(current, p.value); }
    hide Locked, Accepted, AuthorityOk, CandidateNodes, Sound, LockedNodesUntouched, LockedInputsSurvive;
    var i :| 0 <= i < |patch.typedEdges| && patch.typedEdges[i] == e;
    assert !EdgeBindingChanged(patch.typedEdges[i], p);
  }

  /** A rank that rises along every blocking edge excludes cycles. */
  lemma RankIsAcyclic(spec: GraphSpec, rank: Id -> int)
    requires forall i :: 0 <= i < |spec.typedEdges| && IsBlocking(spec.typedEdges[i].kind) ==>
               rank(spec.typedEdges[i].from) < rank(spec.typedEdges[i].to)
    ensures Acyclic(spec)
  {
    forall v ensures !OnClosedWalk(Dependencies(spec), v) {
      if OnClosedWalk(Dependencies(spec), v) {
        var p :| IsWalk(Dependencies(spec), v, v, p) && |p| >= 2;
        RankRises(spec, rank, p, |p| - 1);
      }
    }
  }

  lemma {:induction false} RankRises(spec: GraphSpec, rank: Id -> int, p: seq<Id>, k: nat)
    requires forall i :: 0 <= i < |spec.typedEdges| && IsBlocking(spec.typedEdges[i].kind) ==>
               rank(spec.typedEdges[i].from) < rank(spec.typedEdges[i].to)
    requires |p| >= 1 && IsWalk(Dependencies(spec), p[0], p[|p| - 1], p) && k < |p|
    ensures k > 0 ==> rank(p[0]) < rank(p[k])
  {
    if k > 0 {
      RankRises(spec, rank, p, k - 1);
      assert p[k - 1 + 1] in Neighbours(Dependencies(spec), p[k - 1]);
      ProjectionEdge(spec, IsBlocking, p[k - 1], p[k]);
    }
  }

  // A producer "p" whose bound output feeds "b", and a running node "r".
  const OUTPUT := SchemaRef("out", "1", "sha256:s")
  const BOUND := ArtifactRef("art", "sha256:a", Some(Binding("p", "")), OUTPUT, "")

  function PlainNode(id: Id): NodeSpec { NodeSpec(id, OtherKind("task"), true, [], None, [OUTPUT], [], [], 1, [], "") }
  function BoundEdge(target: Id): EdgeSpec { EdgeSpec("d", Data, "p", target, None, Some(BOUND), Some(OUTPUT), None, None) }
  function Feeding(target: Id, revision: int): GraphSpec {
    GraphSpec("1.1.0", "g", revision, "c", [PlainNode("p"), PlainNode("b"), PlainNode("r")], [BoundEdge(target)], [], [],
              GraphLimits(10, 10, 10), [])
  }
  function Retarget(): GraphPatch { GraphPatch("1.1.0", "g", 1, [], [], [], [BoundEdge("r")], [], "auth") }
  function RunningContext(): PatchContext {
    PatchContext([], Authority(["auth"], None, None), [ActiveNode("r", Running)], [], [])
  }

  lemma FeedingReferences(target: Id, revision: int)
    requires target in {"b", "r"}
    ensures ReferencesOk(Feeding(target, revision)) && DataOk(Feeding(target, revision))
  {
    var g := Feeding(target, revision);
    assert g.nodes[0].nodeId == "p" && g.nodes[1].nodeId == "b" && g.nodes[2].nodeId == "r";
    assert HasNode(g.nodes, "p") && HasNode(g.nodes, target);
    assert "p" != "b" && "p" != "r" && "b" != "r";
  }

  lemma FeedingAcyclic(target: Id, revision: int)
    requires target in {"b", "r"}
    ensures Acyclic(Feeding(target, revision)) && Terminates(Feeding(target, revision))
  {
    assert "p" != target;
    RankIsAcyclic(Feeding(target, revision), id => if id == "p" then 0 else 1);
    hide Mutual, Control, Participant, Acyclic;
  }

  lemma FeedingShapes(target: Id, revision: int)
    ensures ShapesOk(Feeding(target, revision)) && FanInOk(Feeding(target, revision)) && ResourcesOk(Feeding(target, revision))
  {}

  lemma FeedingBounds(target: Id, revision: int)
    ensures BoundsOk(Feeding(target, revision)) && TerminalOk(Feeding(target, revision))
  {}

  lemma FeedingAccepted(target: Id, revision: int, context: Context)
    requires target in {"b", "r"}
    requires |context.contractBranches| == |context.priorAbandonedNodeIds| == |context.removedNodeIds| == 0
    ensures Accepted(Feeding(target, revision), context)
  {
    hide Acyclic, ReferencesOk, DataOk, Terminates, Accepted, ShapesOk, FanInOk, ResourcesOk, BoundsOk, TerminalOk;
    FeedingReferences(target, revision);
    FeedingShapes(target, revision);
    FeedingBounds(target, revision);
    FeedingAcyclic(target, revision);
    AllHold(Feeding(target, revision), context);
  }

  lemma {:induction false} NoJoins(nodes: seq<NodeSpec>)
    requires forall i :: 0 <= i < |nodes| ==> nodes[i].kind != JoinKind
    ensures JoinIds(nodes) == []
  {
    if |nodes| > 0 { NoJoins(nodes[..|nodes| - 1]); }
  }

  lemma RetargetNext()
    ensures CandidateNodes(Feeding("b", 1).nodes, Retarget()) == Some(Feeding("b", 1).nodes)
    ensures Next(Feeding("b", 1), Retarget()) == Feeding("r", 2)
  {
    NoJoins(Feeding("b", 1).nodes);
    hide JoinIds;
  }

  lemma RetargetRespects()
    ensures LockedRespected(Feeding("b", 1), Retarget(), RunningContext())
  {
    var current, patch, context := Feeding("b", 1), Retarget(), RunningContext();
    assert LockedNodesUntouched(patch, context);
    assert LockedInputsSurvive(current, patch, context) by { assert "b" != "r"; }
    assert NoBindingIntoLocked(current, patch, context);
    hide LockedNodesUntouched, LockedInputsSurvive, NoBindingIntoLocked;
  }

  lemma RetargetPublishes()
    ensures PatchOk(Feeding("b", 1), Retarget(), RunningContext())
  {
    var current, patch, context := Feeding("b", 1), Retarget(), RunningContext();
    RetargetNext();
    RetargetRespects();
    FeedingAccepted("r", 2, ValidationContext(current, patch, context));
    hide Accepted, LockedRespected, CandidateNodes, Next;
  }

  lemma RunningIsLocked()
    ensures Locked(RunningContext(), "r")
  {
    assert RunningContext().activeNodes[0].nodeId == "r";
  }

  /** Moving a bound edge onto a running node is accepted: the node gains a bound input mid-flight. */
  lemma RetargetedInputAccepted()
    ensures Sound(Feeding("b", 1)) && Locked(RunningContext(), "r")
    ensures PatchOk(Feeding("b", 1), Retarget(), RunningContext())
    ensures !InputsFrozen(Feeding("b", 1), Next(Feeding("b", 1), Retarget()), "r")
  {
    FeedingAccepted("b", 1, Context([], [], [], [], []));
    AcceptedIsSound(Feeding("b", 1), Context([], [], [], [], []));
    RetargetPublishes();
    hide PatchOk, Sound;
    RunningIsLocked();
    hide Locked;
    var current, patch := Feeding("b", 1), Retarget();
    assert patch.typedEdges[0] == BoundEdge("r") && BoundEdge("r") in patch.typedEdges;
    assert FirstEdge(current.typedEdges, "d") == Some(BoundEdge("b"));
    assert !EndsKept(current, patch, "r") by { assert "b" != "r"; }
    FrozenIffEndsKept(current, patch, RunningContext(), "r");
  }

  // ---- runs ------------------------------------------------------------------------------------------

  /** Successive revisions, each published by an accepted patch. */
  ghost predicate Revisions(revs: seq<GraphSpec>, patches: seq<GraphPatch>, contexts: seq<PatchContext>) {
    && |revs| == |patches| + 1 == |contexts| + 1
    && (forall i :: 0 <= i < |patches| ==> PatchOk(revs[i], patches[i], contexts[i]) && revs[i + 1] == Next(revs[i], patches[i]))
  }

  lemma StepOf(revs: seq<GraphSpec>, patches: seq<GraphPatch>, contexts: seq<PatchContext>, k: nat)
    requires Revisions(revs, patches, contexts) && k < |patches|
    ensures PatchOk(revs[k], patches[k], contexts[k]) && revs[k + 1] == Next(revs[k], patches[k])
  {}

  /** Every revision of a run from a compiled graph is sound, one higher than the last, on the same graph. */
  lemma {:induction false} RunSound(revs: seq<GraphSpec>, patches: seq<GraphPatch>, contexts: seq<PatchContext>, start: Context, j: nat)
    requires Revisions(revs, patches, contexts) && Accepted(revs[0], start) && j < |revs|
    ensures Sound(revs[j]) && revs[j].revision == revs[0].revision + j && revs[j].graphId == revs[0].graphId
    ensures revs[j].resourcePolicy == revs[0].resourcePolicy && revs[j].graphLimits == revs[0].graphLimits
  {
    if j == 0 {
      AcceptedIsSound(revs[0], start);
    } else {
      RunSound(revs, patches, contexts, start, j - 1);
      StepOf(revs, patches, contexts, j - 1);
      AcceptedIsSound(revs[j], ValidationContext(revs[j - 1], patches[j - 1], contexts[j - 1]));
    }
  }

  /** Once abandoned, always abandoned, and the node itself never leaves. */
  lemma {:induction false} RunKeepsAbandoned(revs: seq<GraphSpec>, patches: seq<GraphPatch>, contexts: seq<PatchContext>,
                                             start: Context, i: nat, j: nat, id: Id)
    requires Revisions(revs, patches, contexts) && Accepted(revs[0], start)
    requires i <= j < |revs| && id in AbandonedIn(revs[i])
    ensures id in AbandonedIn(revs[j]) && HasNode(revs[j].nodes, id)
    decreases j - i
  {
    hide PatchOk, Accepted, Sound, HasNode;
    RunSound(revs, patches, contexts, start, j);
    if i < j {
      RunKeepsAbandoned(revs, patches, contexts, start, i, j - 1, id);
      StepOf(revs, patches, contexts, j - 1);
      AbandonmentStays(revs[j - 1], patches[j - 1], contexts[j - 1], id);
    }
    AbandonedDeclared(revs[j], id);
  }

  lemma AbandonedDeclared(spec: GraphSpec, id: Id)
    requires Sound(spec) && id in AbandonedIn(spec)
    ensures HasNode(spec.nodes, id)
  {
    hide HasNode, DistinctNodes, DistinctEdges, NamesDeclared, JoinDeclared, ShapesOk, Acyclic, DataOk, FanInOk, ResourcesOk,
      BoundsOk, Terminates, TerminalOk;
    var i :| 0 <= i < |AbandonedIn(spec)| && AbandonedIn(spec)[i] == id;
  }

  /** A node that keeps counting as evidence never leaves. */
  lemma {:induction false} RunKeepsEvidence(revs: seq<GraphSpec>, patches: seq<GraphPatch>, contexts: seq<PatchContext>,
                                            i: nat, j: nat, id: Id)
    requires Revisions(revs, patches, contexts) && i <= j < |revs| && HasNode(revs[i].nodes, id)
    requires forall k :: i <= k < j ==> id in contexts[k].evidenceNodeIds
    ensures HasNode(revs[j].nodes, id)
    decreases j - i
  {
    hide PatchOk, HasNode;
    if i < j {
      RunKeepsEvidence(revs, patches, contexts, i, j - 1, id);
      StepOf(revs, patches, contexts, j - 1);
      EvidenceStays(revs[j - 1], patches[j - 1], contexts[j - 1], id);
    }
  }

  lemma SameInputSelf(e: EdgeSpec)
    requires e.kind == Data
    ensures SameInput(e, e)
  {}

  lemma SameInputEnds(a: EdgeSpec, b: EdgeSpec)
    requires SameInput(a, b)
    ensures b.kind == Data && b.to == a.to
  {}

  lemma SameInputTrans(a: EdgeSpec, b: EdgeSpec, c: EdgeSpec)
    requires SameInput(a, b) && SameInput(b, c)
    ensures SameInput(a, c)
  {}

  /** While a node stays mid-flight, its specification and each of its data inputs stay as they were. */
  lemma {:induction false} RunKeepsMidFlight(revs: seq<GraphSpec>, patches: seq<GraphPatch>, contexts: seq<PatchContext>,
                                             start: Context, i: nat, j: nat, n: NodeSpec)
    requires Revisions(revs, patches, contexts) && Accepted(revs[0], start)
    requires i <= j < |revs| && n in revs[i].nodes
    requires forall k :: i <= k < j ==> Locked(contexts[k], n.nodeId)
    ensures n in revs[j].nodes
    ensures forall e :: e in revs[i].typedEdges && e.kind == Data && e.to == n.nodeId ==>
              exists kept :: kept in revs[j].typedEdges && SameInput(e, kept)
    decreases j - i
  {
    hide PatchOk, Locked, Accepted, Sound, SameInput, Next;
    if i < j {
      RunKeepsMidFlight(revs, patches, contexts, start, i, j - 1, n);
      RunSound(revs, patches, contexts, start, j - 1);
      StepOf(revs, patches, contexts, j - 1);
      LockedNodeKept(revs[j - 1], patches[j - 1], contexts[j - 1], n);
      forall e | e in revs[i].typedEdges && e.kind == Data && e.to == n.nodeId
        ensures exists kept :: kept in revs[j].typedEdges && SameInput(e, kept)
      {
        var before :| before in revs[j - 1].typedEdges && SameInput(e, before);
        SameInputEnds(e, before);
        var kept := LockedInputKept(revs[j - 1], patches[j - 1], contexts[j - 1], before);
        SameInputTrans(e, before, kept);
      }
    } else {
      forall e | e in revs[i].typedEdges && e.kind == Data ensures SameInput(e, e) { SameInputSelf(e); }
    }
  }
}
