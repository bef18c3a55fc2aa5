/**
 * The remaining acceptance checks, each a loop that pushes issues, proved to push none exactly when
 * the rule it stands for holds.
 */
module GraphChecks {
  import opened Options
  import opened GraphTypes

  // ---- check 2: references ----------------------------------------------------------------------

  predicate AllDeclared(nodes: seq<NodeSpec>, ids: seq<Id>) {
    forall i :: 0 <= i < |ids| ==> HasNode(nodes, ids[i])
  }

  /** The nodes a node names: its required branches and its loop body. */
  predicate NamesDeclared(nodes: seq<NodeSpec>, n: NodeSpec) {
    && AllDeclared(nodes, n.requiredBranches)
    && (n.loop.Some? ==> AllDeclared(nodes, n.loop.value.bodyNodeIds))
  }

  /** A required join names a declared node whose first declaration is a join. */
  predicate JoinDeclared(nodes: seq<NodeSpec>, id: Id) {
    FindNode(nodes, id).Some? && FindNode(nodes, id).value.kind == JoinKind
  }

  function AbandonedIds(branches: seq<AbandonedBranch>): (ids: seq<Id>)
    ensures |ids| == |branches| && forall i :: 0 <= i < |ids| ==> ids[i] == branches[i].nodeId
  {
    seq(|branches|, i requires 0 <= i < |branches| => branches[i].nodeId)
  }

  /** Ids are unique and every id that is named resolves. */
  ghost predicate ReferencesOk(spec: GraphSpec) {
    && DistinctNodes(spec.nodes)
    && DistinctEdges(spec.typedEdges)
    && EndpointsDeclared(spec)
    && (forall i :: 0 <= i < |spec.nodes| ==> NamesDeclared(spec.nodes, spec.nodes[i]))
    && (forall i :: 0 <= i < |spec.requiredJoins| ==> JoinDeclared(spec.nodes, spec.requiredJoins[i]))
    && AllDeclared(spec.nodes, AbandonedIds(spec.abandonedBranches))
  }

  method CollectNodeIds(nodes: seq<NodeSpec>) returns (nodeIds: set<Id>, issues: seq<Issue>)
    ensures forall id :: id in nodeIds <==> HasNode(nodes, id)
    ensures Tagged(issues, 2, ReferenceInvalid)
    ensures |issues| == 0 <==> DistinctNodes(nodes)
  {
    nodeIds, issues := {}, [];
    for i := 0 to |nodes|
      invariant forall id :: id in nodeIds <==> exists k :: 0 <= k < i && nodes[k].nodeId == id
      invariant Tagged(issues, 2, ReferenceInvalid)
      invariant |issues| == 0 <==> forall k, j :: 0 <= k < j < i ==> nodes[k].nodeId != nodes[j].nodeId
    {
      if nodes[i].nodeId in nodeIds { issues := issues + [Issue(2, ReferenceInvalid)]; }
      nodeIds := nodeIds + {nodes[i].nodeId};
    }
  }

  method CheckEdgeReferences(spec: GraphSpec, nodeIds: set<Id>) returns (issues: seq<Issue>)
    requires forall id :: id in nodeIds <==> HasNode(spec.nodes, id)
    ensures Tagged(issues, 2, ReferenceInvalid)
    ensures |issues| == 0 <==> DistinctEdges(spec.typedEdges) && EndpointsDeclared(spec)
  {
    hide HasNode;
    var edgeIds: set<Id> := {};
    issues := [];
    for i := 0 to |spec.typedEdges|
      invariant forall id :: id in edgeIds <==> exists k :: 0 <= k < i && spec.typedEdges[k].edgeId == id
      invariant Tagged(issues, 2, ReferenceInvalid)
      invariant |issues| == 0 <==>
                && (forall k, j :: 0 <= k < j < i ==> spec.typedEdges[k].edgeId != spec.typedEdges[j].edgeId)
                && (forall k :: 0 <= k < i ==> HasNode(spec.nodes, spec.typedEdges[k].from) && HasNode(spec.nodes, spec.typedEdges[k].to))
    {
      var edge := spec.typedEdges[i];
      if edge.edgeId in edgeIds { issues := issues + [Issue(2, ReferenceInvalid)]; }
      edgeIds := edgeIds + {edge.edgeId};
      if edge.from !in nodeIds { issues := issues + [Issue(2, ReferenceInvalid)]; }
      if edge.to !in nodeIds { issues := issues + [Issue(2, ReferenceInvalid)]; }
    }
  }

  method CheckIds(nodes: seq<NodeSpec>, nodeIds: set<Id>, ids: seq<Id>) returns (issues: seq<Issue>)
    requires forall id :: id in nodeIds <==> HasNode(nodes, id)
    ensures Tagged(issues, 2, ReferenceInvalid)
    ensures |issues| == 0 <==> AllDeclared(nodes, ids)
  {
    hide HasNode;
    issues := [];
    for i := 0 to |ids|
      invariant Tagged(issues, 2, ReferenceInvalid)
      invariant |issues| == 0 <==> forall k :: 0 <= k < i ==> HasNode(nodes, ids[k])
    {
      if ids[i] !in nodeIds { issues := issues + [Issue(2, ReferenceInvalid)]; }
    }
  }

  method CheckNodeReferences(spec: GraphSpec, nodeIds: set<Id>) returns (issues: seq<Issue>)
    requires forall id :: id in nodeIds <==> HasNode(spec.nodes, id)
    ensures Tagged(issues, 2, ReferenceInvalid)
    ensures |issues| == 0 <==> forall i :: 0 <= i < |spec.nodes| ==> NamesDeclared(spec.nodes, spec.nodes[i])
  {
    hide HasNode, AllDeclared;
    issues := [];
    for i := 0 to |spec.nodes|
      invariant Tagged(issues, 2, ReferenceInvalid)
      invariant |issues| == 0 <==> forall k :: 0 <= k < i ==> NamesDeclared(spec.nodes, spec.nodes[k])
    {
      var more := CheckIds(spec.nodes, nodeIds, spec.nodes[i].requiredBranches);
      issues := issues + more;
      if spec.nodes[i].loop.Some? {
        more := CheckIds(spec.nodes, nodeIds, spec.nodes[i].loop.value.bodyNodeIds);
        issues := issues + more;
      }
    }
  }

  method CheckJoinReferences(spec: GraphSpec, nodeIds: set<Id>) returns (issues: seq<Issue>)
    requires forall id :: id in nodeIds <==> HasNode(spec.nodes, id)
    ensures Tagged(issues, 2, ReferenceInvalid)
    ensures |issues| == 0 <==> forall i :: 0 <= i < |spec.requiredJoins| ==> JoinDeclared(spec.nodes, spec.requiredJoins[i])
  {
    hide HasNode;
    issues := [];
    for i := 0 to |spec.requiredJoins|
      invariant Tagged(issues, 2, ReferenceInvalid)
      invariant |issues| == 0 <==> forall k :: 0 <= k < i ==> JoinDeclared(spec.nodes, spec.requiredJoins[k])
    {
      var joinId := spec.requiredJoins[i];
      if joinId !in nodeIds {
        issues := issues + [Issue(2, ReferenceInvalid)];
        continue;
      }
      var node := FindNode(spec.nodes, joinId);
      if node.Some? && node.value.kind != JoinKind { issues := issues + [Issue(2, ReferenceInvalid)]; }
    }
  }

  method CheckReferences(spec: GraphSpec) returns (issues: seq<Issue>)
    ensures forall k :: 0 <= k < |issues| ==> issues[k].check == 2 && issues[k].code in {ReferenceInvalid, SchemaInvalid}
    ensures CodeIn(issues, ReferenceInvalid) <==> !ReferencesOk(spec)
    ensures CodeIn(issues, SchemaInvalid) <==> !ShapesOk(spec)
  {
    hide HasNode, DistinctNodes, DistinctEdges, EndpointsDeclared, NamesDeclared, JoinDeclared, AllDeclared, ShapesOk;
    var nodeIds, refs := CollectNodeIds(spec.nodes);
    var more := CheckEdgeReferences(spec, nodeIds);
    refs := refs + more;
    more := CheckNodeReferences(spec, nodeIds);
    refs := refs + more;
    more := CheckJoinReferences(spec, nodeIds);
    refs := refs + more;
    more := CheckIds(spec.nodes, nodeIds, AbandonedIds(spec.abandonedBranches));
    refs := refs + more;
    var shapes := CheckShapes(spec);
    issues := refs + shapes;
    assert |refs| == 0 <==> ReferencesOk(spec);
    assert |refs| > 0 ==> issues[0] == refs[0];
    assert |shapes| > 0 ==> issues[|refs|] == shapes[0];
  }

  // ---- check 2: the shape of an edge -------------------------------------

  predicate ValidPredicate(p: Predicate) {
    match p.op
    case OpEq => p.path.Some? && |p.children| == 0
    case OpNeq => p.path.Some? && |p.children| == 0
    case OpAll => p.path.None? && p.value.None? && |p.children| >= 1 && forall c :: c in p.children ==> ValidPredicate(c)
    case OpAny => p.path.None? && p.value.None? && |p.children| >= 1 && forall c :: c in p.children ==> ValidPredicate(c)
    case OpNot => p.path.None? && p.value.None? && |p.children| == 1 && ValidPredicate(p.children[0])
    case OpTrue => p.path.None? && p.value.None? && |p.children| == 0
  }

  predicate OwnSlots(e: EdgeSpec) {
    match e.kind
    case Dependency => e.when.None? && e.artifact.None? && e.expected.None? && e.maxAttempts.None? && e.relation.None?
    case Data => e.when.None? && e.maxAttempts.None? && e.relation.None?
    case Route => e.when.Some? && e.artifact.None? && e.expected.None? && e.relation.None? && e.maxAttempts.None?
    case Repair => e.when.Some? && e.artifact.None? && e.expected.None? && e.relation.None?
    case Fallback => e.when.Some? && e.artifact.None? && e.expected.None? && e.relation.None?
    case Provenance => e.relation.Some? && e.when.None? && e.artifact.None? && e.expected.None? && e.maxAttempts.None?
  }

  predicate EdgeShapeOk(e: EdgeSpec) {
    OwnSlots(e) && (e.when.Some? && IsRouting(e.kind) ==> ValidPredicate(e.when.value))
  }

  ghost predicate ShapesOk(spec: GraphSpec) {
    forall i :: 0 <= i < |spec.typedEdges| ==> EdgeShapeOk(spec.typedEdges[i])
  }

  method EdgeShapeIssues(edge: EdgeSpec) returns (issues: seq<Issue>)
    ensures Tagged(issues, 2, SchemaInvalid)
    ensures |issues| == 0 <==> EdgeShapeOk(edge)
  {
    hide ValidPredicate;
    issues := [];
    var shape := Issue(2, SchemaInvalid);
    var onlyArtifactSlotsFree := edge.artifact.None? && edge.expected.None? && edge.relation.None?;
    if edge.kind == Dependency {
      if edge.when.Some? || edge.artifact.Some? || edge.expected.Some? || edge.maxAttempts.Some? || edge.relation.Some? {
        issues := issues + [shape];
      }
      return;
    }
    if edge.kind == Data {
      if edge.when.Some? || edge.maxAttempts.Some? || edge.relation.Some? { issues := issues + [shape]; }
      return;
    }
    if edge.kind == Route {
      if edge.when.None? { issues := issues + [shape]; }
      if !onlyArtifactSlotsFree || edge.maxAttempts.Some? { issues := issues + [shape]; }
    } else if IsRetry(edge.kind) {
      if edge.when.None? { issues := issues + [shape]; }
      if !onlyArtifactSlotsFree { issues := issues + [shape]; }
    } else if edge.relation.None? {
      issues := issues + [shape];
    } else if edge.when.Some? || edge.artifact.Some? || edge.expected.Some? || edge.maxAttempts.Some? {
      issues := issues + [shape];
    }
    if edge.when.Some? && IsRouting(edge.kind) {
      if !ValidPredicate(edge.when.value) { issues := issues + [shape]; }
    }
  }

  method CheckShapes(spec: GraphSpec) returns (issues: seq<Issue>)
    ensures Tagged(issues, 2, SchemaInvalid)
    ensures |issues| == 0 <==> ShapesOk(spec)
  {
    hide EdgeShapeOk;
    issues := [];
    for i := 0 to |spec.typedEdges|
      invariant Tagged(issues, 2, SchemaInvalid)
      invariant |issues| == 0 <==> forall k :: 0 <= k < i ==> EdgeShapeOk(spec.typedEdges[k])
    {
      var more := EdgeShapeIssues(spec.typedEdges[i]);
      issues := issues + more;
    }
  }

  // ---- check 4: data edges ---------------------------------------------------------------------

  /** How many declared outputs of the producer match the selector. */
  function Matches(outputs: seq<SchemaRef>, wanted: SchemaRef): nat {
    if |outputs| == 0 then 0 else Matches(outputs[1..], wanted) + if outputs[0] == wanted then 1 else 0
  }

  /** A future artifact matches exactly one declared output; a bound one is the producer's, of that schema. */
  predicate DataEdgeOk(e: EdgeSpec, producer: NodeSpec) {
    && e.expected.Some?
    && match e.artifact
       case None => Matches(producer.outputSchemas, e.expected.value) == 1
       case Some(artifact) =>
         artifact.binding.Some? && artifact.binding.value.nodeId == e.from && artifact.schema == e.expected.value
  }

  predicate OfCheck4(issues: seq<Issue>) {
    forall i :: 0 <= i < |issues| ==> issues[i].check == 4 && issues[i].code in {SchemaInvalid, InputStale, BindingMismatch}
  }

  function DataEdgeIssues(edge: EdgeSpec, producer: NodeSpec): (issues: seq<Issue>)
    ensures |issues| == 0 <==> DataEdgeOk(edge, producer)
    ensures OfCheck4(issues)
  {
    if edge.expected.None? then [Issue(4, SchemaInvalid)]
    else if edge.artifact.None? then
      if Matches(producer.outputSchemas, edge.expected.value) != 1 then [Issue(4, InputStale)] else []
    else
      var artifact := edge.artifact.value;
      (if artifact.binding.None? || artifact.binding.value.nodeId != edge.from then [Issue(4, BindingMismatch)] else [])
      + (if edge.expected.value != artifact.schema then [Issue(4, BindingMismatch)] else [])
  }

  /** The last declaration of an id, as filling a map leaves it. */
  function LastNode(nodes: seq<NodeSpec>, id: Id): Option<NodeSpec> {
    if |nodes| == 0 then None
    else if nodes[|nodes| - 1].nodeId == id then Some(nodes[|nodes| - 1])
    else LastNode(nodes[..|nodes| - 1], id)
  }

  predicate Consumable(nodes: seq<NodeSpec>, e: EdgeSpec) {
    e.kind == Data && LastNode(nodes, e.from).Some? ==> DataEdgeOk(e, LastNode(nodes, e.from).value)
  }

  ghost predicate DataOk(spec: GraphSpec) {
    forall i :: 0 <= i < |spec.typedEdges| ==> Consumable(spec.nodes, spec.typedEdges[i])
  }

  method IndexNodes(nodes: seq<NodeSpec>) returns (index: map<Id, NodeSpec>)
    ensures forall id :: id in index <==> LastNode(nodes, id).Some?
    ensures forall id :: id in index ==> index[id] == LastNode(nodes, id).value
  {
    index := map[];
    for i := 0 to |nodes|
      invariant forall id :: id in index <==> LastNode(nodes[..i], id).Some?
      invariant forall id :: id in index ==> index[id] == LastNode(nodes[..i], id).value
    {
      assert nodes[..i + 1][..i] == nodes[..i] && nodes[..i + 1][i] == nodes[i];
      index := index[nodes[i].nodeId := nodes[i]];
    }
    assert nodes[..|nodes|] == nodes;
  }

  method CheckDataConsumable(spec: GraphSpec) returns (issues: seq<Issue>)
    ensures OfCheck4(issues)
    ensures |issues| == 0 <==> DataOk(spec)
  {
    hide DataEdgeOk, LastNode;
    var producers := IndexNodes(spec.nodes);
    issues := [];
    for i := 0 to |spec.typedEdges|
      invariant OfCheck4(issues)
      invariant |issues| == 0 <==> forall k :: 0 <= k < i ==> Consumable(spec.nodes, spec.typedEdges[k])
    {
      var edge := spec.typedEdges[i];
      if edge.kind != Data || edge.from !in producers { continue; }
      issues := issues + DataEdgeIssues(edge, producers[edge.from]);
    }
  }

  // ---- check 5: fan-in ---------------------------------------------------------------------------

  /** A join is listed, declares branches and is not its own branch; any other node declares none. */
  predicate FanInNodeOk(requiredJoins: seq<Id>, n: NodeSpec) {
    if n.kind == JoinKind then n.nodeId in requiredJoins && |n.requiredBranches| != 0 && n.nodeId !in n.requiredBranches
    else |n.requiredBranches| == 0
  }

  ghost predicate FanInOk(spec: GraphSpec) {
    forall i :: 0 <= i < |spec.nodes| ==> FanInNodeOk(spec.requiredJoins, spec.nodes[i])
  }

  method CheckFanIn(spec: GraphSpec, contractBranches: seq<Id>) returns (issues: seq<Issue>)
    ensures Tagged(issues, 5, JoinIncomplete)
    ensures |issues| == 0 <==> FanInOk(spec) && AllDeclared(spec.nodes, contractBranches)
  {
    hide HasNode;
    var missing := Issue(5, JoinIncomplete);
    issues := [];
    for i := 0 to |spec.nodes|
      invariant Tagged(issues, 5, JoinIncomplete)
      invariant |issues| == 0 <==> forall k :: 0 <= k < i ==> FanInNodeOk(spec.requiredJoins, spec.nodes[k])
    {
      var node := spec.nodes[i];
      if node.kind == JoinKind {
        if node.nodeId !in spec.requiredJoins { issues := issues + [missing]; }
        if |node.requiredBranches| == 0 { issues := issues + [missing]; }
        if node.nodeId in node.requiredBranches { issues := issues + [missing]; }
      } else if |node.requiredBranches| != 0 {
        issues := issues + [missing];
      }
    }
    for i := 0 to |contractBranches|
      invariant Tagged(issues, 5, JoinIncomplete)
      invariant |issues| == 0 <==> FanInOk(spec) && forall k :: 0 <= k < i ==> HasNode(spec.nodes, contractBranches[k])
    {
      if !HasNode(spec.nodes, contractBranches[i]) { issues := issues + [missing]; }
    }
  }

  // ---- check 7: resources ------------------------------------------------------------------------

  /** The last policy entry for a resource, as filling a map leaves it. */
  function LastPolicy(policy: seq<ResourcePolicy>, id: Id): Option<ResourcePolicy> {
    if |policy| == 0 then None
    else if policy[|policy| - 1].resourceId == id then Some(policy[|policy| - 1])
    else LastPolicy(policy[..|policy| - 1], id)
  }

  predicate HasMode(policy: seq<ResourcePolicy>, id: Id, mode: ResourceMode) {
    LastPolicy(policy, id).Some? && LastPolicy(policy, id).value.mode == mode
  }

  /** What a node declares agrees with the graph's policy, and nothing is declared both ways. */
  predicate ResourceNodeOk(policy: seq<ResourcePolicy>, n: NodeSpec) {
    && (forall i :: 0 <= i < |n.exclusive| ==> n.exclusive[i] !in n.shared && HasMode(policy, n.exclusive[i], Exclusive))
    && (forall i :: 0 <= i < |n.shared| ==> HasMode(policy, n.shared[i], Shared))
  }

  ghost predicate ResourcesOk(spec: GraphSpec) {
    && (forall i, j :: 0 <= i < j < |spec.resourcePolicy| ==> spec.resourcePolicy[i].resourceId != spec.resourcePolicy[j].resourceId)
    && (forall i :: 0 <= i < |spec.nodes| ==> ResourceNodeOk(spec.resourcePolicy, spec.nodes[i]))
  }

  lemma NoPolicy(policy: seq<ResourcePolicy>)
    ensures forall id :: LastPolicy(policy[..0], id).None?
  {}

  lemma LastPolicyNext(policy: seq<ResourcePolicy>, i: nat)
    requires i < |policy|
    ensures forall id :: LastPolicy(policy[..i + 1], id) == if policy[i].resourceId == id then Some(policy[i]) else LastPolicy(policy[..i], id)
  {
    var more := policy[..i + 1];
    assert more[..i] == policy[..i] && more[i] == policy[i] && |more| == i + 1;
    forall id ensures LastPolicy(more, id) == if policy[i].resourceId == id then Some(policy[i]) else LastPolicy(policy[..i], id) {
      assert more[..|more| - 1] == policy[..i];
    }
  }

  method IndexPolicy(policy: seq<ResourcePolicy>) returns (index: map<Id, ResourcePolicy>, issues: seq<Issue>)
    ensures forall id :: id in index <==> LastPolicy(policy, id).Some?
    ensures forall id :: id in index ==> index[id] == LastPolicy(policy, id).value
    ensures Tagged(issues, 7, ResourceConflict)
    ensures |issues| == 0 <==> forall i, j :: 0 <= i < j < |policy| ==> policy[i].resourceId != policy[j].resourceId
  {
    hide LastPolicy;
    index, issues := map[], [];
    NoPolicy(policy);
    for i := 0 to |policy|
      invariant forall id :: id in index <==> LastPolicy(policy[..i], id).Some?
      invariant forall id :: id in index <==> exists k :: 0 <= k < i && policy[k].resourceId == id
      invariant forall id :: id in index ==> index[id] == LastPolicy(policy[..i], id).value
      invariant Tagged(issues, 7, ResourceConflict)
      invariant |issues| == 0 <==> forall k, j :: 0 <= k < j < i ==> policy[k].resourceId != policy[j].resourceId
    {
      LastPolicyNext(policy, i);
      if policy[i].resourceId in index { issues := issues + [Issue(7, ResourceConflict)]; }
      index := index[policy[i].resourceId := policy[i]];
    }
    assert policy[..|policy|] == policy;
  }

  method CheckNodeResources(policy: seq<ResourcePolicy>, index: map<Id, ResourcePolicy>, node: NodeSpec) returns (issues: seq<Issue>)
    requires forall id :: id in index <==> LastPolicy(policy, id).Some?
    requires forall id :: id in index ==> index[id] == LastPolicy(policy, id).value
    ensures Tagged(issues, 7, ResourceConflict)
    ensures |issues| == 0 <==> ResourceNodeOk(policy, node)
  {
    hide LastPolicy;
    var conflict := Issue(7, ResourceConflict);
    issues := [];
    for i := 0 to |node.exclusive|
      invariant Tagged(issues, 7, ResourceConflict)
      invariant |issues| == 0 <==>
                forall k :: 0 <= k < i ==> node.exclusive[k] !in node.shared && HasMode(policy, node.exclusive[k], Exclusive)
    {
      var resourceId := node.exclusive[i];
      if resourceId in node.shared { issues := issues + [conflict]; }
      if resourceId !in index { issues := issues + [conflict]; }
      else if index[resourceId].mode != Exclusive { issues := issues + [conflict]; }
    }
    for i := 0 to |node.shared|
      invariant Tagged(issues, 7, ResourceConflict)
      invariant |issues| == 0 <==>
                && (forall k :: 0 <= k < |node.exclusive| ==> node.exclusive[k] !in node.shared && HasMode(policy, node.exclusive[k], Exclusive))
                && (forall k :: 0 <= k < i ==> HasMode(policy, node.shared[k], Shared))
    {
      var resourceId := node.shared[i];
      if resourceId !in index { issues := issues + [conflict]; }
      else if index[resourceId].mode != Shared { issues := issues + [conflict]; }
    }
  }

  method CheckResources(spec: GraphSpec) returns (issues: seq<Issue>)
    ensures Tagged(issues, 7, ResourceConflict)
    ensures |issues| == 0 <==> ResourcesOk(spec)
  {
    hide LastPolicy, ResourceNodeOk;
    var index;
    index, issues := IndexPolicy(spec.resourcePolicy);
    ghost var duplicates := |issues| != 0;
    for i := 0 to |spec.nodes|
      invariant Tagged(issues, 7, ResourceConflict)
      invariant |issues| == 0 <==> !duplicates && forall k :: 0 <= k < i ==> ResourceNodeOk(spec.resourcePolicy, spec.nodes[k])
    {
      var more := CheckNodeResources(spec.resourcePolicy, index, spec.nodes[i]);
      issues := issues + more;
    }
  }

  // ---- check 8: bounds ---------------------------------------------------------------------------

  /** A repair or fallback edge is bounded, and no bound exceeds the graph's. */
  predicate EdgeBounded(limits: GraphLimits, e: EdgeSpec) {
    && (IsRetry(e.kind) ==> e.maxAttempts.Some?)
    && (e.maxAttempts.Some? ==> e.maxAttempts.value <= limits.maxAttempts)
  }

  predicate NodeBounded(limits: GraphLimits, n: NodeSpec) {
    && n.maxAttempts <= limits.maxAttempts
    && (n.loop.Some? && n.loop.value.maxDepth.Some? ==> n.loop.value.maxDepth.value <= limits.maxDepth)
  }

  ghost predicate BoundsOk(spec: GraphSpec) {
    && |spec.nodes| <= spec.graphLimits.maxNodes
    && (forall i :: 0 <= i < |spec.typedEdges| ==> EdgeBounded(spec.graphLimits, spec.typedEdges[i]))
    && (forall i :: 0 <= i < |spec.nodes| ==> NodeBounded(spec.graphLimits, spec.nodes[i]))
  }

  method CheckBounds(spec: GraphSpec) returns (issues: seq<Issue>)
    ensures Tagged(issues, 8, BoundInvalid)
    ensures |issues| == 0 <==> BoundsOk(spec)
  {
    var bound, limits := Issue(8, BoundInvalid), spec.graphLimits;
    issues := [];
    if |spec.nodes| > limits.maxNodes { issues := issues + [bound]; }
    for i := 0 to |spec.typedEdges|
      invariant Tagged(issues, 8, BoundInvalid)
      invariant |issues| == 0 <==>
                |spec.nodes| <= limits.maxNodes && forall k :: 0 <= k < i ==> EdgeBounded(limits, spec.typedEdges[k])
    {
      var edge := spec.typedEdges[i];
      if IsRetry(edge.kind) && edge.maxAttempts.None? { issues := issues + [bound]; }
      if edge.maxAttempts.Some? && edge.maxAttempts.value > limits.maxAttempts { issues := issues + [bound]; }
    }
    for i := 0 to |spec.nodes|
      invariant Tagged(issues, 8, BoundInvalid)
      invariant |issues| == 0 <==>
                && |spec.nodes| <= limits.maxNodes
                && (forall k :: 0 <= k < |spec.typedEdges| ==> EdgeBounded(limits, spec.typedEdges[k]))
                && (forall k :: 0 <= k < i ==> NodeBounded(limits, spec.nodes[k]))
    {
      var node := spec.nodes[i];
      if node.maxAttempts > limits.maxAttempts { issues := issues + [bound]; }
      if node.loop.Some? && node.loop.value.maxDepth.Some? && node.loop.value.maxDepth.value > limits.maxDepth {
        issues := issues + [bound];
      }
    }
  }

  // ---- check 10: real consumers --------------------------------------------------------------------

  /** Some edge leaves the node that routes its outcome or waits for it; provenance does not count. */
  ghost predicate Consumed(edges: seq<EdgeSpec>, id: Id) {
    exists i :: 0 <= i < |edges| && edges[i].from == id && (IsRouting(edges[i].kind) || IsBlocking(edges[i].kind))
  }

  ghost predicate TerminalOk(spec: GraphSpec) {
    forall i :: 0 <= i < |spec.nodes| ==> spec.nodes[i].terminal || Consumed(spec.typedEdges, spec.nodes[i].nodeId)
  }

  /** The edges leaving (or, for `to`, entering) a node, in declaration order. */
  function EdgesAt(edges: seq<EdgeSpec>, id: Id, end: EdgeSpec -> Id): seq<EdgeSpec> {
    if |edges| == 0 then []
    else
      var init := EdgesAt(edges[..|edges| - 1], id, end);
      if end(edges[|edges| - 1]) == id then init + [edges[|edges| - 1]] else init
  }

  lemma {:induction false} EdgesAtMember(edges: seq<EdgeSpec>, id: Id, end: EdgeSpec -> Id, e: EdgeSpec)
    ensures e in EdgesAt(edges, id, end) <==> e in edges && end(e) == id
  {
    if |edges| != 0 {
      var init, last := edges[..|edges| - 1], edges[|edges| - 1];
      EdgesAtMember(init, id, end, e);
      assert edges == init + [last];
    }
  }

  method GroupEdges(edges: seq<EdgeSpec>, end: EdgeSpec -> Id) returns (grouped: map<Id, seq<EdgeSpec>>)
    ensures forall id :: (if id in grouped then grouped[id] else []) == EdgesAt(edges, id, end)
  {
    grouped := map[];
    for i := 0 to |edges|
      invariant forall id :: (if id in grouped then grouped[id] else []) == EdgesAt(edges[..i], id, end)
    {
      assert edges[..i + 1][..i] == edges[..i] && edges[..i + 1][i] == edges[i];
      var key := end(edges[i]);
      if key !in grouped { grouped := grouped[key := [edges[i]]]; }
      else { grouped := grouped[key := grouped[key] + [edges[i]]]; }
    }
    assert edges[..|edges|] == edges;
  }

  function FromOf(): EdgeSpec -> Id { (e: EdgeSpec) => e.from }
  function ToOf(): EdgeSpec -> Id { (e: EdgeSpec) => e.to }

  predicate HasRoutingOutgoing(edges: seq<EdgeSpec>) { exists i :: 0 <= i < |edges| && IsRouting(edges[i].kind) }
  predicate HasBlockingConsumer(edges: seq<EdgeSpec>) { exists i :: 0 <= i < |edges| && IsBlocking(edges[i].kind) }

  lemma ConsumedIff(edges: seq<EdgeSpec>, id: Id)
    ensures Consumed(edges, id) <==>
            HasRoutingOutgoing(EdgesAt(edges, id, FromOf())) || HasBlockingConsumer(EdgesAt(edges, id, FromOf()))
  {
    var out := EdgesAt(edges, id, FromOf());
    if Consumed(edges, id) {
      var i :| 0 <= i < |edges| && edges[i].from == id && (IsRouting(edges[i].kind) || IsBlocking(edges[i].kind));
      EdgesAtMember(edges, id, FromOf(), edges[i]);
      var k :| 0 <= k < |out| && out[k] == edges[i];
    }
    if k :| 0 <= k < |out| && (IsRouting(out[k].kind) || IsBlocking(out[k].kind)) {
      EdgesAtMember(edges, id, FromOf(), out[k]);
      var i :| 0 <= i < |edges| && edges[i] == out[k];
    }
  }

  method CheckTerminalRequired(spec: GraphSpec) returns (issues: seq<Issue>)
    ensures Tagged(issues, 10, TerminalRequired)
    ensures |issues| == 0 <==> TerminalOk(spec)
  {
    hide Consumed, HasRoutingOutgoing, HasBlockingConsumer, EdgesAt;
    var outgoing := GroupEdges(spec.typedEdges, FromOf());
    issues := [];
    for i := 0 to |spec.nodes|
      invariant Tagged(issues, 10, TerminalRequired)
      invariant |issues| == 0 <==>
                forall k :: 0 <= k < i ==> spec.nodes[k].terminal || Consumed(spec.typedEdges, spec.nodes[k].nodeId)
    {
      var node := spec.nodes[i];
      if node.terminal { continue; }
      var edges := if node.nodeId in outgoing then outgoing[node.nodeId] else [];
      ConsumedIff(spec.typedEdges, node.nodeId);
      if !(HasRoutingOutgoing(edges) || HasBlockingConsumer(edges)) { issues := issues + [Issue(10, TerminalRequired)]; }
    }
  }
}
