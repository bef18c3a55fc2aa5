/** The patch transaction: a candidate graph, its checks, and all or nothing. */
module GraphPatches {
  import opened Options
  import opened GraphTypes
  import opened GraphChecks
  import opened GraphCycles
  import opened GraphGate
  import opened GraphDecide

  datatype GraphPatch = GraphPatch(protocol: string, graphId: Id, expectedRevision: int, adds: seq<NodeSpec>,
                                   changes: seq<NodeSpec>, removals: seq<Id>, typedEdges: seq<EdgeSpec>,
                                   abandonedBranches: seq<AbandonedBranch>, authorityRef: Id)

  datatype Authority = Authority(grantRefs: seq<Id>, nodeIds: Option<seq<Id>>, capabilities: Option<seq<string>>)
  datatype ActiveNode = ActiveNode(nodeId: Id, state: NodeState)
  datatype PatchContext = PatchContext(contractBranches: seq<Id>, authority: Authority, activeNodes: seq<ActiveNode>,
                                       evidenceNodeIds: seq<Id>, contractAuthorityRefs: seq<Id>)

  // ---- protected nodes and their inputs --------------------------------------------------------------

  predicate MutationLocked(s: NodeState) { s in {Leased, Running, Verifying, Unknown, Cancelling} }

  /** The node is mid-flight. */
  predicate Locked(context: PatchContext, id: Id) {
    exists i :: 0 <= i < |context.activeNodes| && context.activeNodes[i].nodeId == id && MutationLocked(context.activeNodes[i].state)
  }

  /** `candidate.find` by id, and the last entry a map by id is left with. */
  function FirstEdge(edges: seq<EdgeSpec>, id: Id): Option<EdgeSpec> {
    if |edges| == 0 then None else if edges[0].edgeId == id then Some(edges[0]) else FirstEdge(edges[1..], id)
  }

  function LastEdge(edges: seq<EdgeSpec>, id: Id): Option<EdgeSpec> {
    if |edges| == 0 then None
    else if edges[|edges| - 1].edgeId == id then Some(edges[|edges| - 1])
    else LastEdge(edges[..|edges| - 1], id)
  }

  function EdgeBindingChanged(edge: EdgeSpec, previous: Option<EdgeSpec>): bool {
    if edge.kind != Data then false
    else match previous
      case None => edge.artifact.Some?
      case Some(p) =>
        if edge.expected.None? || p.expected.None? then edge.expected != p.expected
        else if edge.expected != p.expected then true
        else if edge.artifact.None? || p.artifact.None? then edge.artifact != p.artifact
        else edge.artifact.value.digest != p.artifact.value.digest || edge.artifact.value.schema != p.artifact.value.schema
  }

  /** Neither changed nor removed in place. */
  ghost predicate LockedNodesUntouched(patch: GraphPatch, context: PatchContext) {
    && (forall i :: 0 <= i < |patch.changes| ==> !Locked(context, patch.changes[i].nodeId))
    && (forall i :: 0 <= i < |patch.removals| ==> !Locked(context, patch.removals[i]))
  }

  /** The old data input survives as a data edge with the same id, target and binding. */
  predicate InputSurvives(previous: EdgeSpec, edges: seq<EdgeSpec>) {
    match LastEdge(edges, previous.edgeId)
    case None => false
    case Some(next) => next.kind == Data && next.to == previous.to && !EdgeBindingChanged(next, Some(previous))
  }

  ghost predicate LockedInputsSurvive(current: GraphSpec, patch: GraphPatch, context: PatchContext) {
    forall i :: 0 <= i < |current.typedEdges| && current.typedEdges[i].kind == Data && Locked(context, current.typedEdges[i].to) ==>
      InputSurvives(current.typedEdges[i], patch.typedEdges)
  }

  ghost predicate NoBindingIntoLocked(current: GraphSpec, patch: GraphPatch, context: PatchContext) {
    forall i :: 0 <= i < |patch.typedEdges| && Locked(context, patch.typedEdges[i].to) ==>
      !EdgeBindingChanged(patch.typedEdges[i], FirstEdge(current.typedEdges, patch.typedEdges[i].edgeId))
  }

  ghost predicate LockedRespected(current: GraphSpec, patch: GraphPatch, context: PatchContext) {
    LockedNodesUntouched(patch, context) && LockedInputsSurvive(current, patch, context) && NoBindingIntoLocked(current, patch, context)
  }

  method IndexEdges(edges: seq<EdgeSpec>) returns (index: map<Id, EdgeSpec>)
    ensures forall id :: (if id in index then Some(index[id]) else None) == LastEdge(edges, id)
  {
    index := map[];
    for i := 0 to |edges|
      invariant forall id :: (if id in index then Some(index[id]) else None) == LastEdge(edges[..i], id)
    {
      assert edges[..i + 1][..i] == edges[..i] && edges[..i + 1][i] == edges[i];
      index := index[edges[i].edgeId := edges[i]];
    }
    assert edges[..|edges|] == edges;
  }

  method LockedIds(context: PatchContext) returns (locked: set<Id>)
    ensures forall id :: id in locked <==> Locked(context, id)
  {
    locked := {};
    for i := 0 to |context.activeNodes|
      invariant forall id :: id in locked <==>
                  exists k :: 0 <= k < i && context.activeNodes[k].nodeId == id && MutationLocked(context.activeNodes[k].state)
    {
      if MutationLocked(context.activeNodes[i].state) { locked := locked + {context.activeNodes[i].nodeId}; }
    }
  }

  /** The three scans with early return; each finds the first violation, in order. */
  method RespectsLocked(current: GraphSpec, patch: GraphPatch, context: PatchContext) returns (ok: bool)
    ensures ok <==> LockedRespected(current, patch, context)
  {
    hide Locked, InputSurvives, EdgeBindingChanged, LastEdge, FirstEdge;
    var locked := LockedIds(context);
    for i := 0 to |patch.changes|
      invariant forall k :: 0 <= k < i ==> !Locked(context, patch.changes[k].nodeId)
    { if patch.changes[i].nodeId in locked { return false; } }
    for i := 0 to |patch.removals|
      invariant forall k :: 0 <= k < i ==> !Locked(context, patch.removals[k])
    { if patch.removals[i] in locked { return false; } }
    var nextEdges := IndexEdges(patch.typedEdges);
    for i := 0 to |current.typedEdges|
      invariant forall k :: 0 <= k < i && current.typedEdges[k].kind == Data && Locked(context, current.typedEdges[k].to) ==>
                  InputSurvives(current.typedEdges[k], patch.typedEdges)
    {
      var previous := current.typedEdges[i];
      if previous.kind != Data || previous.to !in locked { continue; }
      var next := if previous.edgeId in nextEdges then Some(nextEdges[previous.edgeId]) else None;
      SurvivesIff(previous, patch.typedEdges);
      if next.None? || next.value.kind != Data || next.value.to != previous.to || EdgeBindingChanged(next.value, Some(previous)) {
        return false;
      }
    }
    for i := 0 to |patch.typedEdges|
      invariant forall k :: 0 <= k < i && Locked(context, patch.typedEdges[k].to) ==>
                  !EdgeBindingChanged(patch.typedEdges[k], FirstEdge(current.typedEdges, patch.typedEdges[k].edgeId))
    {
      var edge := patch.typedEdges[i];
      if edge.to !in locked { continue; }
      if EdgeBindingChanged(edge, FirstEdge(current.typedEdges, edge.edgeId)) { return false; }
    }
    return true;
  }

  lemma SurvivesIff(previous: EdgeSpec, edges: seq<EdgeSpec>)
    ensures InputSurvives(previous, edges) <==>
            var next := LastEdge(edges, previous.edgeId);
            next.Some? && next.value.kind == Data && next.value.to == previous.to && !EdgeBindingChanged(next.value, Some(previous))
  {}

  // ---- the candidate revision ----------------------------------------------------------------------

  function Without(nodes: seq<NodeSpec>, id: Id): seq<NodeSpec> {
    if |nodes| == 0 then [] else (if nodes[0].nodeId == id then [] else [nodes[0]]) + Without(nodes[1..], id)
  }

  function Replace(nodes: seq<NodeSpec>, n: NodeSpec): seq<NodeSpec> {
    if |nodes| == 0 then [] else [if nodes[0].nodeId == n.nodeId then n else nodes[0]] + Replace(nodes[1..], n)
  }

  function DropAll(nodes: seq<NodeSpec>, removals: seq<Id>): Option<seq<NodeSpec>>
    decreases |removals|
  {
    if |removals| == 0 then Some(nodes)
    else if HasNode(nodes, removals[0]) then DropAll(Without(nodes, removals[0]), removals[1..])
    else None
  }

  function ChangeAll(nodes: seq<NodeSpec>, changes: seq<NodeSpec>): Option<seq<NodeSpec>>
    decreases |changes|
  {
    if |changes| == 0 then Some(nodes)
    else if HasNode(nodes, changes[0].nodeId) then ChangeAll(Replace(nodes, changes[0]), changes[1..])
    else None
  }

  function AddAll(nodes: seq<NodeSpec>, adds: seq<NodeSpec>): Option<seq<NodeSpec>>
    decreases |adds|
  {
    if |adds| == 0 then Some(nodes)
    else if HasNode(nodes, adds[0].nodeId) then None
    else AddAll(nodes + [adds[0]], adds[1..])
  }

  /** Removals, then changes, then additions; each id must (or must not) be there when its turn comes. */
  function CandidateNodes(nodes: seq<NodeSpec>, patch: GraphPatch): Option<seq<NodeSpec>> {
    match DropAll(nodes, patch.removals)
    case None => None
    case Some(kept) =>
      match ChangeAll(kept, patch.changes)
      case None => None
      case Some(changed) => AddAll(changed, patch.adds)
  }

  function JoinIds(nodes: seq<NodeSpec>): seq<Id> {
    if |nodes| == 0 then []
    else JoinIds(nodes[..|nodes| - 1]) + if nodes[|nodes| - 1].kind == JoinKind then [nodes[|nodes| - 1].nodeId] else []
  }

  function Candidate(current: GraphSpec, patch: GraphPatch, nodes: seq<NodeSpec>): GraphSpec {
    GraphSpec(patch.protocol, current.graphId, patch.expectedRevision + 1, current.taskContractRef, nodes,
              patch.typedEdges, JoinIds(nodes), current.resourcePolicy, current.graphLimits, patch.abandonedBranches)
  }

  datatype CandidateResult = CandidateOk(spec: GraphSpec) | CandidateRefused(code: Code)

  method BuildCandidate(current: GraphSpec, patch: GraphPatch) returns (r: CandidateResult)
    ensures var nodes := CandidateNodes(current.nodes, patch);
      r == if nodes.None? then CandidateRefused(ReferenceInvalid)
           else if |nodes.value| == 0 then CandidateRefused(SchemaInvalid)
           else CandidateOk(Candidate(current, patch, nodes.value))
  {
    var nodes := current.nodes;
    for i := 0 to |patch.removals|
      invariant DropAll(current.nodes, patch.removals) == DropAll(nodes, patch.removals[i..])
    {
      assert patch.removals[i..][1..] == patch.removals[i + 1..];
      if !HasNode(nodes, patch.removals[i]) { return CandidateRefused(ReferenceInvalid); }
      nodes := Without(nodes, patch.removals[i]);
    }
    ghost var kept := nodes;
    for i := 0 to |patch.changes|
      invariant ChangeAll(kept, patch.changes) == ChangeAll(nodes, patch.changes[i..])
    {
      assert patch.changes[i..][1..] == patch.changes[i + 1..];
      if !HasNode(nodes, patch.changes[i].nodeId) { return CandidateRefused(ReferenceInvalid); }
      nodes := Replace(nodes, patch.changes[i]);
    }
    ghost var changed := nodes;
    for i := 0 to |patch.adds|
      invariant AddAll(changed, patch.adds) == AddAll(nodes, patch.adds[i..])
    {
      assert patch.adds[i..][1..] == patch.adds[i + 1..];
      if HasNode(nodes, patch.adds[i].nodeId) { return CandidateRefused(ReferenceInvalid); }
      nodes := nodes + [patch.adds[i]];
    }
    if |nodes| == 0 { return CandidateRefused(SchemaInvalid); }
    return CandidateOk(Candidate(current, patch, nodes));
  }

  // ---- check 6 -------------------------------------------------------------------------------------

  predicate CapabilitiesCovered(nodes: seq<NodeSpec>, allowed: seq<string>) {
    forall i, j :: 0 <= i < |nodes| && 0 <= j < |nodes[i].capabilities| ==> nodes[i].capabilities[j] in allowed
  }

  /** The patch runs under a granted reference, on granted nodes, asking for granted capabilities. */
  ghost predicate AuthorityOk(patch: GraphPatch, candidate: GraphSpec, authority: Authority) {
    && patch.authorityRef in authority.grantRefs
    && (authority.nodeIds.Some? ==> forall i :: 0 <= i < |candidate.nodes| ==> candidate.nodes[i].nodeId in authority.nodeIds.value)
    && (authority.capabilities.Some? ==> CapabilitiesCovered(patch.adds + patch.changes, authority.capabilities.value))
  }

  method CheckAuthority(patch: GraphPatch, candidate: GraphSpec, authority: Authority) returns (issues: seq<Issue>)
    ensures Tagged(issues, 6, AuthorityEscalation)
    ensures |issues| == 0 <==> AuthorityOk(patch, candidate, authority)
  {
    var escalation := Issue(6, AuthorityEscalation);
    issues := [];
    if patch.authorityRef !in authority.grantRefs { issues := issues + [escalation]; }
    if authority.nodeIds.Some? {
      for i := 0 to |candidate.nodes|
        invariant Tagged(issues, 6, AuthorityEscalation)
        invariant |issues| == 0 <==>
                  (&& patch.authorityRef in authority.grantRefs
                   && forall k :: 0 <= k < i ==> candidate.nodes[k].nodeId in authority.nodeIds.value)
      {
        if candidate.nodes[i].nodeId !in authority.nodeIds.value { issues := issues + [escalation]; }
      }
    }
    if authority.capabilities.Some? {
      var more := CapabilityIssues(patch.adds + patch.changes, authority.capabilities.value);
      issues := issues + more;
    }
  }

  method CapabilityIssues(nodes: seq<NodeSpec>, allowed: seq<string>) returns (issues: seq<Issue>)
    ensures Tagged(issues, 6, AuthorityEscalation)
    ensures |issues| == 0 <==> CapabilitiesCovered(nodes, allowed)
  {
    issues := [];
    for i := 0 to |nodes|
      invariant Tagged(issues, 6, AuthorityEscalation)
      invariant |issues| == 0 <==> forall k, j :: 0 <= k < i && 0 <= j < |nodes[k].capabilities| ==> nodes[k].capabilities[j] in allowed
    {
      ghost var before := |issues|;
      for j := 0 to |nodes[i].capabilities|
        invariant Tagged(issues, 6, AuthorityEscalation)
        invariant |issues| == 0 <==> before == 0 && forall k :: 0 <= k < j ==> nodes[i].capabilities[k] in allowed
      {
        if nodes[i].capabilities[j] !in allowed { issues := issues + [Issue(6, AuthorityEscalation)]; }
      }
    }
  }

  // ---- the transaction -------------------------------------------------------------------------------

  function AbandonedIn(spec: GraphSpec): seq<Id> { AbandonedIds(spec.abandonedBranches) }

  function ValidationContext(current: GraphSpec, patch: GraphPatch, context: PatchContext): Context {
    Context(context.contractBranches, context.evidenceNodeIds, patch.removals, AbandonedIn(current), context.contractAuthorityRefs)
  }

  /** Everything a patch must satisfy to be published as the next revision. */
  ghost predicate PatchOk(current: GraphSpec, patch: GraphPatch, context: PatchContext) {
    && patch.graphId == current.graphId
    && patch.expectedRevision == current.revision
    && LockedRespected(current, patch, context)
    && CandidateNodes(current.nodes, patch).Some?
    && |CandidateNodes(current.nodes, patch).value| > 0
    && var next := Next(current, patch);
       Accepted(next, ValidationContext(current, patch, context)) && AuthorityOk(patch, next, context.authority)
  }

  ghost function Next(current: GraphSpec, patch: GraphPatch): GraphSpec
    requires CandidateNodes(current.nodes, patch).Some?
  {
    Candidate(current, patch, CandidateNodes(current.nodes, patch).value)
  }

  /** A rule of the graph gate, or for 6 the rule on authority. */
  ghost predicate PatchHolds(current: GraphSpec, patch: GraphPatch, context: PatchContext, check: int)
    requires CandidateNodes(current.nodes, patch).Some?
  {
    if check == 6 then AuthorityOk(patch, Next(current, patch), context.authority)
    else CheckHolds(Next(current, patch), ValidationContext(current, patch, context), check)
  }

  /** The code belongs to the first rule, authority included, that the candidate breaks. */
  ghost predicate RefusedFor(current: GraphSpec, patch: GraphPatch, context: PatchContext, code: Code)
    requires CandidateNodes(current.nodes, patch).Some?
  {
    exists check :: 2 <= check <= 11 && !PatchHolds(current, patch, context, check) && code in CodesOf(check)
      && forall k :: 2 <= k < check ==> PatchHolds(current, patch, context, k)
  }

  lemma FirstRefusal(current: GraphSpec, patch: GraphPatch, context: PatchContext,
                     graphIssues: seq<Issue>, authorityIssues: seq<Issue>, issues: seq<Issue>)
    requires CandidateNodes(current.nodes, patch).Some? && |issues| > 0 && Sorted(issues) && Sorted(graphIssues) && Coded(graphIssues)
    requires forall y :: y in issues <==> y in graphIssues + authorityIssues
    requires Tagged(authorityIssues, 6, AuthorityEscalation)
    requires |authorityIssues| == 0 <==> AuthorityOk(patch, Next(current, patch), context.authority)
    requires |graphIssues| == 0 <==> Accepted(Next(current, patch), ValidationContext(current, patch, context))
    requires |graphIssues| > 0 ==> FirstBroken(Next(current, patch), ValidationContext(current, patch, context), graphIssues[0].check)
    ensures RefusedFor(current, patch, context, issues[0].code)
  {
    hide AuthorityOk, CheckHolds, CandidateNodes;
    var c := issues[0].check;
    assert issues[0] in graphIssues + authorityIssues;
    forall y | y in graphIssues + authorityIssues ensures c <= y.check {
      assert y in issues;
      var j :| 0 <= j < |issues| && issues[j] == y;
    }
    if |authorityIssues| > 0 { assert authorityIssues[0] in graphIssues + authorityIssues; }
    if |graphIssues| > 0 {
      assert graphIssues[0] in graphIssues + authorityIssues;
      assert forall y :: y in graphIssues ==> graphIssues[0].check <= y.check;
    }
    var next, given := Next(current, patch), ValidationContext(current, patch, context);
    assert CheckHolds(next, given, 6) by { SixIsNotTheirs(next, given); }
    if issues[0] in graphIssues {
      assert c == graphIssues[0].check && c != 6;
      assert c > 6 ==> |authorityIssues| == 0;
    } else {
      assert c == 6 && forall k :: 2 <= k < 6 ==> CheckHolds(next, given, k);
    }
    assert !PatchHolds(current, patch, context, c);
    assert forall k :: 2 <= k < c ==> PatchHolds(current, patch, context, k);
    assert issues[0].code in CodesOf(c);
  }

  lemma SixIsNotTheirs(spec: GraphSpec, context: Context)
    ensures CheckHolds(spec, context, 6)
  {}

  datatype PatchResult = Applied(graph: CompiledGraph, fromRevision: int, toRevision: int) | PatchRefused(code: Code)

  /** All of the patch or none of it; `current` stays as it is. */
  method ApplyGraphPatch(current: CompiledGraph, patch: GraphPatch, context: PatchContext, supported: string -> bool)
    returns (r: PatchResult)
    ensures r.Applied? <==> supported(patch.protocol) && PatchOk(current.spec, patch, context)
    ensures r.Applied? ==>
              && r.graph.spec == Next(current.spec, patch) && Indexes(r.graph)
              && r.fromRevision == current.spec.revision && r.toRevision == current.spec.revision + 1
    ensures r.PatchRefused? ==>
              if !supported(patch.protocol) then r.code == ProtocolUnsupported
              else if patch.graphId != current.spec.graphId then r.code == ReferenceInvalid
              else if patch.expectedRevision != current.spec.revision then r.code == RevisionConflict
              else if !LockedRespected(current.spec, patch, context) then r.code == ActiveNodeMutation
              else if CandidateNodes(current.spec.nodes, patch).None? then r.code == ReferenceInvalid
              else if |CandidateNodes(current.spec.nodes, patch).value| == 0 then r.code == SchemaInvalid
              else RefusedFor(current.spec, patch, context, r.code)
  {
    hide LockedRespected, Accepted, AuthorityOk, Indexes, CandidateNodes, FirstBroken, RefusedFor, Sorted, Coded, CodesOf, Tagged;
    if !supported(patch.protocol) { return PatchRefused(ProtocolUnsupported); }
    if patch.graphId != current.spec.graphId { return PatchRefused(ReferenceInvalid); }
    if patch.expectedRevision != current.spec.revision { return PatchRefused(RevisionConflict); }
    var respected := RespectsLocked(current.spec, patch, context);
    if !respected { return PatchRefused(ActiveNodeMutation); }
    var candidate := BuildCandidate(current.spec, patch);
    if candidate.CandidateRefused? { return PatchRefused(candidate.code); }
    var graphIssues := ValidateGraph(candidate.spec, ValidationContext(current.spec, patch, context));
    var authorityIssues := CheckAuthority(patch, candidate.spec, context.authority);
    SortByCheckOk(graphIssues + authorityIssues);
    var issues := SortByCheck(graphIssues + authorityIssues);
    if |issues| > 0 {
      FirstRefusal(current.spec, patch, context, graphIssues, authorityIssues, issues);
      return PatchRefused(issues[0].code);
    }
    var g := BuildGraph(candidate.spec);
    return Applied(g, current.spec.revision, candidate.spec.revision);
  }
}
