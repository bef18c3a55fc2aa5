/** The graph specification as the checks and the decision layer read it. */
module GraphTypes {
  import opened Options

  type Id = string

  datatype NodeKind = JoinKind | OtherKind(name: string)
  datatype EdgeType = Dependency | Data | Route | Repair | Fallback | Provenance

  datatype SchemaRef = SchemaRef(name: string, version: string, digest: string)
  datatype Binding = Binding(nodeId: Id, rest: string)
  datatype ArtifactRef = ArtifactRef(id: string, digest: string, binding: Option<Binding>, schema: SchemaRef, rest: string)

  datatype PredicateOp = OpEq | OpNeq | OpAll | OpAny | OpNot | OpTrue
  datatype Predicate = Predicate(op: PredicateOp, path: Option<string>, value: Option<string>, children: seq<Predicate>)

  datatype LoopSpec = LoopSpec(bodyNodeIds: seq<Id>, maxDepth: Option<int>, rest: string)

  /** `rest` stands for the fields no rule here reads. */
  datatype NodeSpec = NodeSpec(nodeId: Id, kind: NodeKind, terminal: bool, requiredBranches: seq<Id>,
                               loop: Option<LoopSpec>, outputSchemas: seq<SchemaRef>, exclusive: seq<Id>,
                               shared: seq<Id>, maxAttempts: int, capabilities: seq<string>, rest: string)

  datatype EdgeSpec = EdgeSpec(edgeId: Id, kind: EdgeType, from: Id, to: Id, when: Option<Predicate>,
                               artifact: Option<ArtifactRef>, expected: Option<SchemaRef>, maxAttempts: Option<int>,
                               relation: Option<string>)

  datatype ResourceMode = Exclusive | Shared
  datatype ResourcePolicy = ResourcePolicy(resourceId: Id, mode: ResourceMode, maxHolders: int)
  datatype GraphLimits = GraphLimits(maxNodes: int, maxAttempts: int, maxDepth: int)
  datatype AbandonedBranch = AbandonedBranch(nodeId: Id, authorityRef: Id, reason: string, at: int)

  datatype GraphSpec = GraphSpec(protocol: string, graphId: Id, revision: int, taskContractRef: string,
                                 nodes: seq<NodeSpec>, typedEdges: seq<EdgeSpec>, requiredJoins: seq<Id>,
                                 resourcePolicy: seq<ResourcePolicy>, graphLimits: GraphLimits,
                                 abandonedBranches: seq<AbandonedBranch>)

  datatype Code = SchemaInvalid | ReferenceInvalid | DependencyCycle | InputStale | BindingMismatch | JoinIncomplete
                | ResourceConflict | BoundInvalid | NonTerminating | TerminalRequired | EvidenceRemoval
                | AuthorityEscalation | RevisionConflict | ActiveNodeMutation | ProtocolUnsupported

  /** One rejected rule: the number of the check, and the error code it reports. */
  datatype Issue = Issue(check: int, code: Code)

  predicate IsRouting(t: EdgeType) { t == Route || t == Repair || t == Fallback }
  predicate IsBlocking(t: EdgeType) { t == Dependency || t == Data }
  predicate IsRetry(t: EdgeType) { t == Repair || t == Fallback }

  /** Every issue of `issues` is of check `check` and carries `code`. */
  predicate Tagged(issues: seq<Issue>, check: int, code: Code) {
    forall i :: 0 <= i < |issues| ==> issues[i] == Issue(check, code)
  }

  /** Some issue of `issues` carries `code`. */
  predicate CodeIn(issues: seq<Issue>, code: Code) {
    exists k :: 0 <= k < |issues| && issues[k].code == code
  }

  function NodeIds(nodes: seq<NodeSpec>): (ids: seq<Id>)
    ensures |ids| == |nodes| && forall i :: 0 <= i < |nodes| ==> ids[i] == nodes[i].nodeId
  {
    seq(|nodes|, i requires 0 <= i < |nodes| => nodes[i].nodeId)
  }

  predicate HasNode(nodes: seq<NodeSpec>, id: Id) {
    exists i :: 0 <= i < |nodes| && nodes[i].nodeId == id
  }

  predicate DistinctNodes(nodes: seq<NodeSpec>) {
    forall i, j :: 0 <= i < j < |nodes| ==> nodes[i].nodeId != nodes[j].nodeId
  }

  predicate DistinctEdges(edges: seq<EdgeSpec>) {
    forall i, j :: 0 <= i < j < |edges| ==> edges[i].edgeId != edges[j].edgeId
  }

  /** Both ends of every edge are declared nodes. */
  predicate EndpointsDeclared(spec: GraphSpec) {
    forall i :: 0 <= i < |spec.typedEdges| ==>
      HasNode(spec.nodes, spec.typedEdges[i].from) && HasNode(spec.nodes, spec.typedEdges[i].to)
  }

  /** The first node with this id, as `nodes.find` answers. */
  function FindNode(nodes: seq<NodeSpec>, id: Id): (r: Option<NodeSpec>)
    ensures r.Some? <==> HasNode(nodes, id)
    ensures r.Some? ==> r.value in nodes && r.value.nodeId == id
  {
    if |nodes| == 0 then None
    else if nodes[0].nodeId == id then Some(nodes[0])
    else
      var r := FindNode(nodes[1..], id);
      assert HasNode(nodes[1..], id) ==> HasNode(nodes, id) by {
        if i :| 0 <= i < |nodes[1..]| && nodes[1..][i].nodeId == id { assert nodes[i + 1].nodeId == id; }
      }
      assert HasNode(nodes, id) ==> HasNode(nodes[1..], id) by {
        if i :| 0 <= i < |nodes| && nodes[i].nodeId == id { assert nodes[1..][i - 1].nodeId == id; }
      }
      r
  }
}
