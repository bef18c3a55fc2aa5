/** The indexed graph, the single judgement `decide`, joins and readiness. */
module GraphDecide {
  import opened Options
  import opened GraphTypes
  import opened GraphChecks
  import opened GraphCycles
  import opened GraphGate
  import opened GraphMeaning

  /** What the decision layer reads of a graph: lookups filled from the spec. */
  datatype CompiledGraph = CompiledGraph(spec: GraphSpec, nodes: map<Id, NodeSpec>, outgoing: map<Id, seq<EdgeSpec>>,
                                         incoming: map<Id, seq<EdgeSpec>>, abandoned: set<Id>,
                                         resourcePolicy: map<Id, ResourcePolicy>)
  {
    function Node(id: Id): Option<NodeSpec> { if id in nodes then Some(nodes[id]) else None }
    function EdgesFrom(id: Id): seq<EdgeSpec> { if id in outgoing then outgoing[id] else [] }
    function EdgesTo(id: Id): seq<EdgeSpec> { if id in incoming then incoming[id] else [] }
  }

  /** The lookups answer what the spec says. */
  ghost predicate Indexes(g: CompiledGraph) {
    && (forall id :: g.Node(id) == LastNode(g.spec.nodes, id))
    && (forall id :: g.EdgesFrom(id) == EdgesAt(g.spec.typedEdges, id, FromOf()))
    && (forall id :: g.EdgesTo(id) == EdgesAt(g.spec.typedEdges, id, ToOf()))
    && (forall id :: id in g.abandoned <==> id in AbandonedIds(g.spec.abandonedBranches))
    && (forall id :: (if id in g.resourcePolicy then Some(g.resourcePolicy[id]) else None) == LastPolicy(g.spec.resourcePolicy, id))
  }

  method BuildGraph(spec: GraphSpec) returns (g: CompiledGraph)
    ensures g.spec == spec && Indexes(g)
  {
    hide LastNode, LastPolicy, EdgesAt;
    var nodes := IndexNodes(spec.nodes);
    var outgoing := GroupEdges(spec.typedEdges, FromOf());
    var incoming := GroupEdges(spec.typedEdges, ToOf());
    var policy, _ := IndexPolicy(spec.resourcePolicy);
    var ids := AbandonedIds(spec.abandonedBranches);
    g := CompiledGraph(spec, nodes, outgoing, incoming, (set id | id in ids), policy);
  }

  datatype CompileResult = Compiled(graph: CompiledGraph) | Refused(code: Code)

  /** What the protocol decoder makes of a value; any decoder will do. */
  datatype Decoding = Decoded(spec: GraphSpec) | Undecodable(code: Code)

  /** A refused value never yields a plan; what cannot be decoded keeps its code, any other code belongs to the first broken rule. */
  method CompileGraph<V>(value: V, contractBranches: seq<Id>, decode: V -> Decoding, supported: string -> bool) returns (r: CompileResult)
    ensures r.Compiled? <==> decode(value).Decoded? && supported(decode(value).spec.protocol)
                             && Accepted(decode(value).spec, Context(contractBranches, [], [], [], []))
    ensures r.Compiled? ==> r.graph.spec == decode(value).spec && Indexes(r.graph)
    ensures r.Refused? ==> if decode(value).Undecodable? then r.code == decode(value).code
                           else if !supported(decode(value).spec.protocol) then r.code == ProtocolUnsupported
                           else Explains(decode(value).spec, Context(contractBranches, [], [], [], []), r.code)
  {
    var decoded := decode(value);
    if decoded.Undecodable? { return Refused(decoded.code); }
    var spec := decoded.spec;
    if !supported(spec.protocol) { return Refused(ProtocolUnsupported); }
    hide Accepted, Indexes, FirstBroken, CodesOf;
    var issues := ValidateGraph(spec, Context(contractBranches, [], [], [], []));
    if |issues| > 0 { return Refused(issues[0].code); }
    var g := BuildGraph(spec);
    return Compiled(g);
  }

  // ---- decide --------------------------------------------------------------------------------------

  datatype NodeState = Pending | ReadyState | Leased | Running | Verifying | Waiting | Succeeded | Failed | Unknown | Cancelling | Cancelled
  datatype TaskOutcome = Completed | NeedsRepair | TaskFailed | NeedsHuman | TaskUnknown
  datatype Rule = A1 | A2 | A3 | A4 | A5 | A6 | B1 | B2 | B3 | INV
  datatype Action = Enable(nodeId: Id) | NewAttempt(target: Id, previousReason: string)
  datatype Outcome = Outcome(ok: bool, reason: string, decision: TaskOutcome)
  datatype GapKind = UpstreamTerminal | InputArtifactStale | JoinIncompleteGap | ResourceUnavailable
  datatype Gap = Gap(kind: GapKind, node: Id, at: int)
  datatype Decision = Decision(rule: Rule, nodeState: NodeState, reason: Option<string>, actions: seq<Action>, gap: Option<Gap>)

  function StateFromDecision(d: TaskOutcome): NodeState {
    match d
    case Completed => Succeeded
    case NeedsRepair => Failed
    case TaskFailed => Failed
    case NeedsHuman => Waiting
    case TaskUnknown => Unknown
  }

  function Resolved(rule: Rule, o: Outcome, actions: seq<Action>): Decision {
    if !o.ok then Decision(rule, Failed, Some(o.reason), actions, None)
    else Decision(rule, StateFromDecision(o.decision), None, actions, None)
  }

  /** The first edge of this kind whose predicate matches, in declaration order. */
  function MatchingOutgoing(edges: seq<EdgeSpec>, kind: EdgeType, matches: Predicate -> bool): Option<EdgeSpec> {
    if |edges| == 0 then None
    else if edges[0].kind == kind && edges[0].when.Some? && matches(edges[0].when.value) then Some(edges[0])
    else MatchingOutgoing(edges[1..], kind, matches)
  }

  /** Event A: rules A1 to A6 in order, then the invariant alarm. `matches` evaluates a predicate on the outcome. */
  function DecideOutcome(g: CompiledGraph, id: Id, state: NodeState, o: Outcome, matches: Predicate -> bool): Decision {
    var edges := g.EdgesFrom(id);
    var route := MatchingOutgoing(edges, Route, matches);
    var repair := MatchingOutgoing(edges, Repair, matches);
    var fallback := MatchingOutgoing(edges, Fallback, matches);
    if g.Node(id).Some? && g.Node(id).value.terminal then Resolved(A1, o, [])
    else if route.Some? then Resolved(A2, o, [Enable(route.value.to)])
    else if repair.Some? then
      Decision(A3, Failed, Some(o.reason), [NewAttempt(repair.value.to, o.reason), Enable(repair.value.to)], None)
    else if fallback.Some? then Decision(A4, Failed, Some(o.reason), [Enable(fallback.value.to)], None)
    else if HasRoutingOutgoing(edges) then Decision(A5, Failed, Some("no-matching-route"), [], None)
    else if HasBlockingConsumer(edges) then Resolved(A6, o, [])
    else Decision(INV, state, None, [], None)
  }

  predicate HasDeclaredCover(edgesTo: seq<EdgeSpec>, id: Id) {
    exists i :: 0 <= i < |edgesTo| && edgesTo[i].to == id && IsRetry(edgesTo[i].kind)
  }

  /** Event B: cover first, then abandonment, otherwise wait. */
  function DecideUpstream(g: CompiledGraph, upstreamId: Id, at: int): Decision {
    var gap := Gap(UpstreamTerminal, upstreamId, at);
    if HasDeclaredCover(g.EdgesTo(upstreamId), upstreamId) then Decision(B1, Waiting, None, [], Some(gap))
    else if upstreamId in g.abandoned then Decision(B2, Failed, Some("upstream-abandoned"), [], None)
    else Decision(B3, Waiting, None, [], Some(gap))
  }

  lemma {:induction false} MatchingIsRouting(edges: seq<EdgeSpec>, kind: EdgeType, matches: Predicate -> bool)
    requires IsRouting(kind) && MatchingOutgoing(edges, kind, matches).Some?
    ensures HasRoutingOutgoing(edges)
  {
    if edges[0].kind == kind {
      assert IsRouting(edges[0].kind);
    } else {
      MatchingIsRouting(edges[1..], kind, matches);
      var i :| 0 <= i < |edges[1..]| && IsRouting(edges[1..][i].kind);
      assert edges[i + 1] == edges[1..][i];
    }
  }

  lemma EdgesFromAt(g: CompiledGraph, id: Id)
    requires Indexes(g)
    ensures g.EdgesFrom(id) == EdgesAt(g.spec.typedEdges, id, FromOf())
  {
    hide EdgesAt;
  }

  /** The alarm fires exactly on a node that is not terminal and that no edge consumes. */
  lemma AlarmIff(g: CompiledGraph, id: Id, state: NodeState, o: Outcome, matches: Predicate -> bool)
    requires Indexes(g)
    ensures DecideOutcome(g, id, state, o, matches).rule == INV <==>
            !(g.Node(id).Some? && g.Node(id).value.terminal) && !Consumed(g.spec.typedEdges, id)
  {
    EdgesFromAt(g, id);
    hide Consumed, EdgesAt, HasRoutingOutgoing, HasBlockingConsumer, MatchingOutgoing, Indexes;
    ConsumedIff(g.spec.typedEdges, id);
    var edges := g.EdgesFrom(id);
    if MatchingOutgoing(edges, Route, matches).Some? { MatchingIsRouting(edges, Route, matches); }
    if MatchingOutgoing(edges, Repair, matches).Some? { MatchingIsRouting(edges, Repair, matches); }
    if MatchingOutgoing(edges, Fallback, matches).Some? { MatchingIsRouting(edges, Fallback, matches); }
  }

  lemma {:induction false} LastIsFind(nodes: seq<NodeSpec>, id: Id)
    ensures LastNode(nodes, id).Some? <==> HasNode(nodes, id)
    ensures LastNode(nodes, id).Some? ==> LastNode(nodes, id).value in nodes && LastNode(nodes, id).value.nodeId == id
  {
    if |nodes| > 0 {
      var init := nodes[..|nodes| - 1];
      LastIsFind(init, id);
      if HasNode(init, id) {
        var i :| 0 <= i < |init| && init[i].nodeId == id;
        assert nodes[i].nodeId == id;
      }
      if HasNode(nodes, id) && nodes[|nodes| - 1].nodeId != id {
        var i :| 0 <= i < |nodes| && nodes[i].nodeId == id;
        assert init[i].nodeId == id;
      }
      if nodes[|nodes| - 1].nodeId == id { assert HasNode(nodes, id); }
    }
  }

  /** On a graph that passed the gate, no node's outcome ever reaches the alarm. */
  lemma NoAlarmOnAccepted(g: CompiledGraph, context: Context, id: Id, state: NodeState, o: Outcome, matches: Predicate -> bool)
    requires Indexes(g) && Accepted(g.spec, context) && HasNode(g.spec.nodes, id)
    ensures DecideOutcome(g, id, state, o, matches).rule != INV
  {
    hide Indexes, Consumed, DecideOutcome;
    assert CheckHolds(g.spec, context, 10);
    AlarmIff(g, id, state, o, matches);
    LastIsFind(g.spec.nodes, id);
    assert g.Node(id) == LastNode(g.spec.nodes, id) by { NodeIndexed(g, id); }
    var n := LastNode(g.spec.nodes, id).value;
    var i :| 0 <= i < |g.spec.nodes| && g.spec.nodes[i] == n;
    assert g.spec.nodes[i].terminal || Consumed(g.spec.typedEdges, g.spec.nodes[i].nodeId);
  }

  lemma NodeIndexed(g: CompiledGraph, id: Id)
    requires Indexes(g)
    ensures g.Node(id) == LastNode(g.spec.nodes, id)
  {}

  // ---- joins ---------------------------------------------------------------------------------------

  datatype BranchFacts = BranchFacts(state: Option<NodeState>, evidence: string, gapReason: Option<string>)
  datatype BranchReport = BranchReport(nodeId: Id, state: Option<NodeState>, evidence: string, gapReason: Option<string>)
  datatype JoinStatus = JoinVerifying | JoinWaiting | JoinFailed
  datatype JoinEvaluation = JoinEvaluation(status: JoinStatus, requiredBranches: seq<Id>, report: seq<BranchReport>,
                                           rules: seq<Rule>, violation: bool)

  function StateOf(branches: map<Id, BranchFacts>, id: Id): Option<NodeState> {
    if id in branches then branches[id].state else None
  }

  predicate Done(branches: map<Id, BranchFacts>, id: Id) { StateOf(branches, id) == Some(Succeeded) }

  function Report(g: CompiledGraph, branches: map<Id, BranchFacts>, id: Id, at: int): BranchReport {
    var given := if id in branches then branches[id].gapReason else None;
    var reason :=
      if Done(branches, id) then None
      else if given.Some? then given
      else if DecideUpstream(g, id, at).rule == B2 then Some("upstream-abandoned")
      else Some("upstream-terminal");
    BranchReport(id, StateOf(branches, id), if id in branches then branches[id].evidence else "", reason)
  }

  /** Some required branch is lost for good: not done, abandoned, and no repair or fallback leads to it. */
  ghost predicate BranchLost(g: CompiledGraph, branches: map<Id, BranchFacts>, required: seq<Id>) {
    exists i :: 0 <= i < |required| && !Done(branches, required[i]) && required[i] in g.abandoned
      && !HasDeclaredCover(g.EdgesTo(required[i]), required[i])
  }

  ghost predicate AllDone(branches: map<Id, BranchFacts>, required: seq<Id>) {
    forall i :: 0 <= i < |required| ==> Done(branches, required[i])
  }

  /** Fan-in: failed when a branch is lost, waiting on any other gap, verifying when all succeeded. */
  ghost function JoinStatusOf(g: CompiledGraph, branches: map<Id, BranchFacts>, required: seq<Id>): JoinStatus {
    if BranchLost(g, branches, required) then JoinFailed
    else if AllDone(branches, required) then JoinVerifying
    else JoinWaiting
  }

  /** The rule each branch that is not done falls under, in declaration order. */
  function RulesOf(g: CompiledGraph, branches: map<Id, BranchFacts>, required: seq<Id>, at: int): seq<Rule> {
    if |required| == 0 then []
    else
      var id := required[|required| - 1];
      RulesOf(g, branches, required[..|required| - 1], at) + if Done(branches, id) then [] else [DecideUpstream(g, id, at).rule]
  }

  lemma RulesStep(g: CompiledGraph, branches: map<Id, BranchFacts>, required: seq<Id>, i: nat, at: int)
    requires i < |required|
    ensures RulesOf(g, branches, required[..i + 1], at)
         == RulesOf(g, branches, required[..i], at) + if Done(branches, required[i]) then [] else [DecideUpstream(g, required[i], at).rule]
  {
    hide Done, DecideUpstream;
    assert required[..i + 1][..i] == required[..i];
  }

  /** The report covers exactly the required branches, in order, whatever their state. */
  method EvaluateJoin(g: CompiledGraph, joinId: Id, branches: map<Id, BranchFacts>, at: int) returns (e: JoinEvaluation)
    ensures e.violation <==> !(g.Node(joinId).Some? && g.Node(joinId).value.kind == JoinKind)
    ensures e.violation ==> e == JoinEvaluation(JoinFailed, [], [], [INV], true)
    ensures !e.violation ==>
              var required := g.Node(joinId).value.requiredBranches;
              && e.requiredBranches == required
              && e.status == JoinStatusOf(g, branches, required)
              && e.rules == RulesOf(g, branches, required, at)
              && e.report == seq(|required|, i requires 0 <= i < |required| => Report(g, branches, required[i], at))
  {
    hide HasDeclaredCover, DecideUpstream, BranchLost, AllDone, RulesOf;
    var node := g.Node(joinId);
    if node.None? || node.value.kind != JoinKind { return JoinEvaluation(JoinFailed, [], [], [INV], true); }
    var required := node.value.requiredBranches;
    NoBranches(g, branches);
    assert required[..0] == [];
    var report: seq<BranchReport>, rules: seq<Rule>, failed, waiting := [], [], false, false;
    for i := 0 to |required|
      invariant |report| == i && forall k :: 0 <= k < i ==> report[k] == Report(g, branches, required[k], at)
      invariant failed <==> BranchLost(g, branches, required[..i])
      invariant failed || waiting <==> !AllDone(branches, required[..i])
      invariant rules == RulesOf(g, branches, required[..i], at)
    {
      var branchId := required[i];
      var state := StateOf(branches, branchId);
      var gapReason := if branchId in branches then branches[branchId].gapReason else None;
      UpstreamLost(g, branchId, at);
      if state != Some(Succeeded) {
        var result := DecideUpstream(g, branchId, at);
        rules := rules + [result.rule];
        if result.rule == B2 { failed := true; } else { waiting := true; }
        if gapReason.None? { gapReason := Some(if result.rule == B2 then "upstream-abandoned" else "upstream-terminal"); }
      }
      report := report + [BranchReport(branchId, state, if branchId in branches then branches[branchId].evidence else "",
                                       if state == Some(Succeeded) then None else gapReason)];
      BranchStep(g, branches, required, i);
      RulesStep(g, branches, required, i, at);
    }
    assert required[..|required|] == required;
    var status := if failed then JoinFailed else if waiting then JoinWaiting else JoinVerifying;
    e := JoinEvaluation(status, required, report, rules, false);
  }

  lemma UpstreamLost(g: CompiledGraph, id: Id, at: int)
    ensures DecideUpstream(g, id, at).rule == B2 <==> id in g.abandoned && !HasDeclaredCover(g.EdgesTo(id), id)
  {
    hide HasDeclaredCover;
  }

  lemma NoBranches(g: CompiledGraph, branches: map<Id, BranchFacts>)
    ensures !BranchLost(g, branches, []) && AllDone(branches, []) && forall at :: RulesOf(g, branches, [], at) == []
  {}

  lemma BranchStep(g: CompiledGraph, branches: map<Id, BranchFacts>, required: seq<Id>, i: nat)
    requires i < |required|
    ensures BranchLost(g, branches, required[..i + 1]) <==>
            BranchLost(g, branches, required[..i]) ||
            (!Done(branches, required[i]) && required[i] in g.abandoned && !HasDeclaredCover(g.EdgesTo(required[i]), required[i]))
    ensures AllDone(branches, required[..i + 1]) <==> AllDone(branches, required[..i]) && Done(branches, required[i])
  {
    hide HasDeclaredCover, Done;
    var a, b := required[..i], required[..i + 1];
    assert b == a + [required[i]];
    if BranchLost(g, branches, a) {
      var k :| 0 <= k < |a| && !Done(branches, a[k]) && a[k] in g.abandoned && !HasDeclaredCover(g.EdgesTo(a[k]), a[k]);
      assert b[k] == a[k];
    }
    assert b[i] == required[i];
  }

  // ---- readiness -----------------------------------------------------------------------------------

  datatype HolderCount = HolderCount(active: int, abandoned: int)

  datatype NodeFacts = NodeFacts(states: map<Id, NodeState>, artifacts: map<Id, ArtifactRef>, holders: map<Id, HolderCount>,
                                 seqNo: int, branches: map<Id, BranchFacts>)

  datatype Readiness = Ready | Blocked(gap: Gap) | NotReady(reason: string, rule: Rule)

  /** The produced artifact satisfies the selector and, when bound, is the bound one. */
  predicate ArtifactConsumable(e: EdgeSpec, produced: Option<ArtifactRef>) {
    e.expected.Some? && produced.Some? && e.expected.value == produced.value.schema
    && (e.artifact.None? || produced.value.digest == e.artifact.value.digest)
  }

  /** The first blocking input that holds the node back, in declaration order. */
  function InputGap(g: CompiledGraph, edges: seq<EdgeSpec>, facts: NodeFacts): Option<Readiness> {
    if |edges| == 0 then None
    else
      var e := edges[0];
      if !IsBlocking(e.kind) then InputGap(g, edges[1..], facts)
      else if !(e.from in facts.states && facts.states[e.from] == Succeeded) then
        if DecideUpstream(g, e.from, facts.seqNo).rule == B2 then Some(NotReady("upstream-abandoned", B2))
        else Some(Blocked(Gap(UpstreamTerminal, e.from, facts.seqNo)))
      else if e.kind == Data
        && !ArtifactConsumable(e, if e.from in facts.artifacts then Some(facts.artifacts[e.from]) else None) then
        Some(Blocked(Gap(InputArtifactStale, e.from, facts.seqNo)))
      else InputGap(g, edges[1..], facts)
  }

  function ResourceGap(g: CompiledGraph, declared: seq<Id>, facts: NodeFacts): Option<Readiness> {
    if |declared| == 0 then None
    else if declared[0] !in g.resourcePolicy then Some(NotReady("resource-policy-missing", INV))
    else if g.resourcePolicy[declared[0]].maxHolders == 0
      || (declared[0] in facts.holders && facts.holders[declared[0]].abandoned > 0) then
      Some(Blocked(Gap(ResourceUnavailable, declared[0], facts.seqNo)))
    else ResourceGap(g, declared[1..], facts)
  }

  ghost function JoinReadiness(g: CompiledGraph, n: NodeSpec, facts: NodeFacts): Readiness {
    match JoinStatusOf(g, facts.branches, n.requiredBranches)
    case JoinFailed => NotReady("upstream-abandoned", B2)
    case JoinWaiting => Blocked(Gap(JoinIncompleteGap, n.nodeId, facts.seqNo))
    case JoinVerifying => Ready
  }

  /** Ready, or the first thing that keeps the node from it. */
  ghost function ReadinessOf(g: CompiledGraph, id: Id, facts: NodeFacts): Readiness {
    match g.Node(id)
    case None => NotReady("unknown-node", INV)
    case Some(n) =>
      if n.kind == JoinKind then JoinReadiness(g, n.(nodeId := id), facts)
      else
        var input := InputGap(g, g.EdgesTo(id), facts);
        var resource := ResourceGap(g, n.exclusive + n.shared, facts);
        if input.Some? then input.value else if resource.Some? then resource.value else Ready
  }

  // ---- what readiness means ------------------------------------------------------------------------

  predicate HasSucceeded(facts: NodeFacts, id: Id) { id in facts.states && facts.states[id] == Succeeded }

  function Produced(facts: NodeFacts, id: Id): Option<ArtifactRef> {
    if id in facts.artifacts then Some(facts.artifacts[id]) else None
  }

  /** The edge does not hold its target back: the producer succeeded and, for data, its artifact fits. */
  predicate InputMet(e: EdgeSpec, facts: NodeFacts) {
    IsBlocking(e.kind) ==> HasSucceeded(facts, e.from) && (e.kind == Data ==> ArtifactConsumable(e, Produced(facts, e.from)))
  }

  predicate ResourceMet(policy: seq<ResourcePolicy>, id: Id, facts: NodeFacts) {
    && LastPolicy(policy, id).Some? && LastPolicy(policy, id).value.maxHolders != 0
    && (id in facts.holders ==> facts.holders[id].abandoned <= 0)
  }

  /** The resource has a policy that lets someone hold it, and no abandoned holder is left. */
  predicate Available(g: CompiledGraph, id: Id, facts: NodeFacts) {
    id in g.resourcePolicy && g.resourcePolicy[id].maxHolders != 0 && (id in facts.holders ==> facts.holders[id].abandoned <= 0)
  }

  predicate Plain(g: CompiledGraph, id: Id) { g.Node(id).Some? && g.Node(id).value.kind != JoinKind }

  function Resources(g: CompiledGraph, id: Id): seq<Id>
    requires g.Node(id).Some?
  {
    g.Node(id).value.exclusive + g.Node(id).value.shared
  }

  predicate FirstUnmet(edges: seq<EdgeSpec>, facts: NodeFacts, i: int) {
    0 <= i < |edges| && !InputMet(edges[i], facts) && forall k :: 0 <= k < i ==> InputMet(edges[k], facts)
  }

  predicate FirstShort(g: CompiledGraph, declared: seq<Id>, facts: NodeFacts, i: int) {
    0 <= i < |declared| && !Available(g, declared[i], facts) && forall k :: 0 <= k < i ==> Available(g, declared[k], facts)
  }

  /** What an unmet input answers: its producer is lost, has not succeeded yet, or left an artifact that does not fit. */
  function InputAnswer(g: CompiledGraph, e: EdgeSpec, facts: NodeFacts): Readiness {
    if HasSucceeded(facts, e.from) then Blocked(Gap(InputArtifactStale, e.from, facts.seqNo))
    else if e.from in g.abandoned && !HasDeclaredCover(g.EdgesTo(e.from), e.from) then NotReady("upstream-abandoned", B2)
    else Blocked(Gap(UpstreamTerminal, e.from, facts.seqNo))
  }

  function ShortAnswer(g: CompiledGraph, id: Id, facts: NodeFacts): Readiness {
    if id !in g.resourcePolicy then NotReady("resource-policy-missing", INV) else Blocked(Gap(ResourceUnavailable, id, facts.seqNo))
  }

  lemma {:induction false} InputGapFirst(g: CompiledGraph, edges: seq<EdgeSpec>, facts: NodeFacts, i: nat)
    requires FirstUnmet(edges, facts, i)
    ensures InputGap(g, edges, facts) == Some(InputAnswer(g, edges[i], facts))
  {
    hide DecideUpstream, HasDeclaredCover, ArtifactConsumable;
    UpstreamLost(g, edges[0].from, facts.seqNo);
    if i > 0 {
      assert InputMet(edges[0], facts);
      forall k | 0 <= k < i - 1 ensures InputMet(edges[1..][k], facts) { assert InputMet(edges[k + 1], facts); }
      InputGapFirst(g, edges[1..], facts, i - 1);
    }
  }

  lemma {:induction false} ResourceGapFirst(g: CompiledGraph, declared: seq<Id>, facts: NodeFacts, i: nat)
    requires FirstShort(g, declared, facts, i)
    ensures ResourceGap(g, declared, facts) == Some(ShortAnswer(g, declared[i], facts))
  {
    if i > 0 {
      assert Available(g, declared[0], facts);
      forall k | 0 <= k < i - 1 ensures Available(g, declared[1..][k], facts) { assert Available(g, declared[k + 1], facts); }
      ResourceGapFirst(g, declared[1..], facts, i - 1);
    }
  }

  /** The gaps found are the first ones in declaration order, inputs before resources. */
  lemma FirstGaps(g: CompiledGraph, id: Id, facts: NodeFacts)
    requires Plain(g, id)
    ensures var edges := g.EdgesTo(id);
      && (InputGap(g, edges, facts).None? <==> forall i :: 0 <= i < |edges| ==> InputMet(edges[i], facts))
      && (forall i :: FirstUnmet(edges, facts, i) ==> InputGap(g, edges, facts) == Some(InputAnswer(g, edges[i], facts)))
    ensures forall i :: FirstShort(g, Resources(g, id), facts, i) ==>
      ResourceGap(g, Resources(g, id), facts) == Some(ShortAnswer(g, Resources(g, id)[i], facts))
  {
    var edges, declared := g.EdgesTo(id), Resources(g, id);
    hide InputGap, ResourceGap, InputMet, Available, InputAnswer, ShortAnswer;
    InputGapIff(g, edges, facts);
    forall i | FirstUnmet(edges, facts, i) ensures InputGap(g, edges, facts) == Some(InputAnswer(g, edges[i], facts)) { InputGapFirst(g, edges, facts, i); }
    forall i | FirstShort(g, declared, facts, i) ensures ResourceGap(g, declared, facts) == Some(ShortAnswer(g, declared[i], facts)) {
      ResourceGapFirst(g, declared, facts, i);
    }
  }

  lemma {:induction false} InputGapIff(g: CompiledGraph, edges: seq<EdgeSpec>, facts: NodeFacts)
    ensures InputGap(g, edges, facts).None? <==> forall i :: 0 <= i < |edges| ==> InputMet(edges[i], facts)
    ensures InputGap(g, edges, facts).Some? ==> InputGap(g, edges, facts).value != Ready
    ensures InputGap(g, edges, facts).Some? && InputGap(g, edges, facts).value.NotReady? ==>
              InputGap(g, edges, facts).value.rule == B2
  {
    hide DecideUpstream, ArtifactConsumable;
    if |edges| > 0 {
      InputGapIff(g, edges[1..], facts);
      assert forall i :: 0 <= i < |edges[1..]| ==> edges[1..][i] == edges[i + 1];
      if InputMet(edges[0], facts) && forall i :: 0 <= i < |edges[1..]| ==> InputMet(edges[1..][i], facts) {
        forall i | 0 <= i < |edges| ensures InputMet(edges[i], facts) {
          if i > 0 { assert edges[1..][i - 1] == edges[i]; }
        }
      }
    }
  }

  method EvaluateReadiness(g: CompiledGraph, id: Id, facts: NodeFacts) returns (r: Readiness)
    ensures r == ReadinessOf(g, id, facts)
    ensures Plain(g, id) ==> forall i :: FirstUnmet(g.EdgesTo(id), facts, i) ==> r == InputAnswer(g, g.EdgesTo(id)[i], facts)
    ensures Plain(g, id) && (forall i :: 0 <= i < |g.EdgesTo(id)| ==> InputMet(g.EdgesTo(id)[i], facts)) ==>
              forall i :: FirstShort(g, Resources(g, id), facts, i) ==> r == ShortAnswer(g, Resources(g, id)[i], facts)
  {
    if Plain(g, id) { FirstGaps(g, id, facts); }
    hide InputGap, ResourceGap, InputMet, Available, InputAnswer, ShortAnswer;
    var node := g.Node(id);
    if node.None? { return NotReady("unknown-node", INV); }
    if node.value.kind == JoinKind {
      var e := EvaluateJoin(g, id, facts.branches, facts.seqNo);
      if e.violation { return NotReady("invariant", INV); }
      match e.status {
        case JoinFailed => return NotReady("upstream-abandoned", B2);
        case JoinWaiting => return Blocked(Gap(JoinIncompleteGap, id, facts.seqNo));
        case JoinVerifying => return Ready;
      }
    }
    var input := InputGap(g, g.EdgesTo(id), facts);
    if input.Some? { return input.value; }
    var resource := ResourceGap(g, node.value.exclusive + node.value.shared, facts);
    if resource.Some? { return resource.value; }
    return Ready;
  }

  lemma {:induction false} ResourceGapIff(g: CompiledGraph, declared: seq<Id>, facts: NodeFacts)
    requires Indexes(g)
    ensures ResourceGap(g, declared, facts).None? <==>
            forall i :: 0 <= i < |declared| ==> ResourceMet(g.spec.resourcePolicy, declared[i], facts)
    ensures ResourceGap(g, declared, facts).Some? ==> ResourceGap(g, declared, facts).value != Ready
    ensures ResourceGap(g, declared, facts).Some? && ResourceGap(g, declared, facts).value.NotReady? ==>
              exists i :: 0 <= i < |declared| && LastPolicy(g.spec.resourcePolicy, declared[i]).None?
  {
    if |declared| > 0 {
      PolicyIndexed(g, declared[0]);
      ResourceGapIff(g, declared[1..], facts);
      hide Indexes, LastPolicy;
      assert forall i :: 0 <= i < |declared[1..]| ==> declared[1..][i] == declared[i + 1];
      if ResourceMet(g.spec.resourcePolicy, declared[0], facts)
        && forall i :: 0 <= i < |declared[1..]| ==> ResourceMet(g.spec.resourcePolicy, declared[1..][i], facts)
      {
        forall i | 0 <= i < |declared| ensures ResourceMet(g.spec.resourcePolicy, declared[i], facts) {
          if i > 0 { assert declared[1..][i - 1] == declared[i]; }
        }
      }
    }
  }

  lemma PolicyIndexed(g: CompiledGraph, id: Id)
    requires Indexes(g)
    ensures (if id in g.resourcePolicy then Some(g.resourcePolicy[id]) else None) == LastPolicy(g.spec.resourcePolicy, id)
  {}

  /** A node that is no join is ready exactly when every input and every declared resource allows it. */
  lemma ReadyIff(g: CompiledGraph, id: Id, facts: NodeFacts)
    requires Indexes(g) && g.Node(id).Some? && g.Node(id).value.kind != JoinKind
    ensures ReadinessOf(g, id, facts) == Ready <==>
            && (forall e :: e in g.spec.typedEdges && e.to == id ==> InputMet(e, facts))
            && (forall r :: r in g.Node(id).value.exclusive + g.Node(id).value.shared ==> ResourceMet(g.spec.resourcePolicy, r, facts))
  {
    var edges, declared := g.EdgesTo(id), g.Node(id).value.exclusive + g.Node(id).value.shared;
    InputGapIff(g, edges, facts);
    ResourceGapIff(g, declared, facts);
    InputsAreEdges(g, id);
    hide Indexes, InputGap, ResourceGap, InputMet, ResourceMet;
    assert forall i :: 0 <= i < |edges| ==> edges[i] in edges;
    assert forall i :: 0 <= i < |declared| ==> declared[i] in declared;
  }

  lemma InputsAreEdges(g: CompiledGraph, id: Id)
    requires Indexes(g)
    ensures forall e :: e in g.EdgesTo(id) <==> e in g.spec.typedEdges && e.to == id
  {
    forall e ensures e in g.EdgesTo(id) <==> e in g.spec.typedEdges && e.to == id {
      EdgesAtMember(g.spec.typedEdges, id, ToOf(), e);
    }
  }

  /** On a graph that passed the gate, readiness never answers with the alarm either. */
  lemma ReadinessNeverAlarms(g: CompiledGraph, context: Context, id: Id, facts: NodeFacts)
    requires Indexes(g) && Accepted(g.spec, context) && HasNode(g.spec.nodes, id)
    ensures !(ReadinessOf(g, id, facts).NotReady? && ReadinessOf(g, id, facts).rule == INV)
  {
    LastIsFind(g.spec.nodes, id);
    NodeIndexed(g, id);
    assert CheckHolds(g.spec, context, 7);
    hide Accepted;
    var n := g.Node(id).value;
    if n.kind != JoinKind {
      var declared := n.exclusive + n.shared;
      InputGapIff(g, g.EdgesTo(id), facts);
      ResourceGapIff(g, declared, facts);
      forall i | 0 <= i < |declared| ensures LastPolicy(g.spec.resourcePolicy, declared[i]).Some? {
        DeclaredHasPolicy(g.spec, n, declared[i]);
      }
    }
  }

  lemma DeclaredHasPolicy(spec: GraphSpec, n: NodeSpec, r: Id)
    requires ResourcesOk(spec) && n in spec.nodes && r in n.exclusive + n.shared
    ensures LastPolicy(spec.resourcePolicy, r).Some?
  {
    var i :| 0 <= i < |spec.nodes| && spec.nodes[i] == n;
    assert ResourceNodeOk(spec.resourcePolicy, spec.nodes[i]);
    if r in n.exclusive {
      var k :| 0 <= k < |n.exclusive| && n.exclusive[k] == r;
      assert HasMode(spec.resourcePolicy, n.exclusive[k], Exclusive);
    } else {
      var k :| 0 <= k < |n.shared| && n.shared[k] == r;
      assert HasMode(spec.resourcePolicy, n.shared[k], Shared);
    }
  }

  predicate UpstreamGap(r: Readiness) {
    (r.Blocked? && r.gap.kind == UpstreamTerminal) || (r.NotReady? && r.rule == B2)
  }

  ghost function SucceededIds(facts: NodeFacts): set<Id> { set id | id in facts.states && facts.states[id] == Succeeded }

  lemma {:induction false} NoUpstreamGap(g: CompiledGraph, edges: seq<EdgeSpec>, facts: NodeFacts)
    requires forall i :: 0 <= i < |edges| && IsBlocking(edges[i].kind) ==> HasSucceeded(facts, edges[i].from)
    ensures InputGap(g, edges, facts).Some? ==> !UpstreamGap(InputGap(g, edges, facts).value)
  {
    if |edges| > 0 {
      assert forall i :: 0 <= i < |edges[1..]| ==> edges[1..][i] == edges[i + 1];
      NoUpstreamGap(g, edges[1..], facts);
    }
  }

  lemma {:induction false} ResourceIsNoUpstreamGap(g: CompiledGraph, declared: seq<Id>, facts: NodeFacts)
    ensures ResourceGap(g, declared, facts).Some? ==> !UpstreamGap(ResourceGap(g, declared, facts).value)
  {
    if |declared| > 0 { ResourceIsNoUpstreamGap(g, declared[1..], facts); }
  }

  /**
   * Progress: while some node has not succeeded, some unfinished node has all its dependency and data
   * producers done, and if it is no join its readiness names no upstream as the obstacle.
   */
  lemma Progress(g: CompiledGraph, context: Context, facts: NodeFacts) returns (id: Id)
    requires Indexes(g) && Accepted(g.spec, context)
    requires exists i :: 0 <= i < |g.spec.nodes| && !HasSucceeded(facts, g.spec.nodes[i].nodeId)
    ensures HasNode(g.spec.nodes, id) && !HasSucceeded(facts, id) && ProducersDone(g.spec, SucceededIds(facts), id)
    ensures g.Node(id).Some? && (g.Node(id).value.kind != JoinKind ==> !UpstreamGap(ReadinessOf(g, id, facts)))
  {
    var i :| 0 <= i < |g.spec.nodes| && !HasSucceeded(facts, g.spec.nodes[i].nodeId);
    assert g.spec.nodes[i].nodeId !in SucceededIds(facts);
    id := SomeNodeCanStart(g.spec, context, SucceededIds(facts));
    LastIsFind(g.spec.nodes, id);
    NodeIndexed(g, id);
    InputsAreEdges(g, id);
    hide Accepted, Indexes;
    var edges, n := g.EdgesTo(id), g.Node(id).value;
    forall k | 0 <= k < |edges| && IsBlocking(edges[k].kind) ensures HasSucceeded(facts, edges[k].from) {
      assert edges[k] in edges;
      var j :| 0 <= j < |g.spec.typedEdges| && g.spec.typedEdges[j] == edges[k];
    }
    NoUpstreamGap(g, edges, facts);
    ResourceIsNoUpstreamGap(g, n.exclusive + n.shared, facts);
  }
}
