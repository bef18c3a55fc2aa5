/** The rules A1 to B3 and the answers they give, said of the specification's own edges. */
module GraphRules {
  import opened Options
  import opened GraphTypes
  import opened GraphChecks
  import opened GraphDecide

  // ---- what the rules ask of the specification ------------------------------------------------------------------------

  /** Edge `i` leaves the node, is of this kind, and its predicate holds of the outcome. */
  predicate Matches(edges: seq<EdgeSpec>, id: Id, kind: EdgeType, matches: Predicate -> bool, i: int) {
    0 <= i < |edges| && edges[i].from == id && edges[i].kind == kind && edges[i].when.Some? && matches(edges[i].when.value)
  }

  /** The first such edge, in declaration order. */
  predicate FirstMatch(edges: seq<EdgeSpec>, id: Id, kind: EdgeType, matches: Predicate -> bool, i: int) {
    Matches(edges, id, kind, matches, i) && forall j :: 0 <= j < i ==> !Matches(edges, id, kind, matches, j)
  }

  predicate SomeMatch(edges: seq<EdgeSpec>, id: Id, kind: EdgeType, matches: Predicate -> bool) {
    exists i :: 0 <= i < |edges| && Matches(edges, id, kind, matches, i)
  }

  predicate LeavesRouting(edges: seq<EdgeSpec>, id: Id) {
    exists i :: 0 <= i < |edges| && edges[i].from == id && (edges[i].kind == Route || edges[i].kind == Repair || edges[i].kind == Fallback)
  }

  predicate LeavesBlocking(edges: seq<EdgeSpec>, id: Id) {
    exists i :: 0 <= i < |edges| && edges[i].from == id && (edges[i].kind == Dependency || edges[i].kind == Data)
  }

  /** The last declaration of the node is terminal. */
  predicate Terminal(nodes: seq<NodeSpec>, id: Id) {
    exists i :: 0 <= i < |nodes| && nodes[i].nodeId == id && nodes[i].terminal && forall j :: i < j < |nodes| ==> nodes[j].nodeId != id
  }

  /** A repair or a fallback leads to the node. */
  predicate Covered(edges: seq<EdgeSpec>, id: Id) {
    exists i :: 0 <= i < |edges| && edges[i].to == id && (edges[i].kind == Repair || edges[i].kind == Fallback)
  }

  predicate Abandoned(branches: seq<AbandonedBranch>, id: Id) { exists i :: 0 <= i < |branches| && branches[i].nodeId == id }

  // ---- the lookups ------------------------------------------------------------------------------------------------------------

  lemma {:induction false} MatchingAppend(a: seq<EdgeSpec>, e: EdgeSpec, kind: EdgeType, matches: Predicate -> bool)
    ensures MatchingOutgoing(a + [e], kind, matches) ==
      if MatchingOutgoing(a, kind, matches).Some? then MatchingOutgoing(a, kind, matches) else MatchingOutgoing([e], kind, matches)
  {
    if |a| > 0 {
      assert (a + [e])[1..] == a[1..] + [e];
      MatchingAppend(a[1..], e, kind, matches);
    } else {
      assert a + [e] == [e];
    }
  }

  /** The edge found among those that leave the node is the first match of the whole specification. */
  lemma {:induction false} MatchingIs(edges: seq<EdgeSpec>, id: Id, kind: EdgeType, matches: Predicate -> bool)
    ensures MatchingOutgoing(EdgesAt(edges, id, FromOf()), kind, matches).Some? <==> SomeMatch(edges, id, kind, matches)
    ensures forall i :: FirstMatch(edges, id, kind, matches, i) ==> MatchingOutgoing(EdgesAt(edges, id, FromOf()), kind, matches) == Some(edges[i])
  {
    if |edges| > 0 {
      var n := |edges| - 1;
      var init, last := edges[..n], edges[n];
      MatchingIs(init, id, kind, matches);
      MatchingAppend(EdgesAt(init, id, FromOf()), last, kind, matches);
      LastMatches(edges, id, kind, matches);
    }
  }

  lemma LastMatches(edges: seq<EdgeSpec>, id: Id, kind: EdgeType, matches: Predicate -> bool)
    requires |edges| > 0
    ensures var n := |edges| - 1;
      && (SomeMatch(edges, id, kind, matches) <==> SomeMatch(edges[..n], id, kind, matches) || Matches(edges, id, kind, matches, n))
      && forall i :: FirstMatch(edges, id, kind, matches, i) ==>
           if i < n then FirstMatch(edges[..n], id, kind, matches, i) else i == n && !SomeMatch(edges[..n], id, kind, matches)
  {
    var init := edges[..|edges| - 1];
    assert forall i :: 0 <= i < |init| ==> (Matches(init, id, kind, matches, i) <==> Matches(edges, id, kind, matches, i));
  }

  lemma RoutingIs(edges: seq<EdgeSpec>, id: Id)
    ensures HasRoutingOutgoing(EdgesAt(edges, id, FromOf())) <==> LeavesRouting(edges, id)
    ensures HasBlockingConsumer(EdgesAt(edges, id, FromOf())) <==> LeavesBlocking(edges, id)
  {
    var out := EdgesAt(edges, id, FromOf());
    forall e ensures e in out <==> e in edges && e.from == id { EdgesAtMember(edges, id, FromOf(), e); }
    hide EdgesAt;
    assert forall i :: 0 <= i < |out| ==> out[i] in out;
    assert forall i :: 0 <= i < |edges| && edges[i].from == id ==> edges[i] in out;
  }

  lemma {:induction false} TerminalIs(nodes: seq<NodeSpec>, id: Id)
    ensures LastNode(nodes, id).Some? && LastNode(nodes, id).value.terminal <==> Terminal(nodes, id)
  {
    if |nodes| > 0 {
      var n := |nodes| - 1;
      TerminalIs(nodes[..n], id);
      if nodes[n].nodeId == id {
        assert nodes[n].terminal ==> Terminal(nodes, id);
      } else if Terminal(nodes[..n], id) {
        var i :| 0 <= i < n && nodes[..n][i].nodeId == id && nodes[..n][i].terminal && forall j :: i < j < n ==> nodes[..n][j].nodeId != id;
        assert nodes[i].nodeId == id;
        assert forall j :: i < j < n ==> nodes[j] == nodes[..n][j];
      }
      if Terminal(nodes, id) && nodes[n].nodeId != id { TerminalBefore(nodes, id); }
    }
  }

  lemma TerminalBefore(nodes: seq<NodeSpec>, id: Id)
    requires |nodes| > 0 && Terminal(nodes, id) && nodes[|nodes| - 1].nodeId != id
    ensures Terminal(nodes[..|nodes| - 1], id)
  {
    var init := nodes[..|nodes| - 1];
    var i :| 0 <= i < |nodes| && nodes[i].nodeId == id && nodes[i].terminal && forall j :: i < j < |nodes| ==> nodes[j].nodeId != id;
    assert init[i].nodeId == id;
  }

  lemma CoveredIs(edges: seq<EdgeSpec>, id: Id)
    ensures HasDeclaredCover(EdgesAt(edges, id, ToOf()), id) <==> Covered(edges, id)
  {
    var into := EdgesAt(edges, id, ToOf());
    forall e ensures e in into <==> e in edges && e.to == id { EdgesAtMember(edges, id, ToOf(), e); }
    hide EdgesAt;
    assert forall i :: 0 <= i < |into| ==> into[i] in into;
    assert forall i :: 0 <= i < |edges| && edges[i].to == id ==> edges[i] in into;
  }

  /** What the lookups of a graph answer, said of its specification. */
  lemma LookupsAre(g: CompiledGraph, id: Id, matches: Predicate -> bool)
    requires Indexes(g)
    ensures g.Node(id).Some? && g.Node(id).value.terminal <==> Terminal(g.spec.nodes, id)
    ensures g.EdgesFrom(id) == EdgesAt(g.spec.typedEdges, id, FromOf()) && g.EdgesTo(id) == EdgesAt(g.spec.typedEdges, id, ToOf())
    ensures id in g.abandoned <==> Abandoned(g.spec.abandonedBranches, id)
  {
    hide EdgesAt, LastNode, LastPolicy;
    NodeIndexed(g, id);
    TerminalIs(g.spec.nodes, id);
    var ids := AbandonedIds(g.spec.abandonedBranches);
    assert id in ids <==> exists i :: 0 <= i < |ids| && ids[i] == id;
  }

  // ---- event A ----------------------------------------------------------------------------------------------------------------

  /** The rule is the first whose condition holds of the lookups. */
  lemma RuleFound(g: CompiledGraph, id: Id, state: NodeState, o: Outcome, matches: Predicate -> bool)
    ensures var out, rule := g.EdgesFrom(id), DecideOutcome(g, id, state, o, matches).rule;
      var terminal := g.Node(id).Some? && g.Node(id).value.terminal;
      var routed, repaired, fallen :=
        MatchingOutgoing(out, Route, matches).Some?, MatchingOutgoing(out, Repair, matches).Some?, MatchingOutgoing(out, Fallback, matches).Some?;
      && (rule == A1 <==> terminal) && (rule == A2 <==> !terminal && routed) && (rule == A3 <==> !terminal && !routed && repaired)
      && (rule == A4 <==> !terminal && !routed && !repaired && fallen)
      && (rule == A5 <==> !terminal && !routed && !repaired && !fallen && HasRoutingOutgoing(out))
      && (rule == A6 <==> !terminal && !routed && !repaired && !fallen && !HasRoutingOutgoing(out) && HasBlockingConsumer(out))
      && (rule == INV <==> !terminal && !routed && !repaired && !fallen && !HasRoutingOutgoing(out) && !HasBlockingConsumer(out))
  {
    hide MatchingOutgoing, HasRoutingOutgoing, HasBlockingConsumer, Resolved;
    RuleOf(g, id, o);
  }

  /** And so, said of the specification, for every rule. */
  lemma RuleIff(g: CompiledGraph, id: Id, state: NodeState, o: Outcome, matches: Predicate -> bool)
    requires Indexes(g)
    ensures var edges, rule := g.spec.typedEdges, DecideOutcome(g, id, state, o, matches).rule;
      var terminal := Terminal(g.spec.nodes, id);
      var routed, repaired, fallen := SomeMatch(edges, id, Route, matches), SomeMatch(edges, id, Repair, matches), SomeMatch(edges, id, Fallback, matches);
      && (rule == A1 <==> terminal)
      && (rule == A2 <==> !terminal && routed)
      && (rule == A3 <==> !terminal && !routed && repaired)
      && (rule == A4 <==> !terminal && !routed && !repaired && fallen)
      && (rule == A5 <==> !terminal && !routed && !repaired && !fallen && LeavesRouting(edges, id))
      && (rule == A6 <==> !terminal && !LeavesRouting(edges, id) && LeavesBlocking(edges, id))
      && (rule == INV <==> !terminal && !LeavesRouting(edges, id) && !LeavesBlocking(edges, id))
  {
    var edges := g.spec.typedEdges;
    LookupsAre(g, id, matches);
    RuleFound(g, id, state, o, matches);
    MatchingIs(edges, id, Route, matches);
    MatchingIs(edges, id, Repair, matches);
    MatchingIs(edges, id, Fallback, matches);
    RoutingIs(edges, id);
    SomeRoutes(edges, id, matches);
    hide Indexes, EdgesAt, MatchingOutgoing, HasRoutingOutgoing, HasBlockingConsumer, LeavesRouting, LeavesBlocking, SomeMatch, Terminal, FirstMatch,
      DecideOutcome;
  }

  lemma SomeRoutes(edges: seq<EdgeSpec>, id: Id, matches: Predicate -> bool)
    ensures SomeMatch(edges, id, Route, matches) || SomeMatch(edges, id, Repair, matches) || SomeMatch(edges, id, Fallback, matches)
      ==> LeavesRouting(edges, id)
  {}

  /** What the outcome makes of the node where the outcome decides: succeeded only when it is ok and completed. */
  predicate ByOutcome(o: Outcome, d: Decision) {
    && (d.nodeState == Succeeded <==> o.ok && o.decision == Completed)
    && (d.nodeState == Failed <==> !o.ok || o.decision == NeedsRepair || o.decision == TaskFailed)
    && (d.nodeState == Waiting <==> o.ok && o.decision == NeedsHuman)
    && (d.nodeState == Unknown <==> o.ok && o.decision == TaskUnknown)
    && d.reason == if o.ok then None else Some(o.reason)
  }

  lemma ResolvedBy(rule: Rule, o: Outcome, actions: seq<Action>)
    ensures ByOutcome(o, Resolved(rule, o, actions)) && Resolved(rule, o, actions).actions == actions && Resolved(rule, o, actions).gap.None?
  {}

  /** A terminal node, and one whose consumers wait for it, becomes what the outcome says and enables nothing. */
  lemma PlainAnswer(g: CompiledGraph, id: Id, state: NodeState, o: Outcome, matches: Predicate -> bool)
    ensures var d := DecideOutcome(g, id, state, o, matches);
      && (d.rule == A1 || d.rule == A6 ==> ByOutcome(o, d) && d.actions == [] && d.gap.None?)
      && (d.rule == A5 ==> d == Decision(A5, Failed, Some("no-matching-route"), [], None))
      && (d.rule == INV ==> d == Decision(INV, state, None, [], None))
  {
    hide MatchingOutgoing, HasRoutingOutgoing, HasBlockingConsumer, Resolved;
    ResolvedBy(A1, o, []);
    ResolvedBy(A6, o, []);
    RuleOf(g, id, o);
  }

  lemma RuleOf(g: CompiledGraph, id: Id, o: Outcome)
    ensures forall rule, actions :: Resolved(rule, o, actions).rule == rule
  {}

  /** A matching edge decides: the first route enables its target, the first repair starts a new attempt there, the first fallback stands in. */
  lemma MatchAnswer(g: CompiledGraph, id: Id, state: NodeState, o: Outcome, matches: Predicate -> bool, i: nat)
    requires Indexes(g) && i < |g.spec.typedEdges|
    ensures var d, edges := DecideOutcome(g, id, state, o, matches), g.spec.typedEdges;
      && (d.rule == A2 && FirstMatch(edges, id, Route, matches, i) ==> ByOutcome(o, d) && d.actions == [Enable(edges[i].to)] && d.gap.None?)
      && (d.rule == A3 && FirstMatch(edges, id, Repair, matches, i) ==>
            d == Decision(A3, Failed, Some(o.reason), [NewAttempt(edges[i].to, o.reason), Enable(edges[i].to)], None))
      && (d.rule == A4 && FirstMatch(edges, id, Fallback, matches, i) ==> d == Decision(A4, Failed, Some(o.reason), [Enable(edges[i].to)], None))
  {
    var edges := g.spec.typedEdges;
    LookupsAre(g, id, matches);
    MatchingIs(edges, id, Route, matches);
    MatchingIs(edges, id, Repair, matches);
    MatchingIs(edges, id, Fallback, matches);
    ResolvedBy(A2, o, [Enable(edges[i].to)]);
    RuleOf(g, id, o);
    hide Indexes, EdgesAt, MatchingOutgoing, HasRoutingOutgoing, HasBlockingConsumer, SomeMatch, Terminal, FirstMatch, Resolved, ByOutcome;
  }

  /** Some matching edge is the first. */
  lemma FirstExists(edges: seq<EdgeSpec>, id: Id, kind: EdgeType, matches: Predicate -> bool, k: nat) returns (i: nat)
    requires Matches(edges, id, kind, matches, k)
    ensures i <= k && FirstMatch(edges, id, kind, matches, i)
  {
    i := 0;
    while !Matches(edges, id, kind, matches, i)
      invariant i <= k && forall j :: 0 <= j < i ==> !Matches(edges, id, kind, matches, j)
      decreases k - i
    { i := i + 1; }
  }

  // ---- event B ----------------------------------------------------------------------------------------------------------------

  /** A lost upstream: covered by a repair or fallback it is waited for, abandoned without cover it is given up, else waited for. */
  lemma UpstreamIff(g: CompiledGraph, id: Id, at: int)
    requires Indexes(g)
    ensures DecideUpstream(g, id, at) ==
      if Covered(g.spec.typedEdges, id) then Decision(B1, Waiting, None, [], Some(Gap(UpstreamTerminal, id, at)))
      else if Abandoned(g.spec.abandonedBranches, id) then Decision(B2, Failed, Some("upstream-abandoned"), [], None)
      else Decision(B3, Waiting, None, [], Some(Gap(UpstreamTerminal, id, at)))
  {
    LookupsAre(g, id, _ => true);
    CoveredIs(g.spec.typedEdges, id);
    hide Indexes, EdgesAt, HasDeclaredCover, Covered, Abandoned;
  }

  /** How many of the first `i` branches have not succeeded. */
  function Missing(branches: map<Id, BranchFacts>, required: seq<Id>, i: nat): nat
    requires i <= |required|
  {
    if i == 0 then 0 else Missing(branches, required, i - 1) + if StateOf(branches, required[i - 1]) == Some(Succeeded) then 0 else 1
  }

  lemma {:induction false} RulesCount(g: CompiledGraph, branches: map<Id, BranchFacts>, required: seq<Id>, at: int)
    ensures |RulesOf(g, branches, required, at)| == Missing(branches, required, |required|)
  {
    hide StateOf, DecideUpstream;
    if |required| > 0 {
      var k := |required| - 1;
      RulesCount(g, branches, required[..k], at);
      MissingSame(branches, required[..k], required[k], k);
      assert required[..k] + [required[k]] == required;
    }
  }

  /** A join lists one rule for each branch that has not succeeded, in their order. */
  lemma {:induction false} JoinRules(g: CompiledGraph, branches: map<Id, BranchFacts>, required: seq<Id>, at: int, i: nat)
    requires Indexes(g) && i < |required|
    ensures |RulesOf(g, branches, required, at)| == Missing(branches, required, |required|)
    ensures StateOf(branches, required[i]) != Some(Succeeded) ==>
      var n := Missing(branches, required, i);
      && n < |RulesOf(g, branches, required, at)|
      && RulesOf(g, branches, required, at)[n] ==
           if Covered(g.spec.typedEdges, required[i]) then B1 else if Abandoned(g.spec.abandonedBranches, required[i]) then B2 else B3
    decreases |required|
  {
    var k := |required| - 1;
    hide Indexes, StateOf, DecideUpstream, Covered, Abandoned, Missing;
    RulesCount(g, branches, required, at);
    assert required[..k] + [required[k]] == required;
    MissingSame(branches, required[..k], required[k], i);
    if i < k {
      JoinRules(g, branches, required[..k], at, i);
    } else {
      RulesCount(g, branches, required[..k], at);
      UpstreamIff(g, required[k], at);
    }
  }

  lemma {:induction false} MissingSame(branches: map<Id, BranchFacts>, init: seq<Id>, last: Id, i: nat)
    requires i <= |init|
    ensures Missing(branches, init + [last], i) == Missing(branches, init, i)
  {
    if i > 0 { MissingSame(branches, init, last, i - 1); }
  }

  /** What a join reports of a branch: its state and evidence as given, and for one that has not succeeded the reason. */
  lemma ReportSays(g: CompiledGraph, branches: map<Id, BranchFacts>, id: Id, at: int)
    requires Indexes(g)
    ensures var b := Report(g, branches, id, at);
      && b.nodeId == id && b.state == (if id in branches then branches[id].state else None) && b.evidence == (if id in branches then branches[id].evidence else "")
      && (b.state == Some(Succeeded) ==> b.gapReason.None?)
      && (b.state != Some(Succeeded) && id in branches && branches[id].gapReason.Some? ==> b.gapReason == branches[id].gapReason)
      && (b.state != Some(Succeeded) && (id !in branches || branches[id].gapReason.None?) ==>
            b.gapReason == Some(if Abandoned(g.spec.abandonedBranches, id) && !Covered(g.spec.typedEdges, id) then "upstream-abandoned" else "upstream-terminal"))
  {
    UpstreamIff(g, id, at);
    hide Indexes, DecideUpstream, Covered, Abandoned;
  }

  /** A required branch that has not succeeded, was abandoned, and has no repair or fallback leading to it. */
  predicate Lost(spec: GraphSpec, branches: map<Id, BranchFacts>, id: Id) {
    StateOf(branches, id) != Some(Succeeded) && Abandoned(spec.abandonedBranches, id) && !Covered(spec.typedEdges, id)
  }

  /** Whether a join may start: never once a branch is lost, at once when all have succeeded, and till then it waits. */
  lemma JoinAnswer(g: CompiledGraph, id: Id, facts: NodeFacts)
    requires Indexes(g) && g.Node(id).Some? && g.Node(id).value.kind == JoinKind
    ensures var r, required := ReadinessOf(g, id, facts), g.Node(id).value.requiredBranches;
      if exists i :: 0 <= i < |required| && Lost(g.spec, facts.branches, required[i]) then r == NotReady("upstream-abandoned", B2)
      else if forall i :: 0 <= i < |required| ==> StateOf(facts.branches, required[i]) == Some(Succeeded) then r == Ready
      else r == Blocked(Gap(JoinIncompleteGap, id, facts.seqNo))
  {
    var required := g.Node(id).value.requiredBranches;
    forall i | 0 <= i < |required|
      ensures Lost(g.spec, facts.branches, required[i]) <==>
        !Done(facts.branches, required[i]) && required[i] in g.abandoned && !HasDeclaredCover(g.EdgesTo(required[i]), required[i])
    {
      LookupsAre(g, required[i], _ => true);
      CoveredIs(g.spec.typedEdges, required[i]);
    }
    hide Indexes, Covered, Abandoned, HasDeclaredCover, Lost;
  }

  // ---- the shapes and counts the checks go by -----------------------------------------------------------------------------

  /** The predicate at the end of a path of child positions. */
  function PartAt(p: Predicate, path: seq<nat>): Option<Predicate>
    decreases |path|
  {
    if |path| == 0 then Some(p) else if path[0] < |p.children| then PartAt(p.children[path[0]], path[1..]) else None
  }

  /** One node of a predicate as its operator asks: comparisons name a path and have no children, connectives have children only. */
  predicate NodeShape(p: Predicate) {
    && (p.op == OpEq || p.op == OpNeq ==> p.path.Some? && p.children == [])
    && (p.op != OpEq && p.op != OpNeq ==> p.path.None? && p.value.None?)
    && (p.op == OpAll || p.op == OpAny ==> p.children != []) && (p.op == OpNot ==> |p.children| == 1) && (p.op == OpTrue ==> p.children == [])
  }

  lemma {:induction false} PartsShaped(p: Predicate, path: seq<nat>)
    requires ValidPredicate(p) && PartAt(p, path).Some?
    ensures NodeShape(PartAt(p, path).value)
    decreases |path|
  {
    if |path| > 0 {
      assert p.children[path[0]] in p.children;
      PartsShaped(p.children[path[0]], path[1..]);
    }
  }

  ghost predicate AllShaped(p: Predicate) { forall path :: PartAt(p, path).Some? ==> NodeShape(PartAt(p, path).value) }

  lemma ChildShaped(p: Predicate, i: nat)
    requires AllShaped(p) && i < |p.children|
    ensures AllShaped(p.children[i])
  {
    hide NodeShape;
    forall path | PartAt(p.children[i], path).Some? ensures NodeShape(PartAt(p.children[i], path).value) {
      assert ([i] + path)[1..] == path && PartAt(p, [i] + path) == PartAt(p.children[i], path);
    }
  }

  lemma {:induction false} ShapedIsValid(p: Predicate)
    requires AllShaped(p)
    ensures ValidPredicate(p)
    decreases p
  {
    assert PartAt(p, []) == Some(p) && NodeShape(p);
    forall q | q in p.children ensures ValidPredicate(q) {
      var i :| 0 <= i < |p.children| && p.children[i] == q;
      ChildShaped(p, i);
      ShapedIsValid(p.children[i]);
    }
    hide AllShaped;
  }

  /** A predicate is valid exactly when every part of it, however deep, has its operator's shape. */
  lemma ValidIff(p: Predicate)
    ensures ValidPredicate(p) <==> AllShaped(p)
  {
    hide ValidPredicate, NodeShape;
    if ValidPredicate(p) {
      forall path: seq<nat> | PartAt(p, path).Some? ensures NodeShape(PartAt(p, path).value) { PartsShaped(p, path); }
      assert AllShaped(p);
    }
    if AllShaped(p) { ShapedIsValid(p); }
  }

  predicate NoOutput(outputs: seq<SchemaRef>, wanted: SchemaRef) { forall i :: 0 <= i < |outputs| ==> outputs[i] != wanted }

  lemma {:induction false} CountedNone(outputs: seq<SchemaRef>, wanted: SchemaRef)
    ensures GraphChecks.Matches(outputs, wanted) == 0 <==> NoOutput(outputs, wanted)
  {
    if |outputs| > 0 {
      CountedNone(outputs[1..], wanted);
      assert forall i :: 1 <= i < |outputs| ==> outputs[i] == outputs[1..][i - 1];
      assert forall i :: 0 <= i < |outputs[1..]| ==> outputs[1..][i] == outputs[i + 1];
    }
  }

  predicate OnlyAt(outputs: seq<SchemaRef>, wanted: SchemaRef, i: nat)
    requires i < |outputs|
  {
    outputs[i] == wanted && forall j :: 0 <= j < |outputs| && j != i ==> outputs[j] != wanted
  }

  lemma OnlyLater(outputs: seq<SchemaRef>, wanted: SchemaRef, i: nat)
    requires 0 < i < |outputs| && outputs[0] != wanted
    ensures OnlyAt(outputs, wanted, i) <==> OnlyAt(outputs[1..], wanted, i - 1)
  {
    var rest := outputs[1..];
    assert forall j :: 1 <= j < |outputs| ==> outputs[j] == rest[j - 1];
    assert forall j :: 0 <= j < |rest| ==> rest[j] == outputs[j + 1];
  }

  lemma OnlyFirst(outputs: seq<SchemaRef>, wanted: SchemaRef)
    requires |outputs| > 0
    ensures OnlyAt(outputs, wanted, 0) <==> outputs[0] == wanted && NoOutput(outputs[1..], wanted)
  {
    var rest := outputs[1..];
    assert forall j :: 1 <= j < |outputs| ==> outputs[j] == rest[j - 1];
    assert forall j :: 0 <= j < |rest| ==> rest[j] == outputs[j + 1];
  }

  /** A future artifact's schema is matched once exactly when one declared output, and no other, is of it. */
  lemma {:induction false} CountedOnce(outputs: seq<SchemaRef>, wanted: SchemaRef)
    ensures GraphChecks.Matches(outputs, wanted) == 1 <==> exists i :: 0 <= i < |outputs| && OnlyAt(outputs, wanted, i)
  {
    if |outputs| > 0 {
      CountedOnce(outputs[1..], wanted);
      CountedNone(outputs[1..], wanted);
      OnlyFirst(outputs, wanted);
      if outputs[0] != wanted {
        forall i | 0 < i < |outputs| ensures OnlyAt(outputs, wanted, i) <==> OnlyAt(outputs[1..], wanted, i - 1) { OnlyLater(outputs, wanted, i); }
        if i :| 0 <= i < |outputs[1..]| && OnlyAt(outputs[1..], wanted, i) { assert OnlyAt(outputs, wanted, i + 1); }
      } else {
        forall i | 0 < i < |outputs| ensures !OnlyAt(outputs, wanted, i) {}
      }
      hide OnlyAt, NoOutput;
    }
  }

  /** The policy a resource is held under is the last one declared for it. */
  lemma {:induction false} PolicyIs(policy: seq<ResourcePolicy>, id: Id)
    ensures LastPolicy(policy, id).None? <==> forall i :: 0 <= i < |policy| ==> policy[i].resourceId != id
    ensures forall i :: 0 <= i < |policy| && policy[i].resourceId == id && (forall j :: i < j < |policy| ==> policy[j].resourceId != id) ==>
      LastPolicy(policy, id) == Some(policy[i])
  {
    if |policy| > 0 {
      var init := policy[..|policy| - 1];
      PolicyIs(init, id);
      assert forall i :: 0 <= i < |init| ==> init[i] == policy[i];
    }
  }
}
