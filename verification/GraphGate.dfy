/** Abandonment (11), patch authority (6), and the gate that runs all checks in order. */
module GraphGate {
  import opened GraphTypes
  import opened GraphChecks
  import opened GraphCycles

  /** The outside facts of one validation; a plain compile leaves all but the contract branches empty. */
  datatype Context = Context(contractBranches: seq<Id>, evidenceNodeIds: seq<Id>, removedNodeIds: seq<Id>,
                             priorAbandonedNodeIds: seq<Id>, contractAuthorityRefs: seq<Id>)

  // ---- check 11 ----------------------------------------------------------------------------------

  /** No branch is abandoned twice, none of the earlier abandonments is dropped, no evidence is removed. */
  ghost predicate EvidenceKept(spec: GraphSpec, context: Context) {
    var ids := AbandonedIds(spec.abandonedBranches);
    && (forall i, j :: 0 <= i < j < |ids| ==> ids[i] != ids[j])
    && (forall i :: 0 <= i < |context.priorAbandonedNodeIds| ==> context.priorAbandonedNodeIds[i] in ids)
    && (forall i :: 0 <= i < |context.removedNodeIds| ==> Removable(context, context.removedNodeIds[i]))
  }

  predicate Removable(context: Context, id: Id) {
    id !in context.evidenceNodeIds && id !in context.priorAbandonedNodeIds
  }

  /** Abandoning a contract branch names a contract-level authority. */
  predicate Authorized(context: Context, a: AbandonedBranch) {
    a.nodeId in context.contractBranches ==> a.authorityRef in context.contractAuthorityRefs
  }

  ghost predicate AbandonersAuthorized(spec: GraphSpec, context: Context) {
    forall i :: 0 <= i < |spec.abandonedBranches| ==> Authorized(context, spec.abandonedBranches[i])
  }

  predicate OfCheck11(issues: seq<Issue>) {
    forall k :: 0 <= k < |issues| ==> issues[k] in {Issue(11, EvidenceRemoval), Issue(11, AuthorityEscalation)}
  }

  lemma CodeInAppend(issues: seq<Issue>, x: Issue, code: Code)
    ensures CodeIn(issues + [x], code) <==> CodeIn(issues, code) || x.code == code
  {
    if CodeIn(issues, code) {
      var k :| 0 <= k < |issues| && issues[k].code == code;
      assert (issues + [x])[k] == issues[k];
    }
    if x.code == code { assert (issues + [x])[|issues|].code == code; }
  }

  method CheckAbandonment(spec: GraphSpec, context: Context) returns (issues: seq<Issue>)
    ensures OfCheck11(issues)
    ensures CodeIn(issues, EvidenceRemoval) <==> !EvidenceKept(spec, context)
    ensures CodeIn(issues, AuthorityEscalation) <==> !AbandonersAuthorized(spec, context)
  {
    hide Authorized, Removable;
    var ids := AbandonedIds(spec.abandonedBranches);
    var removal, escalation := Issue(11, EvidenceRemoval), Issue(11, AuthorityEscalation);
    var seen: set<Id> := {};
    issues := [];
    for i := 0 to |spec.abandonedBranches|
      invariant forall id :: id in seen <==> exists k :: 0 <= k < i && ids[k] == id
      invariant OfCheck11(issues)
      invariant CodeIn(issues, EvidenceRemoval) <==> !forall k, j :: 0 <= k < j < i ==> ids[k] != ids[j]
      invariant CodeIn(issues, AuthorityEscalation) <==> !forall k :: 0 <= k < i ==> Authorized(context, spec.abandonedBranches[k])
    {
      hide CodeIn;
      var abandoned := spec.abandonedBranches[i];
      if abandoned.nodeId in seen {
        CodesAppend(issues, removal);
        issues := issues + [removal];
      }
      seen := seen + {abandoned.nodeId};
      if !Authorized(context, abandoned) {
        CodesAppend(issues, escalation);
        issues := issues + [escalation];
      }
    }
    hide CodeIn;
    assert forall id :: id in seen <==> id in ids;
    var removals := CheckRemovals(context, ids, seen);
    CodesAppendTagged(issues, removals, removal);
    issues := issues + removals;
  }

  /** The two loops over what was abandoned before and what the patch removes. */
  method CheckRemovals(context: Context, ids: seq<Id>, seen: set<Id>) returns (issues: seq<Issue>)
    requires forall id :: id in seen <==> id in ids
    ensures Tagged(issues, 11, EvidenceRemoval)
    ensures |issues| == 0 <==>
            && (forall i :: 0 <= i < |context.priorAbandonedNodeIds| ==> context.priorAbandonedNodeIds[i] in ids)
            && (forall i :: 0 <= i < |context.removedNodeIds| ==> Removable(context, context.removedNodeIds[i]))
  {
    hide Removable;
    issues := [];
    for i := 0 to |context.priorAbandonedNodeIds|
      invariant Tagged(issues, 11, EvidenceRemoval)
      invariant |issues| == 0 <==> forall k :: 0 <= k < i ==> context.priorAbandonedNodeIds[k] in ids
    {
      if context.priorAbandonedNodeIds[i] !in seen { issues := issues + [Issue(11, EvidenceRemoval)]; }
    }
    ghost var dropped := |issues| != 0;
    for i := 0 to |context.removedNodeIds|
      invariant Tagged(issues, 11, EvidenceRemoval)
      invariant |issues| == 0 <==> !dropped && forall k :: 0 <= k < i ==> Removable(context, context.removedNodeIds[k])
    {
      if context.removedNodeIds[i] in context.evidenceNodeIds { issues := issues + [Issue(11, EvidenceRemoval)]; }
      if context.removedNodeIds[i] in context.priorAbandonedNodeIds { issues := issues + [Issue(11, EvidenceRemoval)]; }
      assert Removable(context, context.removedNodeIds[i]) <==>
             context.removedNodeIds[i] !in context.evidenceNodeIds && context.removedNodeIds[i] !in context.priorAbandonedNodeIds
        by { RemovableIff(context, context.removedNodeIds[i]); }
    }
  }

  lemma RemovableIff(context: Context, id: Id)
    ensures Removable(context, id) <==> id !in context.evidenceNodeIds && id !in context.priorAbandonedNodeIds
  {}

  lemma CodesAppendTagged(issues: seq<Issue>, part: seq<Issue>, x: Issue)
    requires forall k :: 0 <= k < |part| ==> part[k] == x
    ensures forall code :: CodeIn(issues + part, code) <==> CodeIn(issues, code) || (|part| > 0 && x.code == code)
  {
    forall code ensures CodeIn(issues + part, code) <==> CodeIn(issues, code) || (|part| > 0 && x.code == code) {
      if k :| 0 <= k < |issues| && issues[k].code == code { assert (issues + part)[k] == issues[k]; }
      if |part| > 0 { assert (issues + part)[|issues|] == x; }
    }
  }

  lemma CodesAppend(issues: seq<Issue>, x: Issue)
    ensures forall code :: CodeIn(issues + [x], code) <==> CodeIn(issues, code) || x.code == code
  {
    forall code ensures CodeIn(issues + [x], code) <==> CodeIn(issues, code) || x.code == code { CodeInAppend(issues, x, code); }
  }

  // ---- the gate ----------------------------------------------------------------------------------

  /** The rule behind each check number; 1 (version) and 6 (authority) belong to the transactions. */
  ghost predicate CheckHolds(spec: GraphSpec, context: Context, check: int) {
    match check
    case 2 => ReferencesOk(spec) && ShapesOk(spec)
    case 3 => Acyclic(spec)
    case 4 => DataOk(spec)
    case 5 => FanInOk(spec) && AllDeclared(spec.nodes, context.contractBranches)
    case 7 => ResourcesOk(spec)
    case 8 => BoundsOk(spec)
    case 9 => Terminates(spec)
    case 10 => TerminalOk(spec)
    case 11 => EvidenceKept(spec, context) && AbandonersAuthorized(spec, context)
    case _ => true
  }

  ghost predicate Accepted(spec: GraphSpec, context: Context) {
    forall check :: 2 <= check <= 11 ==> CheckHolds(spec, context, check)
  }

  lemma AllHold(spec: GraphSpec, context: Context)
    requires ReferencesOk(spec) && ShapesOk(spec) && Acyclic(spec) && DataOk(spec) && FanInOk(spec) && ResourcesOk(spec)
    requires BoundsOk(spec) && Terminates(spec) && TerminalOk(spec)
    requires AllDeclared(spec.nodes, context.contractBranches)
    requires EvidenceKept(spec, context) && AbandonersAuthorized(spec, context)
    ensures Accepted(spec, context)
  {
    hide ReferencesOk, ShapesOk, Acyclic, DataOk, FanInOk, AllDeclared, ResourcesOk, BoundsOk, Terminates, TerminalOk,
      EvidenceKept, AbandonersAuthorized;
  }

  predicate Sorted(issues: seq<Issue>) {
    forall i, j :: 0 <= i < j < |issues| ==> issues[i].check <= issues[j].check
  }

  function OfCheck(issues: seq<Issue>, check: int): seq<Issue> {
    if |issues| == 0 then []
    else OfCheck(issues[..|issues| - 1], check) + if issues[|issues| - 1].check == check then [issues[|issues| - 1]] else []
  }

  /** Where a stable sort puts the next issue: behind every issue of the same or a lower check. */
  function Place(sorted: seq<Issue>, x: Issue): seq<Issue> {
    if |sorted| == 0 || sorted[|sorted| - 1].check <= x.check then sorted + [x]
    else Place(sorted[..|sorted| - 1], x) + [sorted[|sorted| - 1]]
  }

  function SortByCheck(issues: seq<Issue>): seq<Issue> {
    if |issues| == 0 then [] else Place(SortByCheck(issues[..|issues| - 1]), issues[|issues| - 1])
  }

  lemma {:induction false} PlaceOk(sorted: seq<Issue>, x: Issue)
    requires Sorted(sorted)
    ensures Sorted(Place(sorted, x)) && |Place(sorted, x)| == |sorted| + 1
    ensures forall y :: y in Place(sorted, x) <==> y in sorted || y == x
  {
    if |sorted| > 0 && sorted[|sorted| - 1].check > x.check {
      var init, last := sorted[..|sorted| - 1], sorted[|sorted| - 1];
      PlaceOk(init, x);
      var r := Place(init, x);
      assert sorted == init + [last];
      forall i | 0 <= i < |r| ensures r[i].check <= last.check { assert r[i] in r; }
    }
  }

  /** Placing an issue keeps the issues of every check in their order, the new one last. */
  lemma {:induction false} PlaceKeeps(sorted: seq<Issue>, x: Issue, check: int)
    requires Sorted(sorted)
    ensures OfCheck(Place(sorted, x), check) == OfCheck(sorted, check) + if x.check == check then [x] else []
  {
    if |sorted| == 0 || sorted[|sorted| - 1].check <= x.check {
      assert (sorted + [x])[..|sorted|] == sorted;
    } else {
      var init, last := sorted[..|sorted| - 1], sorted[|sorted| - 1];
      PlaceKeeps(init, x, check);
      var r := Place(init, x);
      assert (r + [last])[..|r|] == r;
      if x.check == check { assert last.check != check; }
    }
  }

  /** The issue sort is stable: in order of checks, and within a check in the order found. */
  lemma {:induction false} SortByCheckOk(issues: seq<Issue>)
    ensures Sorted(SortByCheck(issues)) && |SortByCheck(issues)| == |issues|
    ensures forall y :: y in SortByCheck(issues) <==> y in issues
    ensures forall check :: OfCheck(SortByCheck(issues), check) == OfCheck(issues, check)
  {
    if |issues| != 0 {
      var init, last := issues[..|issues| - 1], issues[|issues| - 1];
      SortByCheckOk(init);
      PlaceOk(SortByCheck(init), last);
      forall check ensures OfCheck(SortByCheck(issues), check) == OfCheck(issues, check) { PlaceKeeps(SortByCheck(init), last, check); }
      assert issues == init + [last];
    }
  }

  /** Some issue of `issues` belongs to the check. */
  predicate Reports(issues: seq<Issue>, check: int) { exists k :: 0 <= k < |issues| && issues[k].check == check }

  /** The error codes a check reports with. */
  function CodesOf(check: int): set<Code> {
    match check
    case 2 => {ReferenceInvalid, SchemaInvalid}
    case 3 => {DependencyCycle}
    case 4 => {SchemaInvalid, InputStale, BindingMismatch}
    case 5 => {JoinIncomplete}
    case 6 => {AuthorityEscalation}
    case 7 => {ResourceConflict}
    case 8 => {BoundInvalid}
    case 9 => {NonTerminating}
    case 10 => {TerminalRequired}
    case 11 => {EvidenceRemoval, AuthorityEscalation}
    case _ => {}
  }

  predicate Coded(issues: seq<Issue>) { forall i :: 0 <= i < |issues| ==> issues[i].code in CodesOf(issues[i].check) }

  lemma CodedSame(issues: seq<Issue>, sorted: seq<Issue>)
    requires Coded(issues) && forall y :: y in sorted ==> y in issues
    ensures Coded(sorted)
  {
    hide CodesOf;
    forall i | 0 <= i < |sorted| ensures sorted[i].code in CodesOf(sorted[i].check) { assert sorted[i] in issues; }
  }

  /** `check` is the first rule, in check order, that the graph breaks. */
  ghost predicate FirstBroken(spec: GraphSpec, context: Context, check: int) {
    2 <= check <= 11 && !CheckHolds(spec, context, check) && forall k :: 2 <= k < check ==> CheckHolds(spec, context, k)
  }

  lemma ReportsAppend(issues: seq<Issue>, part: seq<Issue>, check: int)
    requires forall k :: 0 <= k < |part| ==> part[k].check == check
    ensures forall c :: Reports(issues + part, c) <==> Reports(issues, c) || (c == check && |part| > 0)
  {
    forall c ensures Reports(issues + part, c) <==> Reports(issues, c) || (c == check && |part| > 0) {
      if k :| 0 <= k < |issues| && issues[k].check == c { assert (issues + part)[k] == issues[k]; }
      if |part| > 0 { assert (issues + part)[|issues|] == part[0]; }
    }
  }

  lemma AbandonmentIssues(issues: seq<Issue>)
    requires OfCheck11(issues)
    ensures |issues| > 0 <==> CodeIn(issues, EvidenceRemoval) || CodeIn(issues, AuthorityEscalation)
  {
    if |issues| > 0 { assert issues[0] in {Issue(11, EvidenceRemoval), Issue(11, AuthorityEscalation)}; }
  }

  method CollectIssues(spec: GraphSpec, context: Context) returns (issues: seq<Issue>)
    ensures forall k :: 0 <= k < |issues| ==> 2 <= issues[k].check <= 11
    ensures forall check :: 2 <= check <= 11 && (check in {3, 9} ==> EndpointsDeclared(spec)) ==>
              (Reports(issues, check) <==> !CheckHolds(spec, context, check))
    ensures Coded(issues)
  {
    hide ReferencesOk, ShapesOk, Acyclic, DataOk, FanInOk, AllDeclared, ResourcesOk, BoundsOk, Terminates, TerminalOk,
      EvidenceKept, AbandonersAuthorized, EndpointsDeclared, Reports, CodeIn;
    var part := CheckReferences(spec);
    ReferenceIssues(part);
    NothingReported();
    ReportsAppend([], part, 2);
    issues := [] + part;
    part := CheckDependencyAcyclic(spec);
    ReportsAppend(issues, part, 3);
    issues := issues + part;
    part := CheckDataConsumable(spec);
    ReportsAppend(issues, part, 4);
    issues := issues + part;
    part := CheckFanIn(spec, context.contractBranches);
    ReportsAppend(issues, part, 5);
    issues := issues + part;
    part := CheckResources(spec);
    ReportsAppend(issues, part, 7);
    issues := issues + part;
    part := CheckBounds(spec);
    ReportsAppend(issues, part, 8);
    issues := issues + part;
    part := CheckTermination(spec);
    ReportsAppend(issues, part, 9);
    issues := issues + part;
    part := CheckTerminalRequired(spec);
    ReportsAppend(issues, part, 10);
    issues := issues + part;
    part := CheckAbandonment(spec, context);
    AbandonmentIssues(part);
    ReportsAppend(issues, part, 11);
    issues := issues + part;
    forall check | 2 <= check <= 11 && (check in {3, 9} ==> EndpointsDeclared(spec))
      ensures Reports(issues, check) <==> !CheckHolds(spec, context, check)
    {
      assert check in {2, 3, 4, 5, 6, 7, 8, 9, 10, 11};
    }
  }

  lemma ReferenceIssues(issues: seq<Issue>)
    requires forall k :: 0 <= k < |issues| ==> issues[k].check == 2 && issues[k].code in {ReferenceInvalid, SchemaInvalid}
    ensures |issues| > 0 <==> CodeIn(issues, ReferenceInvalid) || CodeIn(issues, SchemaInvalid)
  {
    if |issues| > 0 { assert issues[0].code in {ReferenceInvalid, SchemaInvalid}; }
  }

  lemma NothingReported()
    ensures forall c :: !Reports([], c)
  {}

  /** Runs checks 2 to 5 and 7 to 11; the first issue names the first rule the graph breaks. */
  method ValidateGraph(spec: GraphSpec, context: Context) returns (issues: seq<Issue>)
    ensures |issues| == 0 <==> Accepted(spec, context)
    ensures Sorted(issues) && Coded(issues)
    ensures |issues| > 0 ==> FirstBroken(spec, context, issues[0].check)
  {
    hide CheckHolds, Coded, CodesOf;
    var collected := CollectIssues(spec, context);
    SortByCheckOk(collected);
    issues := SortByCheck(collected);
    CodedSame(collected, issues);
    FirstIssue(spec, context, collected, issues);
  }

  /** The code of a refusal belongs to the first rule the graph breaks. */
  ghost predicate Explains(spec: GraphSpec, context: Context, code: Code) {
    exists check :: FirstBroken(spec, context, check) && code in CodesOf(check)
  }

  lemma FirstIssue(spec: GraphSpec, context: Context, collected: seq<Issue>, issues: seq<Issue>)
    requires Sorted(issues) && |issues| == |collected| && forall y :: y in issues <==> y in collected
    requires forall k :: 0 <= k < |collected| ==> 2 <= collected[k].check <= 11
    requires forall check :: 2 <= check <= 11 && (check in {3, 9} ==> EndpointsDeclared(spec)) ==>
              (Reports(collected, check) <==> !CheckHolds(spec, context, check))
    ensures |issues| == 0 <==> Accepted(spec, context)
    ensures |issues| > 0 ==> FirstBroken(spec, context, issues[0].check)
  {
    hide CheckHolds;
    assert CheckHolds(spec, context, 2) ==> EndpointsDeclared(spec) by { HoldsTwo(spec, context); }
    if |issues| > 0 {
      assert issues[0] in collected;
      var first := issues[0].check;
      assert Reports(collected, first);
      assert forall y :: y in issues ==> first <= y.check;
      assert forall j :: 0 <= j < |collected| ==> collected[j] in issues;
      assert !CheckHolds(spec, context, first);
    }
  }

  lemma HoldsTwo(spec: GraphSpec, context: Context)
    ensures CheckHolds(spec, context, 2) ==> EndpointsDeclared(spec)
  {}
}
