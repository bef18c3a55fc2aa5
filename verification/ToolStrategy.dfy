/** The tool-strategy controller: an identical retry of a failed call is blocked once, and tools come back in one order. */
module ToolStrategy {
  import opened Options

  type Name = string
  type Signature = string

  /** MAX_TRACKED_FAILURES. */
  const LIMIT: nat := 64

  datatype Phase = Proposal | Implementation

  /** What the controller remembers; the signature sets keep the order in which they were filled. */
  datatype Memory = Memory(failed: seq<Signature>, nudged: seq<Signature>, failedTools: set<Name>)

  /** A call or a result with a safe tool name; the signature is missing when the input is too long or has no text. */
  datatype Event = Call(tool: Name, signature: Option<Signature>) | Result(tool: Name, signature: Option<Signature>, isError: bool)

  // ---- the bounded sets ------------------------------------------------------------------------------------------------

  function Add(kept: seq<Signature>, s: Signature): seq<Signature> {
    if s in kept then kept
    else
      var more := kept + [s];
      if |more| > LIMIT then more[|more| - LIMIT..] else more
  }

  /** Drops the oldest until the bound holds again. */
  method BoundedSetAdd(kept: seq<Signature>, s: Signature) returns (next: seq<Signature>)
    ensures next == Add(kept, s)
  {
    if s in kept { return kept; }
    next := kept + [s];
    ghost var more := next;
    while |next| > LIMIT
      invariant |next| <= |more| && next == more[|more| - |next|..]
      invariant |next| == |more| || |next| >= LIMIT
    {
      next := next[1..];
    }
  }

  // ---- one event -------------------------------------------------------------------------------------------------------

  predicate Blocks(m: Memory, s: Signature) { s in m.failed && s !in m.nudged }

  function Observe(m: Memory, e: Event): Memory {
    match e
    case Call(tool, signature) =>
      if signature.Some? && Blocks(m, signature.value) then
        m.(nudged := Add(m.nudged, signature.value), failedTools := m.failedTools + {tool})
      else m
    case Result(tool, signature, isError) =>
      if isError then
        m.(failed := if signature.Some? then Add(m.failed, signature.value) else m.failed, failedTools := m.failedTools + {tool})
      else Memory([], [], {})
  }

  function Remembers(events: seq<Event>): Memory {
    if |events| == 0 then Memory([], [], {}) else Observe(Remembers(events[..|events| - 1]), events[|events| - 1])
  }

  // ---- what happened, whatever is remembered -------------------------------------------------------------------------

  function With(s: seq<Signature>, x: Signature): seq<Signature> { if x in s then s else s + [x] }

  /** The signatures that failed since the last success, each once. */
  function Fails(events: seq<Event>): seq<Signature> {
    if |events| == 0 then []
    else
      var before, e := Fails(events[..|events| - 1]), events[|events| - 1];
      if e.Call? then before
      else if !e.isError then []
      else if e.signature.Some? then With(before, e.signature.value)
      else before
  }

  /** Those of them that were called again afterwards. */
  function Again(events: seq<Event>): seq<Signature> {
    if |events| == 0 then []
    else
      var init, e := events[..|events| - 1], events[|events| - 1];
      if e.Call? then
        if e.signature.Some? && e.signature.value in Fails(init) then With(Again(init), e.signature.value) else Again(init)
      else if e.isError then Again(init)
      else []
  }

  predicate Distinct<T(==)>(s: seq<T>) { forall i, j :: 0 <= i < j < |s| ==> s[i] != s[j] }

  lemma {:induction false} DistinctSize(s: seq<Signature>)
    requires Distinct(s)
    ensures |set x | x in s| == |s|
  {
    if |s| > 0 {
      var init, last := s[..|s| - 1], s[|s| - 1];
      DistinctSize(init);
      assert (set x | x in s) == (set x | x in init) + {last};
    }
  }

  /** Of two lists without repetition the one contained in the other is no longer. */
  lemma NoLonger(a: seq<Signature>, b: seq<Signature>)
    requires Distinct(a) && Distinct(b) && forall x :: x in a ==> x in b
    ensures |a| <= |b|
  {
    DistinctSize(a);
    DistinctSize(b);
    SubsetSize((set x | x in a), (set x | x in b));
  }

  lemma {:induction false} SubsetSize(a: set<Signature>, b: set<Signature>)
    requires a <= b
    ensures |a| <= |b|
  {
    if a != {} {
      var x :| x in a;
      SubsetSize(a - {x}, b - {x});
    }
  }

  lemma {:induction false} FailsDistinct(events: seq<Event>)
    ensures Distinct(Fails(events)) && Distinct(Again(events)) && forall s :: s in Again(events) ==> s in Fails(events)
  { if |events| > 0 { FailsDistinct(events[..|events| - 1]); } }

  /** The tracked sets never outgrow their bound, hold no signature twice, and hold only signatures that failed since the last success. */
  lemma {:induction false} Tracked(events: seq<Event>)
    ensures var m := Remembers(events);
      && |m.failed| <= LIMIT && |m.nudged| <= LIMIT && Distinct(m.failed) && Distinct(m.nudged)
      && (forall s :: s in m.failed ==> s in Fails(events)) && (forall s :: s in m.nudged ==> s in Again(events))
  {
    hide Add;
    if |events| > 0 {
      var init, e := events[..|events| - 1], events[|events| - 1];
      Tracked(init);
      if e.signature.Some? {
        AddTracks(Remembers(init).failed, e.signature.value);
        AddTracks(Remembers(init).nudged, e.signature.value);
      }
    }
  }

  lemma AddTracks(kept: seq<Signature>, s: Signature)
    requires |kept| <= LIMIT && Distinct(kept)
    ensures var t := Add(kept, s); |t| <= LIMIT && Distinct(t) && forall x :: x in t ==> x in kept || x == s
  {}

  /** While at most 64 signatures failed since the last success, all of it is remembered. */
  lemma {:induction false} AllTracked(events: seq<Event>)
    requires |Fails(events)| <= LIMIT
    ensures Remembers(events).failed == Fails(events) && Remembers(events).nudged == Again(events)
  {
    if |events| > 0 {
      var init, e := events[..|events| - 1], events[|events| - 1];
      FailsDistinct(events);
      NoLonger(Again(events), Fails(events));
      if e.Call? || e.isError { AllTracked(init); }
    }
  }

  /** Then a call is blocked exactly when it failed since the last success and was not tried again since: once, and no more. */
  lemma BlockedOnce(events: seq<Event>, s: Signature)
    requires |Fails(events)| <= LIMIT
    ensures Blocks(Remembers(events), s) <==> s in Fails(events) && s !in Again(events)
  {
    AllTracked(events);
  }

  /** Before anything was tried again, every failed call's repeat would be blocked exactly while at most 64 are to be remembered. */
  lemma FirstRepeatIff(events: seq<Event>)
    requires Again(events) == []
    ensures (forall s :: s in Fails(events) ==> Blocks(Remembers(events), s)) <==> |Fails(events)| <= LIMIT
  {
    if |Fails(events)| <= LIMIT {
      AllTracked(events);
    } else if forall s :: s in Fails(events) ==> Blocks(Remembers(events), s) {
      Tracked(events);
      FailsDistinct(events);
      NoLonger(Fails(events), Remembers(events).failed);
    }
  }

  /** What the controller tells the agent: a failed call is blocked at its first repeat, and not again. */
  ghost predicate BlocksOnce(events: seq<Event>) {
    forall s :: Blocks(Remembers(events), s) <==> s in Fails(events) && s !in Again(events)
  }

  /** `n` calls, each with another input, each failing. */
  function Failures(n: nat): seq<Event> {
    if n == 0 then [] else Failures(n - 1) + [Result("bash", Some(seq(n - 1, _ => 'x')), true)]
  }

  lemma {:induction false} FailuresFail(n: nat)
    ensures |Fails(Failures(n))| == n && Again(Failures(n)) == [] && forall s :: s in Fails(Failures(n)) ==> |s| < n
  {
    if n > 0 {
      FailuresFail(n - 1);
      assert Failures(n)[..|Failures(n)| - 1] == Failures(n - 1);
    }
  }

  /** That holds of every history with at most `n` failing calls since the last success exactly when `n` is at most 64. */
  lemma BlockedIff(n: nat)
    ensures (forall events :: |Fails(events)| <= n ==> BlocksOnce(events)) <==> n <= LIMIT
  {
    if n <= LIMIT {
      forall events | |Fails(events)| <= n ensures BlocksOnce(events) {
        forall s { BlockedOnce(events, s); }
      }
    } else {
      var events := Failures(LIMIT + 1);
      FailuresFail(LIMIT + 1);
      FirstRepeatIff(events);
      hide Failures, Fails, Again, Remembers, Blocks;
      assert !BlocksOnce(events);
    }
  }

  /** No result since event `i` was a success. */
  predicate NoSuccessSince(events: seq<Event>, i: nat) { forall j :: i <= j < |events| && events[j].Result? ==> events[j].isError }

  /** Event `i` failed with the tool, or tried again what had failed and was blocked. */
  predicate FailedAt(events: seq<Event>, i: nat, tool: Name)
    requires i < |events|
  {
    && events[i].tool == tool
    && if events[i].Result? then events[i].isError
       else events[i].signature.Some? && Blocks(Remembers(events[..i]), events[i].signature.value)
  }

  lemma SinceInit(events: seq<Event>, i: nat)
    requires i < |events| - 1
    ensures var n := |events| - 1; NoSuccessSince(events, i) <==> NoSuccessSince(events[..n], i) && (events[n].Result? ==> events[n].isError)
  {
    var init := events[..|events| - 1];
    assert forall j :: i <= j < |init| ==> init[j] == events[j];
    if NoSuccessSince(events, i) {
      forall j | i <= j < |init| && init[j].Result? ensures init[j].isError { assert events[j].Result?; }
    }
  }

  lemma FailedInit(events: seq<Event>, i: nat, tool: Name)
    requires i < |events| - 1
    ensures FailedAt(events[..|events| - 1], i, tool) <==> FailedAt(events, i, tool)
  {
    assert events[..|events| - 1][..i] == events[..i];
    hide Blocks;
  }

  /** What the last event does to the failed tools. */
  lemma FailedLast(events: seq<Event>, tool: Name)
    requires |events| > 0
    ensures var n := |events| - 1;
      tool in Remembers(events).failedTools <==>
        FailedAt(events, n, tool) || (tool in Remembers(events[..n]).failedTools && (events[n].Result? ==> events[n].isError))
  {
    hide Blocks, Add;
  }

  /** A tool counts as failed exactly when it failed, or was blocked, since the last success. */
  lemma {:induction false} FailedToolsIff(events: seq<Event>, tool: Name)
    ensures tool in Remembers(events).failedTools <==> exists i :: 0 <= i < |events| && FailedAt(events, i, tool) && NoSuccessSince(events, i)
  {
    if |events| > 0 {
      var n := |events| - 1;
      var init := events[..n];
      FailedToolsIff(init, tool);
      FailedLast(events, tool);
      assert FailedAt(events, n, tool) ==> NoSuccessSince(events, n) by { hide Blocks, Remembers; }
      hide Remembers, FailedAt, NoSuccessSince;
      forall i | 0 <= i < n
        ensures FailedAt(init, i, tool) <==> FailedAt(events, i, tool)
        ensures NoSuccessSince(events, i) <==> NoSuccessSince(init, i) && (events[n].Result? ==> events[n].isError)
      {
        FailedInit(events, i, tool);
        SinceInit(events, i);
      }
      if i :| 0 <= i < n && FailedAt(init, i, tool) && NoSuccessSince(init, i) { assert FailedAt(events, i, tool); }
    }
  }

  /** However much failed before: what has just failed is blocked when it is tried again, unless it was blocked before, and then let through. */
  lemma RetryBlocked(events: seq<Event>, tool: Name, s: Signature)
    ensures var failed := events + [Result(tool, Some(s), true)];
      && (Blocks(Remembers(failed), s) <==> s !in Remembers(events).nudged)
      && !Blocks(Remembers(failed + [Call(tool, Some(s))]), s)
  {
    var failed := events + [Result(tool, Some(s), true)];
    assert failed[..|events|] == events;
    assert (failed + [Call(tool, Some(s))])[..|failed|] == failed;
    Tracked(events);
    AddKeepsNewest(Remembers(events).failed, s);
    AddKeepsNewest(Remembers(events).nudged, s);
  }

  /** A new member is kept; with 64 kept already it is the oldest that goes. */
  lemma AddKeepsNewest(kept: seq<Signature>, s: Signature)
    requires |kept| <= LIMIT
    ensures s in Add(kept, s)
    ensures s !in kept ==> Add(kept, s) == (if |kept| < LIMIT then kept else kept[1..]) + [s]
  {
    var more := kept + [s];
    assert more[|kept|] == s;
    if s !in kept && |more| > LIMIT { assert more[|more| - LIMIT..] == kept[1..] + [s]; }
  }

  // ---- the order of tools ----------------------------------------------------------------------------------------------

  /** PHASE_ORDER. */
  function Preferred(phase: Phase): seq<Name> {
    if phase.Proposal? then ["read", "grep", "find", "ls"]
    else ["read", "grep", "find", "ls", "edit", "write", "bash", "powershell"]
  }

  predicate Allowed(phase: Phase, name: Name) { phase.Proposal? ==> name in Preferred(Proposal) }

  function IndexOf(s: seq<Name>, x: Name): nat
    ensures x in s ==> IndexOf(s, x) < |s| && s[IndexOf(s, x)] == x
    ensures x !in s ==> IndexOf(s, x) == |s|
  {
    if |s| == 0 || s[0] == x then 0 else 1 + IndexOf(s[1..], x)
  }

  /** Failed tools last, then the phase's preference, then where the tool first appeared. */
  predicate Before(phase: Phase, failedTools: set<Name>, baseline: seq<Name>, a: Name, b: Name) {
    if (a in failedTools) != (b in failedTools) then b in failedTools
    else if IndexOf(Preferred(phase), a) != IndexOf(Preferred(phase), b) then IndexOf(Preferred(phase), a) < IndexOf(Preferred(phase), b)
    else IndexOf(baseline, a) < IndexOf(baseline, b)
  }

  predicate Sorted(phase: Phase, failedTools: set<Name>, baseline: seq<Name>, s: seq<Name>) {
    forall i, j :: 0 <= i < j < |s| ==> Before(phase, failedTools, baseline, s[i], s[j])
  }

  function Insert(phase: Phase, failedTools: set<Name>, baseline: seq<Name>, s: seq<Name>, x: Name): seq<Name> {
    if |s| == 0 || Before(phase, failedTools, baseline, x, s[0]) then [x] + s
    else [s[0]] + Insert(phase, failedTools, baseline, s[1..], x)
  }

  function Sort(phase: Phase, failedTools: set<Name>, baseline: seq<Name>, s: seq<Name>): seq<Name> {
    if |s| == 0 then [] else Insert(phase, failedTools, baseline, Sort(phase, failedTools, baseline, s[..|s| - 1]), s[|s| - 1])
  }

  function Select(phase: Phase, tools: seq<Name>): seq<Name> {
    if |tools| == 0 then []
    else Select(phase, tools[..|tools| - 1]) + if Allowed(phase, tools[|tools| - 1]) then [tools[|tools| - 1]] else []
  }

  function Appear(baseline: seq<Name>, tools: seq<Name>): seq<Name> {
    if |tools| == 0 then baseline
    else
      var before := Appear(baseline, tools[..|tools| - 1]);
      if tools[|tools| - 1] in before then before else before + [tools[|tools| - 1]]
  }

  lemma {:induction false} InsertSorted(phase: Phase, failedTools: set<Name>, baseline: seq<Name>, s: seq<Name>, x: Name)
    requires Sorted(phase, failedTools, baseline, s) && x !in s && x in baseline && forall y :: y in s ==> y in baseline
    ensures var t := Insert(phase, failedTools, baseline, s, x);
      Sorted(phase, failedTools, baseline, t) && forall y :: y in t <==> y in s || y == x
  {
    var t := Insert(phase, failedTools, baseline, s, x);
    hide Preferred;
    if |s| > 0 && !Before(phase, failedTools, baseline, x, s[0]) {
      InsertSorted(phase, failedTools, baseline, s[1..], x);
      assert Before(phase, failedTools, baseline, s[0], x);
      forall j | 0 < j < |t| ensures Before(phase, failedTools, baseline, t[0], t[j]) { assert t[j] in t[1..]; }
    }
  }

  lemma {:induction false} SortSorts(phase: Phase, failedTools: set<Name>, baseline: seq<Name>, s: seq<Name>)
    requires Distinct(s) && forall y :: y in s ==> y in baseline
    ensures var t := Sort(phase, failedTools, baseline, s); Sorted(phase, failedTools, baseline, t) && forall y :: y in t <==> y in s
  {
    hide Before, Insert, Preferred;
    if |s| > 0 {
      var init := s[..|s| - 1];
      SortSorts(phase, failedTools, baseline, init);
      hide Sorted;
      InsertSorted(phase, failedTools, baseline, Sort(phase, failedTools, baseline, init), s[|s| - 1]);
      assert s == init + [s[|s| - 1]];
    }
  }

  /** There is one sorted list of given tools. */
  lemma {:induction false} SortedOnce(phase: Phase, failedTools: set<Name>, baseline: seq<Name>, a: seq<Name>, b: seq<Name>)
    requires Sorted(phase, failedTools, baseline, a) && Sorted(phase, failedTools, baseline, b) && forall x :: x in a <==> x in b
    ensures a == b
  {
    hide Preferred;
    if |b| > 0 { assert b[0] in b; }
    if |a| > 0 {
      assert a[0] in b && b[0] in a;
      SameFirst(phase, failedTools, baseline, a, b);
      forall x ensures x in a[1..] <==> x in b[1..] {
        RestOf(phase, failedTools, baseline, a, x);
        RestOf(phase, failedTools, baseline, b, x);
      }
      SortedOnce(phase, failedTools, baseline, a[1..], b[1..]);
    }
  }

  /**
   * What the order means, position by position: no failed tool comes before one that has not failed; among those that
   * fare alike the phase's preferred tools come first, in its order; the rest keep the order they appeared in.
   */
  lemma OrderMeans(phase: Phase, failedTools: set<Name>, baseline: seq<Name>, s: seq<Name>, i: nat, j: nat)
    requires Sorted(phase, failedTools, baseline, s) && i < j < |s|
    ensures s[i] in failedTools ==> s[j] in failedTools
    ensures (s[i] in failedTools <==> s[j] in failedTools) ==>
      && (s[j] in Preferred(phase) ==> s[i] in Preferred(phase))
      && (forall p, q :: 0 <= p < |Preferred(phase)| && 0 <= q < |Preferred(phase)| && Preferred(phase)[p] == s[i] && Preferred(phase)[q] == s[j] ==> p < q)
      && (s[i] !in Preferred(phase) && s[j] !in Preferred(phase) ==> IndexOf(baseline, s[i]) < IndexOf(baseline, s[j]))
  {
    assert Before(phase, failedTools, baseline, s[i], s[j]);
    PreferredAt(phase, s[i]);
    PreferredAt(phase, s[j]);
    hide Preferred;
  }

  /** Each preferred tool stands in the phase's list once. */
  lemma PreferredAt(phase: Phase, x: Name)
    ensures forall p :: 0 <= p < |Preferred(phase)| && Preferred(phase)[p] == x ==> IndexOf(Preferred(phase), x) == p
  {
    var s := Preferred(phase);
    PreferredDistinct(phase);
    forall p | 0 <= p < |s| && s[p] == x ensures IndexOf(s, x) == p { assert s[IndexOf(s, x)] == x; }
  }

  lemma PreferredDistinct(phase: Phase)
    ensures Distinct(Preferred(phase))
  {
    var names := ["read", "grep", "find", "ls", "edit", "write", "bash", "powershell"];
    assert names[0][0] == 'r' && names[1][0] == 'g' && names[2][0] == 'f' && names[3][0] == 'l' && names[4][0] == 'e';
    assert names[5][0] == 'w' && names[6][0] == 'b' && names[7][0] == 'p';
  }

  lemma NotBoth(phase: Phase, failedTools: set<Name>, baseline: seq<Name>, a: Name, b: Name)
    ensures !(Before(phase, failedTools, baseline, a, b) && Before(phase, failedTools, baseline, b, a))
  {
    hide Preferred;
  }

  lemma SameFirst(phase: Phase, failedTools: set<Name>, baseline: seq<Name>, a: seq<Name>, b: seq<Name>)
    requires Sorted(phase, failedTools, baseline, a) && Sorted(phase, failedTools, baseline, b) && |a| > 0 && |b| > 0 && a[0] in b && b[0] in a
    ensures a[0] == b[0]
  {
    hide Preferred;
    var i :| 0 <= i < |b| && b[i] == a[0];
    var j :| 0 <= j < |a| && a[j] == b[0];
    NotBoth(phase, failedTools, baseline, a[0], b[0]);
    hide Before;
  }

  lemma RestOf(phase: Phase, failedTools: set<Name>, baseline: seq<Name>, s: seq<Name>, x: Name)
    requires Sorted(phase, failedTools, baseline, s) && |s| > 0
    ensures x in s[1..] <==> x in s && x != s[0]
  {
    hide Preferred;
    if x in s[1..] {
      var i :| 0 <= i < |s[1..]| && s[1..][i] == x;
      assert Before(phase, failedTools, baseline, s[0], s[i + 1]);
    }
  }

  lemma {:induction false} SelectHas(phase: Phase, tools: seq<Name>)
    requires Distinct(tools)
    ensures Distinct(Select(phase, tools)) && forall x :: x in Select(phase, tools) <==> x in tools && Allowed(phase, x)
  {
    if |tools| > 0 {
      var init := tools[..|tools| - 1];
      SelectHas(phase, init);
      assert tools == init + [tools[|tools| - 1]];
    }
  }

  lemma {:induction false} AppearHas(baseline: seq<Name>, tools: seq<Name>)
    ensures baseline <= Appear(baseline, tools) && forall x :: x in Appear(baseline, tools) <==> x in baseline || x in tools
  {
    if |tools| > 0 {
      var init := tools[..|tools| - 1];
      AppearHas(baseline, init);
      assert tools == init + [tools[|tools| - 1]];
    }
  }

  lemma {:induction false} AppearSame(baseline: seq<Name>, tools: seq<Name>)
    requires forall x :: x in tools ==> x in baseline
    ensures Appear(baseline, tools) == baseline
  {
    if |tools| > 0 {
      AppearSame(baseline, tools[..|tools| - 1]);
      assert tools[|tools| - 1] in tools;
    }
  }

  lemma {:induction false} IndexStays(baseline: seq<Name>, later: seq<Name>, x: Name)
    requires baseline <= later && x in baseline
    ensures IndexOf(later, x) == IndexOf(baseline, x)
  {
    if baseline[0] != x { IndexStays(baseline[1..], later[1..], x); }
  }

  lemma SortedStays(phase: Phase, failedTools: set<Name>, baseline: seq<Name>, later: seq<Name>, s: seq<Name>)
    requires Sorted(phase, failedTools, baseline, s) && baseline <= later && forall x :: x in s ==> x in baseline
    ensures Sorted(phase, failedTools, later, s)
  {
    hide Preferred;
    forall i, j | 0 <= i < j < |s| ensures Before(phase, failedTools, later, s[i], s[j]) {
      IndexStays(baseline, later, s[i]);
      IndexStays(baseline, later, s[j]);
    }
  }

  /** The order a list of tools comes back in. */
  function OrderOf(phase: Phase, failedTools: set<Name>, baseline: seq<Name>, tools: seq<Name>): seq<Name> {
    Sort(phase, failedTools, Appear(baseline, tools), Select(phase, tools))
  }

  lemma OrderSorted(phase: Phase, failedTools: set<Name>, baseline: seq<Name>, later: seq<Name>, tools: seq<Name>)
    requires Distinct(tools) && baseline <= later && forall x :: x in tools ==> x in baseline
    ensures var order := OrderOf(phase, failedTools, baseline, tools);
      Sorted(phase, failedTools, later, order) && forall x :: x in order <==> x in tools && Allowed(phase, x)
  {
    hide Sort, Sorted, Allowed;
    AppearSame(baseline, tools);
    SelectHas(phase, tools);
    SortSorts(phase, failedTools, baseline, Select(phase, tools));
    SortedStays(phase, failedTools, baseline, later, OrderOf(phase, failedTools, baseline, tools));
  }

  /**
   * Tools that have appeared before come back in one order, whatever order they are given in and whatever has appeared
   * in between, as long as the same tools count as failed; after a success none does.
   */
  lemma OneOrder(phase: Phase, failedTools: set<Name>, baseline: seq<Name>, later: seq<Name>, a: seq<Name>, b: seq<Name>)
    requires Distinct(a) && Distinct(b) && (forall x :: x in a <==> x in b) && (forall x :: x in a ==> x in baseline) && baseline <= later
    ensures OrderOf(phase, failedTools, baseline, a) == OrderOf(phase, failedTools, later, b)
  {
    hide OrderOf, Sorted, Allowed;
    OrderSorted(phase, failedTools, baseline, later, a);
    OrderSorted(phase, failedTools, later, later, b);
    SortedOnce(phase, failedTools, later, OrderOf(phase, failedTools, baseline, a), OrderOf(phase, failedTools, later, b));
  }

  // ---- the controller --------------------------------------------------------------------------------------------------

  class Controller {
    const phase: Phase
    var memory: Memory
    var baseline: seq<Name>

    constructor (phase: Phase)
      ensures this.phase == phase && memory == Remembers([]) && baseline == []
    {
      this.phase, memory, baseline := phase, Memory([], [], {}), [];
    }

    /** `safe` is the tool-name grammar. */
    method OrderActiveTools(tools: seq<Name>, safe: Name -> bool) returns (order: Option<seq<Name>>)
      modifies this`baseline
      ensures order.None? <==>
        || (exists i :: 0 <= i < |tools| && !safe(tools[i])) || !Distinct(tools)
        || (|tools| > 0 && forall i :: 0 <= i < |tools| ==> !Allowed(phase, tools[i]))
      ensures baseline == if (forall i :: 0 <= i < |tools| ==> safe(tools[i])) && Distinct(tools) then Appear(old(baseline), tools) else old(baseline)
      ensures order.Some? ==> order.value == OrderOf(phase, memory.failedTools, old(baseline), tools)
      ensures order.Some? ==>
        Sorted(phase, memory.failedTools, baseline, order.value) && forall x :: x in order.value <==> x in tools && Allowed(phase, x)
    {
      if exists i :: 0 <= i < |tools| && !safe(tools[i]) { return None; }
      if !Distinct(tools) { return None; }
      for i := 0 to |tools|
        invariant baseline == Appear(old(baseline), tools[..i])
      {
        assert tools[..i + 1][..i] == tools[..i];
        if tools[i] !in baseline { baseline := baseline + [tools[i]]; }
      }
      assert tools[..|tools|] == tools;
      var selected: seq<Name> := [];
      for i := 0 to |tools|
        invariant selected == Select(phase, tools[..i])
      {
        assert tools[..i + 1][..i] == tools[..i];
        if Allowed(phase, tools[i]) { selected := selected + [tools[i]]; }
      }
      SelectHas(phase, tools);
      if |selected| == 0 && |tools| > 0 {
        forall i | 0 <= i < |tools| ensures !Allowed(phase, tools[i]) { assert tools[i] in tools; }
        return None;
      }
      if |selected| > 0 { assert selected[0] in selected; }
      AppearHas(old(baseline), tools);
      SortSorts(phase, memory.failedTools, baseline, selected);
      return Some(Sort(phase, memory.failedTools, baseline, selected));
    }

    method OnToolCall(tool: Name, signature: Option<Signature>) returns (blocked: bool)
      modifies this`memory
      ensures blocked <==> signature.Some? && Blocks(old(memory), signature.value)
      ensures memory == Observe(old(memory), Call(tool, signature))
    {
      if signature.Some? && signature.value in memory.failed && signature.value !in memory.nudged {
        var nudged := BoundedSetAdd(memory.nudged, signature.value);
        memory := Memory(memory.failed, nudged, memory.failedTools + {tool});
        return true;
      }
      return false;
    }

    method OnToolResult(tool: Name, signature: Option<Signature>, isError: bool)
      modifies this`memory
      ensures memory == Observe(old(memory), Result(tool, signature, isError))
    {
      if isError {
        var failed := memory.failed;
        if signature.Some? { failed := BoundedSetAdd(failed, signature.value); }
        memory := Memory(failed, memory.nudged, memory.failedTools + {tool});
        return;
      }
      memory := Memory([], [], {});
    }
  }
}
