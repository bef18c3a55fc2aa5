/** What a patch makes of the nodes: which stay, what became of them, and where each one stands. */
module GraphCandidates {
  import opened Options
  import opened GraphTypes
  import opened GraphChecks
  import opened GraphDecide
  import opened GraphPatches

  // ---- said position by position ---------------------------------------------------------------------------------------

  /** How many of the first `i` nodes no removal names. */
  function KeptBefore(nodes: seq<NodeSpec>, removals: seq<Id>, i: nat): nat
    requires i <= |nodes|
  {
    if i == 0 then 0 else KeptBefore(nodes, removals, i - 1) + if nodes[i - 1].nodeId in removals then 0 else 1
  }

  predicate Changed(changes: seq<NodeSpec>, id: Id) { exists i :: 0 <= i < |changes| && changes[i].nodeId == id }

  /** `n` is the last change of its node. */
  predicate LastChange(changes: seq<NodeSpec>, n: NodeSpec) {
    exists i :: 0 <= i < |changes| && changes[i] == n && forall j :: i < j < |changes| ==> changes[j].nodeId != n.nodeId
  }

  /** `m` is what the changes make of `n`: its last change, or itself. */
  predicate Became(changes: seq<NodeSpec>, n: NodeSpec, m: NodeSpec) {
    m.nodeId == n.nodeId && if Changed(changes, n.nodeId) then LastChange(changes, m) else m == n
  }

  predicate DistinctIds(ids: seq<Id>) { forall i, j :: 0 <= i < j < |ids| ==> ids[i] != ids[j] }

  /** Each removal names a node, once; each change a node that stays; each addition a new id, once. */
  predicate Buildable(nodes: seq<NodeSpec>, patch: GraphPatch) {
    && DistinctIds(patch.removals) && (forall i :: 0 <= i < |patch.removals| ==> HasNode(nodes, patch.removals[i]))
    && (forall i :: 0 <= i < |patch.changes| ==> HasNode(nodes, patch.changes[i].nodeId) && patch.changes[i].nodeId !in patch.removals)
    && (forall i, j :: 0 <= i < j < |patch.adds| ==> patch.adds[i].nodeId != patch.adds[j].nodeId)
    && (forall i :: 0 <= i < |patch.adds| ==> HasNode(nodes, patch.adds[i].nodeId) ==> patch.adds[i].nodeId in patch.removals)
  }

  /** The candidate's nodes: those that stay, each in its place and as its last change says, then the additions. */
  predicate Arranged(nodes: seq<NodeSpec>, patch: GraphPatch, candidate: seq<NodeSpec>) {
    var kept := KeptBefore(nodes, patch.removals, |nodes|);
    && |candidate| == kept + |patch.adds|
    && (forall i :: 0 <= i < |nodes| && nodes[i].nodeId !in patch.removals ==>
          KeptBefore(nodes, patch.removals, i) < kept && Became(patch.changes, nodes[i], candidate[KeptBefore(nodes, patch.removals, i)]))
    && (forall j :: 0 <= j < |patch.adds| ==> candidate[kept + j] == patch.adds[j])
  }

  // ---- removals ------------------------------------------------------------------------------------------------------------

  function Keep(nodes: seq<NodeSpec>, removals: seq<Id>): seq<NodeSpec> {
    if |nodes| == 0 then []
    else
      var last := nodes[|nodes| - 1];
      Keep(nodes[..|nodes| - 1], removals) + if last.nodeId in removals then [] else [last]
  }

  lemma {:induction false} KeepAt(nodes: seq<NodeSpec>, removals: seq<Id>, i: nat)
    requires i <= |nodes|
    ensures |Keep(nodes[..i], removals)| == KeptBefore(nodes, removals, i) && KeptBefore(nodes, removals, i) <= KeptBefore(nodes, removals, |nodes|)
    ensures i < |nodes| && nodes[i].nodeId !in removals ==>
      KeptBefore(nodes, removals, i) < |Keep(nodes, removals)| && Keep(nodes, removals)[KeptBefore(nodes, removals, i)] == nodes[i]
    decreases |nodes|, i
  {
    KeepCount(nodes, removals, i);
    KeepPrefix(nodes, removals, i);
    if i < |nodes| {
      KeepPrefix(nodes, removals, i + 1);
      assert nodes[..i + 1][..i] == nodes[..i];
    }
  }

  lemma {:induction false} KeepCount(nodes: seq<NodeSpec>, removals: seq<Id>, i: nat)
    requires i <= |nodes|
    ensures |Keep(nodes[..i], removals)| == KeptBefore(nodes, removals, i)
  {
    if i > 0 {
      KeepCount(nodes, removals, i - 1);
      assert nodes[..i][..i - 1] == nodes[..i - 1];
    }
  }

  lemma {:induction false} KeepPrefix(nodes: seq<NodeSpec>, removals: seq<Id>, i: nat)
    requires i <= |nodes|
    ensures Keep(nodes[..i], removals) <= Keep(nodes, removals)
    ensures KeptBefore(nodes, removals, i) <= KeptBefore(nodes, removals, |nodes|)
    decreases |nodes| - i
  {
    if i == |nodes| {
      assert nodes[..i] == nodes;
    } else {
      KeepPrefix(nodes, removals, i + 1);
      assert nodes[..i + 1][..i] == nodes[..i];
    }
  }

  lemma {:induction false} WithoutAppend(a: seq<NodeSpec>, b: seq<NodeSpec>, id: Id)
    ensures Without(a + b, id) == Without(a, id) + Without(b, id)
  {
    if |a| == 0 {
      assert a + b == b;
    } else {
      assert (a + b)[1..] == a[1..] + b;
      WithoutAppend(a[1..], b, id);
    }
  }

  /** One removal and then the rest is all of them at once. */
  lemma {:induction false} KeepWithout(nodes: seq<NodeSpec>, removals: seq<Id>)
    requires |removals| > 0
    ensures Keep(Without(nodes, removals[0]), removals[1..]) == Keep(nodes, removals)
  {
    if |nodes| > 0 {
      var init, last := nodes[..|nodes| - 1], nodes[|nodes| - 1];
      assert nodes == init + [last];
      WithoutAppend(init, [last], removals[0]);
      KeepWithout(init, removals);
      var w := Without(init, removals[0]);
      assert last.nodeId in removals <==> last.nodeId == removals[0] || last.nodeId in removals[1..];
      if last.nodeId == removals[0] {
        assert Without(nodes, removals[0]) == w;
      } else {
        assert Without(nodes, removals[0]) == w + [last] && (w + [last])[..|w|] == w;
      }
    } else {
      assert Without(nodes, removals[0]) == [];
    }
  }

  lemma {:induction false} HasWithout(nodes: seq<NodeSpec>, id: Id, x: Id)
    ensures HasNode(Without(nodes, id), x) <==> HasNode(nodes, x) && x != id
  {
    if |nodes| > 0 {
      HasWithout(nodes[1..], id, x);
      var rest := Without(nodes[1..], id);
      HasCons(nodes, x);
      if nodes[0].nodeId != id { HasCons([nodes[0]] + rest, x); assert ([nodes[0]] + rest)[1..] == rest; }
      else { assert Without(nodes, id) == rest; }
    }
  }

  lemma HasCons(nodes: seq<NodeSpec>, x: Id)
    requires |nodes| > 0
    ensures HasNode(nodes, x) <==> nodes[0].nodeId == x || HasNode(nodes[1..], x)
  {
    if HasNode(nodes[1..], x) {
      var i :| 0 <= i < |nodes[1..]| && nodes[1..][i].nodeId == x;
      assert nodes[i + 1].nodeId == x;
    }
    if HasNode(nodes, x) && nodes[0].nodeId != x {
      var i :| 0 <= i < |nodes| && nodes[i].nodeId == x;
      assert nodes[1..][i - 1].nodeId == x;
    }
  }

  predicate Removable(nodes: seq<NodeSpec>, removals: seq<Id>) {
    DistinctIds(removals) && forall i :: 0 <= i < |removals| ==> HasNode(nodes, removals[i])
  }

  lemma {:induction false} DropAllIs(nodes: seq<NodeSpec>, removals: seq<Id>)
    ensures DropAll(nodes, removals) == if Removable(nodes, removals) then Some(Keep(nodes, removals)) else None
    decreases |removals|
  {
    if |removals| == 0 {
      KeepAll(nodes);
    } else if HasNode(nodes, removals[0]) {
      DropAllIs(Without(nodes, removals[0]), removals[1..]);
      KeepWithout(nodes, removals);
      RemovableRest(nodes, removals);
    }
  }

  lemma RemovableRest(nodes: seq<NodeSpec>, removals: seq<Id>)
    requires |removals| > 0 && HasNode(nodes, removals[0])
    ensures Removable(nodes, removals) <==> Removable(Without(nodes, removals[0]), removals[1..])
  {
    var rest := removals[1..];
    forall i | 0 <= i < |rest| ensures HasNode(Without(nodes, removals[0]), rest[i]) <==> HasNode(nodes, rest[i]) && rest[i] != removals[0] {
      HasWithout(nodes, removals[0], rest[i]);
    }
    assert forall i :: 0 <= i < |rest| ==> rest[i] == removals[i + 1];
    assert forall i :: 1 <= i < |removals| ==> removals[i] == rest[i - 1];
    hide HasNode;
  }

  lemma {:induction false} KeepAll(nodes: seq<NodeSpec>)
    ensures Keep(nodes, []) == nodes
  { if |nodes| > 0 { KeepAll(nodes[..|nodes| - 1]); } }

  // ---- changes ---------------------------------------------------------------------------------------------------------------

  predicate Changeable(nodes: seq<NodeSpec>, changes: seq<NodeSpec>) { forall i :: 0 <= i < |changes| ==> HasNode(nodes, changes[i].nodeId) }

  /** What is changed stays where it was. */
  predicate Rewritten(nodes: seq<NodeSpec>, changes: seq<NodeSpec>, changed: seq<NodeSpec>) {
    |changed| == |nodes| && forall i :: 0 <= i < |nodes| ==> Became(changes, nodes[i], changed[i])
  }

  lemma {:induction false} ReplaceAt(nodes: seq<NodeSpec>, n: NodeSpec, i: nat)
    requires i < |nodes|
    ensures |Replace(nodes, n)| == |nodes| && Replace(nodes, n)[i] == if nodes[i].nodeId == n.nodeId then n else nodes[i]
  {
    ReplaceLength(nodes, n);
    if i > 0 { ReplaceAt(nodes[1..], n, i - 1); }
  }

  lemma {:induction false} ReplaceLength(nodes: seq<NodeSpec>, n: NodeSpec)
    ensures |Replace(nodes, n)| == |nodes|
  { if |nodes| > 0 { ReplaceLength(nodes[1..], n); } }

  lemma ReplaceHas(nodes: seq<NodeSpec>, n: NodeSpec, x: Id)
    ensures HasNode(Replace(nodes, n), x) <==> HasNode(nodes, x)
  {
    ReplaceLength(nodes, n);
    forall i | 0 <= i < |nodes| ensures Replace(nodes, n)[i].nodeId == nodes[i].nodeId { ReplaceAt(nodes, n, i); }
    if HasNode(nodes, x) {
      var i :| 0 <= i < |nodes| && nodes[i].nodeId == x;
      assert Replace(nodes, n)[i].nodeId == x;
    }
  }

  /** A change and then the rest of them. */
  lemma BecameFirst(changes: seq<NodeSpec>, n: NodeSpec, m: NodeSpec)
    requires |changes| > 0 && Became(changes[1..], if n.nodeId == changes[0].nodeId then changes[0] else n, m)
    ensures Became(changes, n, m)
  {
    var rest := changes[1..];
    if Changed(rest, n.nodeId) {
      var i :| 0 <= i < |rest| && rest[i] == m && forall j :: i < j < |rest| ==> rest[j].nodeId != m.nodeId;
      assert changes[i + 1] == m && forall j :: i + 1 < j < |changes| ==> changes[j] == rest[j - 1];
      assert Changed(changes, n.nodeId) && LastChange(changes, m);
    } else if n.nodeId == changes[0].nodeId {
      assert forall j :: 1 <= j < |changes| ==> changes[j] == rest[j - 1];
      assert changes[0] == m && Changed(changes, n.nodeId) && LastChange(changes, m);
    } else {
      assert forall j :: 1 <= j < |changes| ==> changes[j] == rest[j - 1];
      assert !Changed(changes, n.nodeId);
    }
  }

  lemma {:induction false} ChangeAllIs(nodes: seq<NodeSpec>, changes: seq<NodeSpec>)
    ensures ChangeAll(nodes, changes).Some? <==> Changeable(nodes, changes)
    ensures ChangeAll(nodes, changes).Some? ==> Rewritten(nodes, changes, ChangeAll(nodes, changes).value)
    decreases |changes|
  {
    if |changes| > 0 && HasNode(nodes, changes[0].nodeId) {
      var first, rest := Replace(nodes, changes[0]), changes[1..];
      ChangeAllIs(first, rest);
      forall i | 0 <= i < |rest| ensures HasNode(first, rest[i].nodeId) <==> HasNode(nodes, changes[i + 1].nodeId) { ReplaceHas(nodes, changes[0], rest[i].nodeId); }
      assert Changeable(nodes, changes) <==> Changeable(first, rest) by {
        assert forall i :: 1 <= i < |changes| ==> changes[i] == rest[i - 1];
        hide HasNode, Replace;
      }
      ReplaceLength(nodes, changes[0]);
      if ChangeAll(first, rest).Some? {
        var changed := ChangeAll(first, rest).value;
        forall i | 0 <= i < |nodes| ensures Became(changes, nodes[i], changed[i]) {
          ReplaceAt(nodes, changes[0], i);
          BecameFirst(changes, nodes[i], changed[i]);
        }
      }
    }
  }

  // ---- additions ---------------------------------------------------------------------------------------------------------------

  predicate Addable(nodes: seq<NodeSpec>, adds: seq<NodeSpec>) {
    && (forall i, j :: 0 <= i < j < |adds| ==> adds[i].nodeId != adds[j].nodeId)
    && (forall i :: 0 <= i < |adds| ==> !HasNode(nodes, adds[i].nodeId))
  }

  lemma HasAppend(nodes: seq<NodeSpec>, n: NodeSpec, x: Id)
    ensures HasNode(nodes + [n], x) <==> HasNode(nodes, x) || n.nodeId == x
  {
    var all := nodes + [n];
    if n.nodeId == x { assert all[|nodes|].nodeId == x; }
    if HasNode(nodes, x) {
      var i :| 0 <= i < |nodes| && nodes[i].nodeId == x;
      assert all[i].nodeId == x;
    }
  }

  lemma {:induction false} AddAllIs(nodes: seq<NodeSpec>, adds: seq<NodeSpec>)
    ensures AddAll(nodes, adds) == if Addable(nodes, adds) then Some(nodes + adds) else None
    decreases |adds|
  {
    if |adds| == 0 {
      assert nodes + adds == nodes;
    } else if !HasNode(nodes, adds[0].nodeId) {
      var more, rest := nodes + [adds[0]], adds[1..];
      AddAllIs(more, rest);
      forall i | 0 <= i < |rest| ensures HasNode(more, rest[i].nodeId) <==> HasNode(nodes, adds[i + 1].nodeId) || adds[0].nodeId == adds[i + 1].nodeId {
        HasAppend(nodes, adds[0], rest[i].nodeId);
      }
      assert Addable(nodes, adds) <==> Addable(more, rest) by {
        assert forall i :: 1 <= i < |adds| ==> adds[i] == rest[i - 1];
        hide HasNode;
      }
      assert more + rest == nodes + adds;
    }
  }

  // ---- all together ------------------------------------------------------------------------------------------------------------

  lemma {:induction false} KeepHas(nodes: seq<NodeSpec>, removals: seq<Id>, x: Id)
    ensures HasNode(Keep(nodes, removals), x) <==> HasNode(nodes, x) && x !in removals
  {
    if |nodes| > 0 {
      var init, last := nodes[..|nodes| - 1], nodes[|nodes| - 1];
      KeepHas(init, removals, x);
      HasAppend(init, last, x);
      assert init + [last] == nodes;
      HasAppend(Keep(init, removals), last, x);
      assert Keep(init, removals) + [] == Keep(init, removals);
    }
  }

  lemma RewrittenHas(nodes: seq<NodeSpec>, changes: seq<NodeSpec>, changed: seq<NodeSpec>, x: Id)
    requires Rewritten(nodes, changes, changed)
    ensures HasNode(changed, x) <==> HasNode(nodes, x)
  {
    hide LastChange, Changed;
    if HasNode(nodes, x) {
      var i :| 0 <= i < |nodes| && nodes[i].nodeId == x;
      assert changed[i].nodeId == x;
    }
  }

  /** When a patch can be built. */
  lemma BuildableIff(nodes: seq<NodeSpec>, patch: GraphPatch)
    ensures CandidateNodes(nodes, patch).Some? <==> Buildable(nodes, patch)
  {
    hide HasNode, DropAll, ChangeAll, AddAll, Rewritten, Keep;
    DropAllIs(nodes, patch.removals);
    if Removable(nodes, patch.removals) {
      var kept := Keep(nodes, patch.removals);
      ChangeAllIs(kept, patch.changes);
      forall i | 0 <= i < |patch.changes|
        ensures HasNode(kept, patch.changes[i].nodeId) <==> HasNode(nodes, patch.changes[i].nodeId) && patch.changes[i].nodeId !in patch.removals
      {
        KeepHas(nodes, patch.removals, patch.changes[i].nodeId);
      }
      if ChangeAll(kept, patch.changes).Some? {
        var changed := ChangeAll(kept, patch.changes).value;
        AddAllIs(changed, patch.adds);
        forall i | 0 <= i < |patch.adds|
          ensures HasNode(changed, patch.adds[i].nodeId) <==> HasNode(nodes, patch.adds[i].nodeId) && patch.adds[i].nodeId !in patch.removals
        {
          KeepHas(nodes, patch.removals, patch.adds[i].nodeId);
          RewrittenHas(kept, patch.changes, changed, patch.adds[i].nodeId);
        }
      }
    }
  }

  /** The kept nodes, rewritten, and the additions behind them. */
  lemma ArrangedSo(nodes: seq<NodeSpec>, patch: GraphPatch, changed: seq<NodeSpec>)
    requires Rewritten(Keep(nodes, patch.removals), patch.changes, changed)
    ensures Arranged(nodes, patch, changed + patch.adds)
  {
    hide Keep, KeptBefore, Became;
    var kept := Keep(nodes, patch.removals);
    KeepAt(nodes, patch.removals, |nodes|);
    assert nodes[..|nodes|] == nodes;
    forall i | 0 <= i < |nodes| && nodes[i].nodeId !in patch.removals
      ensures var at := KeptBefore(nodes, patch.removals, i);
        at < |kept| && Became(patch.changes, nodes[i], (changed + patch.adds)[at])
    {
      KeepAt(nodes, patch.removals, i);
      assert Became(patch.changes, kept[KeptBefore(nodes, patch.removals, i)], changed[KeptBefore(nodes, patch.removals, i)]);
    }
  }

  /** What is built: every node that stays in its place and as its last change says, then the additions in order. */
  lemma CandidateArranged(nodes: seq<NodeSpec>, patch: GraphPatch)
    requires Buildable(nodes, patch)
    ensures CandidateNodes(nodes, patch).Some? && Arranged(nodes, patch, CandidateNodes(nodes, patch).value)
  {
    BuildableIff(nodes, patch);
    hide Buildable, HasNode, DropAll, ChangeAll, AddAll, Keep, Arranged, Rewritten, Removable, Changeable, Addable;
    DropAllIs(nodes, patch.removals);
    var kept := Keep(nodes, patch.removals);
    ChangeAllIs(kept, patch.changes);
    AddAllIs(ChangeAll(kept, patch.changes).value, patch.adds);
    ArrangedSo(nodes, patch, ChangeAll(kept, patch.changes).value);
  }

  lemma {:induction false} KeptFrom(nodes: seq<NodeSpec>, removals: seq<Id>, n: nat, p: nat) returns (i: nat)
    requires n <= |nodes| && p < KeptBefore(nodes, removals, n)
    ensures i < n && nodes[i].nodeId !in removals && KeptBefore(nodes, removals, i) == p
  {
    if p < KeptBefore(nodes, removals, n - 1) { i := KeptFrom(nodes, removals, n - 1, p); } else { i := n - 1; }
  }

  predicate Belongs(nodes: seq<NodeSpec>, patch: GraphPatch, n: NodeSpec) {
    n in patch.adds || LastChange(patch.changes, n) || (n in nodes && n.nodeId !in patch.removals && !Changed(patch.changes, n.nodeId))
  }

  lemma MemberBelongs(nodes: seq<NodeSpec>, patch: GraphPatch, candidate: seq<NodeSpec>, p: nat)
    requires Arranged(nodes, patch, candidate) && p < |candidate|
    ensures Belongs(nodes, patch, candidate[p])
  {
    hide LastChange, Changed, KeptBefore;
    if p < KeptBefore(nodes, patch.removals, |nodes|) {
      var i := KeptFrom(nodes, patch.removals, |nodes|, p);
      assert Became(patch.changes, nodes[i], candidate[p]);
    } else {
      assert candidate[p] == patch.adds[p - KeptBefore(nodes, patch.removals, |nodes|)];
    }
  }

  lemma BelongsIsMember(nodes: seq<NodeSpec>, patch: GraphPatch, candidate: seq<NodeSpec>, n: NodeSpec)
    requires Buildable(nodes, patch) && Arranged(nodes, patch, candidate) && Belongs(nodes, patch, n)
    ensures n in candidate
  {
    if LastChange(patch.changes, n) {
      LastChangeIn(nodes, patch, candidate, n);
    } else if n in patch.adds {
      var j :| 0 <= j < |patch.adds| && patch.adds[j] == n;
      assert candidate[KeptBefore(nodes, patch.removals, |nodes|) + j] == n by { hide Buildable, LastChange, Changed, KeptBefore; }
    } else {
      var i :| 0 <= i < |nodes| && nodes[i] == n;
      assert candidate[KeptBefore(nodes, patch.removals, i)] == n by { hide Buildable, LastChange, Changed, KeptBefore; }
    }
  }

  /**
   * Who is in the candidate: the additions, the last changes of their nodes, and the nodes that no removal and no change
   * names. Nothing else is.
   */
  lemma CandidateMembers(nodes: seq<NodeSpec>, patch: GraphPatch, n: NodeSpec)
    requires Buildable(nodes, patch)
    ensures CandidateNodes(nodes, patch).Some?
    ensures n in CandidateNodes(nodes, patch).value <==>
      n in patch.adds || LastChange(patch.changes, n) || (n in nodes && n.nodeId !in patch.removals && !Changed(patch.changes, n.nodeId))
  {
    CandidateArranged(nodes, patch);
    hide Buildable, Arranged, CandidateNodes, LastChange, Changed;
    var candidate := CandidateNodes(nodes, patch).value;
    if n in candidate {
      var p :| 0 <= p < |candidate| && candidate[p] == n;
      MemberBelongs(nodes, patch, candidate, p);
    }
    if Belongs(nodes, patch, n) { BelongsIsMember(nodes, patch, candidate, n); }
  }

  lemma LastChangeIn(nodes: seq<NodeSpec>, patch: GraphPatch, candidate: seq<NodeSpec>, n: NodeSpec)
    requires Buildable(nodes, patch) && Arranged(nodes, patch, candidate) && LastChange(patch.changes, n)
    ensures n in candidate
  {
    var k :| 0 <= k < |patch.changes| && patch.changes[k] == n && forall j :: k < j < |patch.changes| ==> patch.changes[j].nodeId != n.nodeId;
    assert HasNode(nodes, patch.changes[k].nodeId);
    var i :| 0 <= i < |nodes| && nodes[i].nodeId == n.nodeId;
    var m := candidate[KeptBefore(nodes, patch.removals, i)];
    assert Became(patch.changes, nodes[i], m) && Changed(patch.changes, n.nodeId);
    var q :| 0 <= q < |patch.changes| && patch.changes[q] == m && forall j :: q < j < |patch.changes| ==> patch.changes[j].nodeId != m.nodeId;
    assert q == k;
  }

  // ---- the rest of the candidate ----------------------------------------------------------------------------------------------

  /** The required joins are the ids of the candidate's joins, in their order. */
  lemma {:induction false} JoinsListed(nodes: seq<NodeSpec>, i: nat)
    requires i < |nodes|
    ensures nodes[i].kind == JoinKind ==> |JoinIds(nodes[..i])| < |JoinIds(nodes)| && JoinIds(nodes)[|JoinIds(nodes[..i])|] == nodes[i].nodeId
    ensures |JoinIds(nodes[..i + 1])| == |JoinIds(nodes[..i])| + if nodes[i].kind == JoinKind then 1 else 0
  {
    assert nodes[..i + 1][..i] == nodes[..i];
    if i < |nodes| - 1 {
      JoinsListed(nodes[..|nodes| - 1], i);
      assert nodes[..|nodes| - 1][..i] == nodes[..i];
    } else {
      assert nodes[..i + 1] == nodes;
    }
  }

  /** An applied patch: the next revision of the same graph, with the patch's own edges and abandoned branches. */
  lemma NextRevision(current: GraphSpec, patch: GraphPatch, context: PatchContext)
    requires PatchOk(current, patch, context)
    ensures var next := Next(current, patch);
      && next.graphId == current.graphId && next.revision == current.revision + 1 && next.protocol == patch.protocol
      && next.taskContractRef == current.taskContractRef && next.resourcePolicy == current.resourcePolicy && next.graphLimits == current.graphLimits
      && next.typedEdges == patch.typedEdges && next.abandonedBranches == patch.abandonedBranches
      && Buildable(current.nodes, patch) && Arranged(current.nodes, patch, next.nodes) && |next.nodes| > 0
  {
    BuildableIff(current.nodes, patch);
    CandidateArranged(current.nodes, patch);
    hide CandidateNodes, Buildable, Arranged, LockedRespected, AuthorityOk;
  }

  /** A patch that changes or removes a node that is leased, running, verifying, of unknown state or cancelling is never applied. */
  lemma MidFlightStays(current: GraphSpec, patch: GraphPatch, context: PatchContext, i: nat)
    requires i < |context.activeNodes| && context.activeNodes[i].state in {Leased, Running, Verifying, Unknown, Cancelling}
    requires var id := context.activeNodes[i].nodeId; id in patch.removals || Changed(patch.changes, id)
    ensures !PatchOk(current, patch, context)
  {
    assert Locked(context, context.activeNodes[i].nodeId);
    hide CandidateNodes, AuthorityOk, LockedInputsSurvive, NoBindingIntoLocked;
  }

  /** A node in no other state is in the patch's way. */
  lemma OnlyMidFlight(context: PatchContext, id: Id)
    requires forall i :: 0 <= i < |context.activeNodes| && context.activeNodes[i].nodeId == id ==>
      context.activeNodes[i].state in {Pending, ReadyState, Waiting, Succeeded, Failed, Cancelled}
    ensures !Locked(context, id)
  {}
}
