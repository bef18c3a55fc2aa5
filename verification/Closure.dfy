/** The revocation closure: one forward pass over the registry, against reachability along dependencies. */
module Closure {
  import opened Options

  /** What `sameRevision` compares; `content` stands for digest, protocol and scope. */
  datatype Asset = Asset(id: string, revision: int, content: string)

  /** `rest` is everything else the immutable revision holds. */
  datatype Revision = Revision(asset: Asset, dependencies: seq<Asset>, rest: string)

  predicate SameSlot(a: Asset, b: Asset) { a.id == b.id && a.revision == b.revision }

  predicate Registered(revisions: seq<Revision>, a: Asset) { exists i :: 0 <= i < |revisions| && revisions[i].asset == a }

  /** The first revision registered under the asset's id and number. */
  function Previous(revisions: seq<Revision>, a: Asset): Option<Revision> {
    if |revisions| == 0 then None
    else if SameSlot(revisions[0].asset, a) then Some(revisions[0])
    else Previous(revisions[1..], a)
  }

  function CountOf(revisions: seq<Revision>, id: string): nat {
    if |revisions| == 0 then 0 else CountOf(revisions[1..], id) + if revisions[0].asset.id == id then 1 else 0
  }

  /**
   * `stageRevision`: a revision is appended when it is the next of its asset and all it depends on is registered; staging the
   * same one again changes nothing. `formed` and `supported` are the checks before and after, on material and evidence.
   */
  function Stage(revisions: seq<Revision>, input: Revision, formed: bool, supported: bool): Option<seq<Revision>> {
    if !formed then None
    else if Previous(revisions, input.asset).Some? then
      if Previous(revisions, input.asset).value == input then Some(revisions) else None
    else if input.asset.revision != CountOf(revisions, input.asset.id) + 1 then None
    else if exists i :: 0 <= i < |input.dependencies| && !Registered(revisions, input.dependencies[i]) then None
    else if !supported then None
    else Some(revisions + [input])
  }

  datatype Attempt = Attempt(input: Revision, formed: bool, supported: bool)

  /** The registry after any staging attempts; a refused one leaves it as it is. */
  function Staged(attempts: seq<Attempt>): seq<Revision> {
    if |attempts| == 0 then []
    else
      var before, a := Staged(attempts[..|attempts| - 1]), attempts[|attempts| - 1];
      var next := Stage(before, a.input, a.formed, a.supported);
      if next.Some? then next.value else before
  }

  /** The pass: a revision is affected when it is not listed yet and one of its dependencies is. */
  function Pass(revisions: seq<Revision>, root: Asset): seq<Asset> {
    if |revisions| == 0 then [root]
    else
      var affected := Pass(revisions[..|revisions| - 1], root);
      var r := revisions[|revisions| - 1];
      if r.asset !in affected && Touches(r, affected) then affected + [r.asset] else affected
  }

  predicate Touches(r: Revision, affected: seq<Asset>) { exists i :: 0 <= i < |r.dependencies| && r.dependencies[i] in affected }

  method DependentClosure(revisions: seq<Revision>, root: Asset) returns (affected: seq<Asset>)
    ensures affected == Pass(revisions, root)
  {
    affected := [root];
    for i := 0 to |revisions|
      invariant affected == Pass(revisions[..i], root)
    {
      assert revisions[..i + 1][..i] == revisions[..i] && revisions[..i + 1][i] == revisions[i];
      var r := revisions[i];
      if r.asset !in affected && Touches(r, affected) { affected := affected + [r.asset]; }
    }
    assert revisions[..|revisions|] == revisions;
  }

  /** Some registered revision of `a` depends on `d`. */
  predicate Depends(revisions: seq<Revision>, a: Asset, d: Asset) {
    exists i :: 0 <= i < |revisions| && revisions[i].asset == a && d in revisions[i].dependencies
  }

  /** A chain of dependencies from `path[0]` down to the root. */
  predicate Chain(revisions: seq<Revision>, path: seq<Asset>, root: Asset) {
    |path| > 0 && path[|path| - 1] == root && forall k :: 0 <= k < |path| - 1 ==> Depends(revisions, path[k], path[k + 1])
  }

  /** The root, and everything that depends on it directly or through others. */
  ghost predicate Affected(revisions: seq<Revision>, a: Asset, root: Asset) {
    exists path :: Chain(revisions, path, root) && path[0] == a
  }

  /** Dependencies of a registered revision are registered before it, or not at all. */
  predicate InOrder(revisions: seq<Revision>) {
    forall i, j :: 0 <= i <= j < |revisions| ==> revisions[j].asset !in revisions[i].dependencies
  }

  /** Every dependency was registered when its revision was, and no id and number are registered twice. */
  predicate Pinned(revisions: seq<Revision>) {
    && (forall i, d :: 0 <= i < |revisions| && d in revisions[i].dependencies ==> Registered(revisions[..i], d))
    && (forall i, j :: 0 <= i < j < |revisions| ==> !SameSlot(revisions[i].asset, revisions[j].asset))
  }

  lemma {:induction false} NoPrevious(revisions: seq<Revision>, a: Asset)
    requires Previous(revisions, a).None?
    ensures forall i :: 0 <= i < |revisions| ==> !SameSlot(revisions[i].asset, a)
  {
    if |revisions| > 0 {
      NoPrevious(revisions[1..], a);
      forall i | 0 <= i < |revisions| ensures !SameSlot(revisions[i].asset, a) {
        if i > 0 { assert revisions[1..][i - 1] == revisions[i]; }
      }
    }
  }

  /** Staging never breaks it. */
  lemma StagePins(revisions: seq<Revision>, input: Revision, formed: bool, supported: bool)
    requires Pinned(revisions)
    ensures Stage(revisions, input, formed, supported).Some? ==> Pinned(Stage(revisions, input, formed, supported).value)
  {
    var next := Stage(revisions, input, formed, supported);
    if next.Some? && next.value != revisions {
      NoPrevious(revisions, input.asset);
      var more := revisions + [input];
      forall i, d | 0 <= i < |more| && d in more[i].dependencies ensures Registered(more[..i], d) {
        assert more[..i] == revisions[..i];
        if i == |revisions| { assert revisions[..i] == revisions; }
      }
    }
  }

  lemma {:induction false} StagedPinned(attempts: seq<Attempt>)
    ensures Pinned(Staged(attempts))
  {
    if |attempts| > 0 {
      var a := attempts[|attempts| - 1];
      StagedPinned(attempts[..|attempts| - 1]);
      StagePins(Staged(attempts[..|attempts| - 1]), a.input, a.formed, a.supported);
    }
  }

  lemma PinnedInOrder(revisions: seq<Revision>)
    requires Pinned(revisions)
    ensures InOrder(revisions)
  {
    forall i, j, d | 0 <= i <= j < |revisions| && d in revisions[i].dependencies ensures d != revisions[j].asset {
      var k :| 0 <= k < i && revisions[..i][k].asset == d;
      assert !SameSlot(revisions[k].asset, revisions[j].asset);
    }
  }

  /** Sound for any registry: whatever the pass lists is affected; and it lists nothing twice. */
  lemma {:induction false} PassSound(revisions: seq<Revision>, n: nat, root: Asset)
    requires n <= |revisions|
    ensures forall a :: a in Pass(revisions[..n], root) ==> Affected(revisions, a, root)
    ensures forall i, j :: 0 <= i < j < |Pass(revisions[..n], root)| ==> Pass(revisions[..n], root)[i] != Pass(revisions[..n], root)[j]
    ensures root in Pass(revisions[..n], root)
  {
    if n == 0 {
      assert Chain(revisions, [root], root);
    } else {
      PassSound(revisions, n - 1, root);
      assert revisions[..n][..n - 1] == revisions[..n - 1];
      var before, r := Pass(revisions[..n - 1], root), revisions[n - 1];
      if r.asset !in before && Touches(r, before) {
        var i :| 0 <= i < |r.dependencies| && r.dependencies[i] in before;
        var path :| Chain(revisions, path, root) && path[0] == r.dependencies[i];
        Longer(revisions, path, root, r.asset, n - 1);
      }
    }
  }

  lemma Longer(revisions: seq<Revision>, path: seq<Asset>, root: Asset, a: Asset, n: nat)
    requires Chain(revisions, path, root) && n < |revisions| && revisions[n].asset == a && path[0] in revisions[n].dependencies
    ensures Affected(revisions, a, root)
  {
    var longer := [a] + path;
    forall k | 0 <= k < |longer| - 1 ensures Depends(revisions, longer[k], longer[k + 1]) {
      if k > 0 { assert longer[k] == path[k - 1] && longer[k + 1] == path[k]; }
    }
    assert Chain(revisions, longer, root);
  }

  lemma {:induction false} PassGrows(revisions: seq<Revision>, n: nat, m: nat, root: Asset, a: Asset)
    requires n <= m <= |revisions| && a in Pass(revisions[..n], root)
    ensures a in Pass(revisions[..m], root)
    decreases m - n
  {
    if n < m {
      PassGrows(revisions, n, m - 1, root, a);
      assert revisions[..m][..m - 1] == revisions[..m - 1];
    }
  }

  /** Complete when dependencies come first: by the time a revision is reached, its affected dependency is listed. */
  lemma {:induction false} PassComplete(revisions: seq<Revision>, root: Asset, path: seq<Asset>)
    requires InOrder(revisions) && Chain(revisions, path, root)
    ensures path[0] in Pass(revisions, root)
    decreases |path|
  {
    assert revisions[..|revisions|] == revisions;
    if |path| == 1 {
      PassSound(revisions, |revisions|, root);
    } else {
      assert Depends(revisions, path[0], path[1]);
      var i :| 0 <= i < |revisions| && revisions[i].asset == path[0] && path[1] in revisions[i].dependencies;
      var rest := path[1..];
      forall k | 0 <= k < |rest| - 1 ensures Depends(revisions, rest[k], rest[k + 1]) { assert Depends(revisions, path[k + 1], path[k + 1 + 1]); }
      PassComplete(revisions, root, rest);
      Listed(revisions, root, i, path[1]);
      PassGrows(revisions, i + 1, |revisions|, root, path[0]);
    }
  }

  /** A dependency listed in the end was listed before the revision that has it. */
  lemma Listed(revisions: seq<Revision>, root: Asset, i: nat, d: Asset)
    requires InOrder(revisions) && i < |revisions| && d in revisions[i].dependencies && d in Pass(revisions, root)
    ensures revisions[i].asset in Pass(revisions[..i + 1], root)
  {
    assert revisions[..|revisions|] == revisions;
    Early(revisions, root, i, |revisions|, d);
    assert revisions[..i + 1][..i] == revisions[..i];
    var k :| 0 <= k < |revisions[i].dependencies| && revisions[i].dependencies[k] == d;
    assert Touches(revisions[i], Pass(revisions[..i], root));
  }

  lemma {:induction false} Early(revisions: seq<Revision>, root: Asset, i: nat, n: nat, d: Asset)
    requires InOrder(revisions) && i <= n <= |revisions| && i < |revisions| && d in revisions[i].dependencies && d in Pass(revisions[..n], root)
    ensures d in Pass(revisions[..i], root)
    decreases n
  {
    if n > i {
      assert revisions[..n][..n - 1] == revisions[..n - 1];
      assert revisions[n - 1].asset !in revisions[i].dependencies;
      Early(revisions, root, i, n - 1, d);
    }
  }

  /** With dependencies first, the one pass lists exactly the root and everything that depends on it, each once. */
  lemma PassExact(revisions: seq<Revision>, root: Asset)
    requires InOrder(revisions)
    ensures forall a :: a in Pass(revisions, root) <==> Affected(revisions, a, root)
    ensures forall i, j :: 0 <= i < j < |Pass(revisions, root)| ==> Pass(revisions, root)[i] != Pass(revisions, root)[j]
  {
    assert revisions[..|revisions|] == revisions;
    PassSound(revisions, |revisions|, root);
    forall a | Affected(revisions, a, root) ensures a in Pass(revisions, root) {
      var path :| Chain(revisions, path, root) && path[0] == a;
      PassComplete(revisions, root, path);
    }
  }

  /** Whatever was staged, the pass lists exactly the root and everything that depends on it, each once. */
  lemma ClosureExact(attempts: seq<Attempt>, root: Asset)
    ensures var affected := Pass(Staged(attempts), root);
      && (forall a :: a in affected <==> Affected(Staged(attempts), a, root))
      && (forall i, j :: 0 <= i < j < |affected| ==> affected[i] != affected[j])
  {
    StagedPinned(attempts);
    PinnedInOrder(Staged(attempts));
    PassExact(Staged(attempts), root);
  }

  /** A dependent registered before the dependency between it and the root. */
  predicate Backwards(revisions: seq<Revision>, a: Asset, b: Asset, d: Asset) {
    a != b && b != d && a != d && |revisions| == 2 && revisions[0].asset == b && revisions[0].dependencies == [a]
    && revisions[1].asset == a && revisions[1].dependencies == [d]
  }

  lemma BackwardsAffected(revisions: seq<Revision>, a: Asset, b: Asset, d: Asset)
    requires Backwards(revisions, a, b, d)
    ensures Affected(revisions, b, d)
  {
    assert Depends(revisions, b, a) && Depends(revisions, a, d);
    var path := [b, a, d];
    assert Chain(revisions, path, d);
  }

  lemma BackwardsMissed(revisions: seq<Revision>, a: Asset, b: Asset, d: Asset)
    requires Backwards(revisions, a, b, d)
    ensures b !in Pass(revisions, d)
  {
    assert revisions[..1][..0] == [];
    assert Pass(revisions[..1], d) == [d];
  }

  /** Registered before its dependency, a transitive dependent would be missed; no staging leads there. */
  lemma OrderMatters(revisions: seq<Revision>, a: Asset, b: Asset, d: Asset)
    requires Backwards(revisions, a, b, d)
    ensures Affected(revisions, b, d) && b !in Pass(revisions, d)
    ensures forall attempts :: Staged(attempts) != revisions
  {
    BackwardsAffected(revisions, a, b, d);
    BackwardsMissed(revisions, a, b, d);
    hide Pass, Affected, Backwards;
    forall attempts ensures Staged(attempts) != revisions { ClosureExact(attempts, d); }
  }

  // ---- what is staged -----------------------------------------------------------------------------------------------------

  lemma {:induction false} CountAppend(revisions: seq<Revision>, r: Revision, id: string)
    ensures CountOf(revisions + [r], id) == CountOf(revisions, id) + if r.asset.id == id then 1 else 0
  {
    if |revisions| > 0 {
      assert (revisions + [r])[1..] == revisions[1..] + [r];
      CountAppend(revisions[1..], r, id);
    }
  }

  /** The revisions of an asset are numbered from 1 without a gap, in the order they were registered in. */
  predicate Numbered(revisions: seq<Revision>) {
    forall i :: 0 <= i < |revisions| ==> revisions[i].asset.revision == CountOf(revisions[..i], revisions[i].asset.id) + 1
  }

  lemma {:induction false} StagedNumbered(attempts: seq<Attempt>)
    ensures Numbered(Staged(attempts))
  {
    if |attempts| > 0 {
      StagedNumbered(attempts[..|attempts| - 1]);
      var before, next := Staged(attempts[..|attempts| - 1]), Staged(attempts);
      if next != before {
        forall i | 0 <= i < |next| ensures next[i].asset.revision == CountOf(next[..i], next[i].asset.id) + 1 {
          assert next[..i] == before[..i];
          if i == |before| { assert before[..i] == before; }
        }
      }
    }
  }

  /**
   * On whatever was staged: the same revision again changes nothing; another one is appended exactly when it is the next
   * of its asset, all it depends on is registered, and both checks pass; anything else is refused. Nothing is ever replaced.
   */
  lemma StageIff(attempts: seq<Attempt>, input: Revision, formed: bool, supported: bool)
    ensures var revisions := Staged(attempts);
      Stage(revisions, input, formed, supported) ==
        if formed && input in revisions then Some(revisions)
        else if formed && supported && input.asset.revision == CountOf(revisions, input.asset.id) + 1
             && (forall i :: 0 <= i < |revisions| ==> !SameSlot(revisions[i].asset, input.asset))
             && (forall i :: 0 <= i < |input.dependencies| ==> exists k :: 0 <= k < |revisions| && revisions[k].asset == input.dependencies[i])
        then Some(revisions + [input]) else None
  {
    var revisions := Staged(attempts);
    StagedPinned(attempts);
    if Previous(revisions, input.asset).None? {
      NoPrevious(revisions, input.asset);
      assert forall i :: 0 <= i < |revisions| ==> revisions[i] != input;
    } else {
      var i := SomePrevious(revisions, input.asset);
      if input in revisions {
        var j :| 0 <= j < |revisions| && revisions[j] == input;
        assert i == j;
      }
    }
  }

  lemma {:induction false} SomePrevious(revisions: seq<Revision>, a: Asset) returns (i: nat)
    requires Previous(revisions, a).Some?
    ensures i < |revisions| && Previous(revisions, a).value == revisions[i] && SameSlot(revisions[i].asset, a)
  {
    if SameSlot(revisions[0].asset, a) {
      i := 0;
    } else {
      i := SomePrevious(revisions[1..], a);
      i := i + 1;
    }
  }
}
