/** `knownSuccessor`: whether the applications confirmed after an effect's own account for the HEAD of today. */
module Observations {
  import opened Options

  datatype Result<+T> = Ok(value: T) | Err(reason: string)

  datatype Base = Base(workspaceId: string, revision: string, digest: string, isolation: string)
  datatype Application = Application(effectId: string, applied: bool, before: Base, after: Option<Base>)

  /** A receipt of the session in commit order, with what reading its application artifact gives. */
  datatype Row = Row(receiptId: string, effectId: string, completed: bool, artifact: Option<Result<Application>>)

  /** One confirmed move from base to base. */
  datatype Link<+B> = Link(before: B, after: B)

  predicate Same(a: Base, b: Base) { a.workspaceId == b.workspaceId && a.revision == b.revision && a.digest == b.digest }

  predicate Counts(row: Row, applied: set<string>, own: string) {
    row.receiptId in applied && row.completed && row.effectId != own && row.artifact.Some?
  }

  /** What one counted row says happened; a row that is unreadable or says otherwise stops the search. */
  function LinkOf(row: Row): Result<Link<Base>>
    requires row.artifact.Some?
  {
    match row.artifact.value
    case Err(reason) => Err(reason)
    case Ok(next) =>
      if next.effectId != row.effectId || !next.applied || next.after.None? then Err("mismatch") else Ok(Link(next.before, next.after.value))
  }

  /** The confirmed applications of the other effects, in commit order. */
  function Links(rows: seq<Row>, applied: set<string>, own: string): Result<seq<Link<Base>>> {
    if |rows| == 0 then Ok([])
    else
      match Links(rows[..|rows| - 1], applied, own)
      case Err(reason) => Err(reason)
      case Ok(links) =>
        if !Counts(rows[|rows| - 1], applied, own) then Ok(links)
        else
          match LinkOf(rows[|rows| - 1])
          case Err(reason) => Err(reason)
          case Ok(link) => Ok(links + [link])
  }

  /** One pass that follows each link leaving the base reached so far. */
  function Follow<B>(links: seq<Link<B>>, start: B, same: (B, B) -> bool): B {
    if |links| == 0 then start
    else
      var cursor := Follow(links[..|links| - 1], start, same);
      if same(cursor, links[|links| - 1].before) then links[|links| - 1].after else cursor
  }

  lemma {:induction false} LinksStuck(rows: seq<Row>, applied: set<string>, own: string, k: nat)
    requires k <= |rows| && Links(rows[..k], applied, own).Err?
    ensures Links(rows, applied, own) == Links(rows[..k], applied, own)
    decreases |rows| - k
  {
    if k < |rows| {
      assert rows[..k + 1][..k] == rows[..k];
      LinksStuck(rows, applied, own, k + 1);
    } else { assert rows[..k] == rows; }
  }

  /** `after` is the recorded target when the record is completed as `applied`. */
  method KnownSuccessor(after: Option<Base>, own: string, rows: seq<Row>, applied: set<string>, current: Base) returns (r: Result<bool>)
    ensures after.None? ==> r == Ok(false)
    ensures after.Some? && Links(rows, applied, own).Err? ==> r == Err(Links(rows, applied, own).reason)
    ensures after.Some? && Links(rows, applied, own).Ok? ==>
      var reached := Follow(Links(rows, applied, own).value, after.value, Same);
      r == Ok(Same(reached, current) && reached != after.value)
  {
    if after.None? { return Ok(false); }
    var cursor := after.value;
    ghost var links: seq<Link<Base>> := [];
    for i := 0 to |rows|
      invariant Links(rows[..i], applied, own) == Ok(links) && cursor == Follow(links, after.value, Same)
    {
      assert rows[..i + 1][..i] == rows[..i] && rows[..i + 1][i] == rows[i];
      var row := rows[i];
      if !(row.receiptId in applied) || !row.completed || row.effectId == own { continue; }
      if row.artifact.None? { continue; }
      if row.artifact.value.Err? { LinksStuck(rows, applied, own, i + 1); return Err(row.artifact.value.reason); }
      var next := row.artifact.value.value;
      if next.effectId != row.effectId || !next.applied || next.after.None? {
        LinksStuck(rows, applied, own, i + 1);
        return Err("mismatch");
      }
      ghost var link := Link(next.before, next.after.value);
      assert (links + [link])[..|links|] == links;
      links := links + [link];
      if Same(cursor, next.before) { cursor := next.after.value; }
    }
    assert rows[..|rows|] == rows;
    return Ok(Same(cursor, current) && cursor != after.value);
  }

  // ---- the pass, whatever the bases are ---------------------------------------------------------------------------

  ghost predicate Equivalence<B(!new)>(same: (B, B) -> bool) {
    && (forall a :: same(a, a))
    && (forall a, b :: same(a, b) ==> same(b, a))
    && (forall a, b, c :: same(a, b) && same(b, c) ==> same(a, c))
  }

  lemma Transitive<B(!new)>(same: (B, B) -> bool, a: B, b: B, c: B)
    requires Equivalence(same)
    ensures (same(a, b) || same(b, a)) && same(b, c) ==> same(a, c)
    ensures same(a, a)
  {}

  /** A chain of links, in order, each leaving the base the one before it reached. */
  predicate Chain<B>(links: seq<Link<B>>, start: B, path: seq<nat>, same: (B, B) -> bool) {
    && |path| > 0 && (forall k :: 0 <= k < |path| ==> path[k] < |links|)
    && (forall k, l :: 0 <= k < l < |path| ==> path[k] < path[l])
    && same(start, links[path[0]].before)
    && (forall k :: 0 <= k < |path| - 1 ==> same(links[path[k]].after, links[path[k + 1]].before))
  }

  function End<B>(links: seq<Link<B>>, path: seq<nat>): B
    requires |path| > 0 && path[|path| - 1] < |links|
  {
    links[path[|path| - 1]].after
  }

  lemma ChainMore<B>(links: seq<Link<B>>, start: B, path: seq<nat>, same: (B, B) -> bool)
    requires |links| > 0 && (path != [] ==> Chain(links[..|links| - 1], start, path, same))
    requires same(if path == [] then start else End(links[..|links| - 1], path), links[|links| - 1].before)
    ensures Chain(links, start, path + [|links| - 1], same) && End(links, path + [|links| - 1]) == links[|links| - 1].after
  {
    var n := |links| - 1;
    var longer := path + [n];
    forall k | 0 <= k < |longer| - 1 ensures same(links[longer[k]].after, links[longer[k + 1]].before) {
      if k < |path| - 1 { assert same(links[..n][path[k]].after, links[..n][path[k + 1]].before); }
    }
  }

  lemma ChainWider<B>(links: seq<Link<B>>, start: B, path: seq<nat>, same: (B, B) -> bool)
    requires |links| > 0 && Chain(links[..|links| - 1], start, path, same)
    ensures Chain(links, start, path, same) && End(links, path) == End(links[..|links| - 1], path)
  {
    forall k | 0 <= k < |path| - 1 ensures same(links[path[k]].after, links[path[k + 1]].before) {
      assert same(links[..|links| - 1][path[k]].after, links[..|links| - 1][path[k + 1]].before);
    }
  }

  /** Sound: where the pass arrives is where it began, or the end of a chain of confirmed applications. */
  lemma {:induction false} FollowSound<B>(links: seq<Link<B>>, start: B, same: (B, B) -> bool) returns (path: seq<nat>)
    ensures path == [] ==> Follow(links, start, same) == start
    ensures path != [] ==> Chain(links, start, path, same) && Follow(links, start, same) == End(links, path)
  {
    path := [];
    if |links| > 0 {
      var n := |links| - 1;
      path := FollowSound(links[..n], start, same);
      hide Chain, End;
      if same(Follow(links[..n], start, same), links[n].before) {
        ChainMore(links, start, path, same);
        path := path + [n];
      } else if path != [] {
        ChainWider(links, start, path, same);
      }
    }
  }

  /** Each base is left by at most one confirmed application, and the present one by none. */
  predicate LeftOnce<B>(links: seq<Link<B>>, current: B, same: (B, B) -> bool) {
    && (forall i, j :: 0 <= i < j < |links| ==> !same(links[i].before, links[j].before))
    && (forall i :: 0 <= i < |links| ==> !same(links[i].before, current))
  }

  /** Where the chain has got to, `k` of its steps done. */
  function Reached<B>(links: seq<Link<B>>, start: B, path: seq<nat>, k: nat): B
    requires k <= |path| && forall i :: 0 <= i < |path| ==> path[i] < |links|
  {
    if k == 0 then start else links[path[k - 1]].after
  }

  /** The next link of the chain leaves where the chain has got to. */
  lemma ReachedIsLeft<B>(links: seq<Link<B>>, start: B, path: seq<nat>, same: (B, B) -> bool, k: nat)
    requires Chain(links, start, path, same) && k < |path|
    ensures same(Reached(links, start, path, k), links[path[k]].before)
  {
    if k > 0 { assert same(links[path[k - 1]].after, links[path[k - 1 + 1]].before); }
  }

  /** A link that is not the chain's next one leaves another base. */
  lemma StaysBehind<B(!new)>(links: seq<Link<B>>, start: B, path: seq<nat>, current: B, same: (B, B) -> bool, m: nat, k: nat)
    requires Equivalence(same) && Chain(links, start, path, same) && LeftOnce(links, current, same) && same(End(links, path), current)
    requires m < |links| && k <= |path| && (k < |path| ==> m < path[k])
    ensures !same(Reached(links, start, path, k), links[m].before)
  {
    if k < |path| {
      ReachedIsLeft(links, start, path, same, k);
      assert !same(links[m].before, links[path[k]].before);
    } else {
      assert !same(links[m].before, current);
    }
  }

  /** Complete: a chain that is there is followed to its end. */
  lemma {:induction false} FollowComplete<B(!new)>(links: seq<Link<B>>, start: B, path: seq<nat>, current: B, same: (B, B) -> bool, n: nat, k: nat)
    requires Equivalence(same) && n <= |links| && k <= |path|
    requires Chain(links, start, path, same) && LeftOnce(links, current, same) && same(End(links, path), current)
    requires (forall i :: 0 <= i < k ==> path[i] < n) && (forall i :: k <= i < |path| ==> path[i] >= n)
    ensures same(Follow(links[..n], start, same), Reached(links, start, path, k))
    decreases n
  {
    hide Equivalence, LeftOnce;
    if n > 0 {
      assert links[..n][..n - 1] == links[..n - 1];
      var m := n - 1;
      if k > 0 && path[k - 1] == m {
        FollowComplete(links, start, path, current, same, m, k - 1);
        ReachedIsLeft(links, start, path, same, k - 1);
        Transitive(same, Follow(links[..m], start, same), Reached(links, start, path, k - 1), links[m].before);
        Transitive(same, links[m].after, links[m].after, links[m].after);
      } else {
        FollowComplete(links, start, path, current, same, m, k);
        StaysBehind(links, start, path, current, same, m, k);
        Transitive(same, Reached(links, start, path, k), Follow(links[..m], start, same), links[m].before);
      }
    } else {
      Transitive(same, start, start, start);
    }
  }

  /**
   * While no base is left twice and HEAD stands on a base no listed application left, the pass says yes exactly
   * when a chain of confirmed applications leads from the recorded target to HEAD in commit order.
   */
  lemma SuccessorIff<B(!new)>(links: seq<Link<B>>, after: B, current: B, same: (B, B) -> bool)
    requires Equivalence(same) && LeftOnce(links, current, same)
    ensures same(Follow(links, after, same), current) && Follow(links, after, same) != after <==>
            exists path :: Chain(links, after, path, same) && same(End(links, path), current)
  {
    var path := FollowSound(links, after, same);
    if exists p :: Chain(links, after, p, same) && same(End(links, p), current) {
      var p :| Chain(links, after, p, same) && same(End(links, p), current);
      FollowComplete(links, after, p, current, same, |links|, |p|);
      assert links[..|links|] == links;
      assert !same(links[p[0]].before, current);
    }
  }

  /** The order matters: committed in another order than they happened, two applications would be missed in one pass. */
  lemma OutOfOrderMissed<B(!new)>(a: B, b: B, d: B, same: (B, B) -> bool)
    requires Equivalence(same) && !same(a, b) && !same(b, d) && !same(a, d)
    ensures Follow([Link(a, b), Link(b, d)], a, same) == d
    ensures !same(Follow([Link(b, d), Link(a, b)], a, same), d)
  {
    assert [Link(a, b), Link(b, d)][..1] == [Link(a, b)] && [Link(a, b)][..0] == [];
    assert [Link(b, d), Link(a, b)][..1] == [Link(b, d)] && [Link(b, d)][..0] == [];
    assert Follow([Link(a, b)], a, same) == b;
    assert Follow([Link(b, d)], a, same) == a;
  }

  // ---- which rows are links -----------------------------------------------------------------------------------------------

  /** The row is of an applied, completed receipt of another effect, with an application to read. */
  predicate Tells(row: Row, applied: set<string>, own: string) {
    row.receiptId in applied && row.completed && row.effectId != own && row.artifact.Some?
  }

  /** And what it says is readable, of its own effect, and of an application that got somewhere. */
  predicate Clear(row: Row) {
    row.artifact.Some? && row.artifact.value.Ok? && row.artifact.value.value.effectId == row.effectId
    && row.artifact.value.value.applied && row.artifact.value.value.after.Some?
  }

  /** How many of the first `i` rows tell something. */
  function Telling(rows: seq<Row>, applied: set<string>, own: string, i: nat): nat
    requires i <= |rows|
  {
    if i == 0 then 0 else Telling(rows, applied, own, i - 1) + if Tells(rows[i - 1], applied, own) then 1 else 0
  }

  lemma {:induction false} TellingSame(rows: seq<Row>, applied: set<string>, own: string, n: nat, i: nat)
    requires i <= n <= |rows|
    ensures Telling(rows[..n], applied, own, i) == Telling(rows, applied, own, i)
  { if i > 0 { TellingSame(rows, applied, own, n, i - 1); } }

  ghost predicate Stands(rows: seq<Row>, applied: set<string>, own: string, links: seq<Link<Base>>, i: nat)
    requires i < |rows|
  {
    Tells(rows[i], applied, own) ==>
      var at := Telling(rows, applied, own, i);
      at < |links| && Clear(rows[i]) && links[at] == Link(rows[i].artifact.value.value.before, rows[i].artifact.value.value.after.value)
  }

  lemma LinksStep(rows: seq<Row>, applied: set<string>, own: string)
    requires |rows| > 0 && Links(rows[..|rows| - 1], applied, own).Ok?
    ensures var last, before, r := rows[|rows| - 1], Links(rows[..|rows| - 1], applied, own).value, Links(rows, applied, own);
      && (r.Ok? <==> (Tells(last, applied, own) ==> Clear(last)))
      && (r.Ok? ==> r.value == if Tells(last, applied, own) then before + [Link(last.artifact.value.value.before, last.artifact.value.value.after.value)]
                              else before)
  {}

  /** The search can be made exactly when every row that tells something is clear; its links are then those rows', in order. */
  lemma {:induction false} LinksAre(rows: seq<Row>, applied: set<string>, own: string)
    ensures Links(rows, applied, own).Ok? <==> forall i :: 0 <= i < |rows| && Tells(rows[i], applied, own) ==> Clear(rows[i])
    ensures Links(rows, applied, own).Ok? ==>
      var links := Links(rows, applied, own).value;
      |links| == Telling(rows, applied, own, |rows|) && forall i :: 0 <= i < |rows| ==> Stands(rows, applied, own, links, i)
  {
    if |rows| > 0 {
      var n := |rows| - 1;
      LinksAre(rows[..n], applied, own);
      TellingSame(rows, applied, own, n, n);
      assert forall i :: 0 <= i < n ==> rows[..n][i] == rows[i];
      hide Tells, Clear;
      if Links(rows[..n], applied, own).Ok? {
        LinksStep(rows, applied, own);
        if Links(rows, applied, own).Ok? {
          hide Links;
          var before, links := Links(rows[..n], applied, own).value, Links(rows, applied, own).value;
          forall i | 0 <= i < |rows| ensures Stands(rows, applied, own, links, i) {
            if i < n {
              TellingSame(rows, applied, own, n, i);
              assert Stands(rows[..n], applied, own, before, i);
            }
          }
        }
      }
    }
  }
}
