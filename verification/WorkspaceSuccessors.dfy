/** What the search for a known successor finds in the runs of the protocol. */
module WorkspaceSuccessors {
  import opened Options
  import Observations
  import opened Workspace
  import opened WorkspaceLocks
  import opened WorkspaceData
  import opened WorkspaceRuns

  predicate Tallies(a: Confirmed, m: Move) { a == Confirmed(m.key, m.before, m.after) }

  lemma AppliedMove(applied: seq<Confirmed>, receipts: map<Key, Status>, moves: seq<Move>, i: nat) returns (p: nat)
    requires AppliedOk(applied, receipts, moves) && i < |applied|
    ensures p < |moves| && Tallies(applied[i], moves[p])
  {
    assert Moved(moves, applied[i].key);
    p :| 0 <= p < |moves| && moves[p].key == applied[i].key;
  }

  lemma MoveOrder(applied: seq<Confirmed>, receipts: map<Key, Status>, moves: seq<Move>, i: nat, j: nat, p: nat, q: nat)
    requires AppliedOk(applied, receipts, moves) && i < j < |applied| && p < |moves| && q < |moves|
    requires Tallies(applied[i], moves[p]) && Tallies(applied[j], moves[q])
    ensures p < q
  {}

  /** Applied receipts are committed in the order in which their effects moved HEAD, and say what those did. */
  lemma AppliedInOrder(c: Config, base: Base, steps: seq<Step>, i: nat, j: nat)
    requires Trusted(c) && i < j < |After(c, base, steps).disk.applied|
    ensures var d := After(c, base, steps).disk;
      exists p, q :: 0 <= p < q < |d.moves| && Tallies(d.applied[i], d.moves[p]) && Tallies(d.applied[j], d.moves[q])
  {
    Reached(c, base, steps);
    hide After, LocksOk, CallsOk, AppliedOk, Tallies;
    var d := After(c, base, steps).disk;
    var p := AppliedMove(d.applied, d.receipts, d.moves, i);
    var q := AppliedMove(d.applied, d.receipts, d.moves, j);
    MoveOrder(d.applied, d.receipts, d.moves, i, j, p, q);
  }

  // ---- the applications the search looks at ---------------------------------------------------------------------

  predicate Others(c: Config, key: Key, other: Key) { other != key && c.session(other) == c.session(key) }

  lemma {:induction false} OnwardPrefix(c: Config, applied: seq<Confirmed>, key: Key, n: nat)
    requires n <= |applied|
    ensures Onward(c, applied[..n], key) <= Onward(c, applied, key)
    decreases |applied|
  {
    if n < |applied| {
      assert applied[..|applied| - 1][..n] == applied[..n];
      OnwardPrefix(c, applied[..|applied| - 1], key, n);
    } else {
      assert applied[..n] == applied;
    }
  }

  /** Where an application of another effect of the session stands among those the search looks at. */
  function Place(c: Config, applied: seq<Confirmed>, key: Key, i: nat): nat
    requires i <= |applied|
  {
    |Onward(c, applied[..i], key)|
  }

  lemma Placed(c: Config, applied: seq<Confirmed>, key: Key, i: nat)
    requires i < |applied| && Others(c, key, applied[i].key)
    ensures Place(c, applied, key, i) < |Onward(c, applied, key)|
    ensures Onward(c, applied, key)[Place(c, applied, key, i)] == Observations.Link(applied[i].before, applied[i].after)
  {
    assert applied[..i + 1][..i] == applied[..i];
    OnwardPrefix(c, applied, key, i + 1);
  }

  lemma PlacesInOrder(c: Config, applied: seq<Confirmed>, key: Key, i: nat, j: nat)
    requires i < j < |applied| && Others(c, key, applied[i].key)
    ensures Place(c, applied, key, i) < Place(c, applied, key, j)
  {
    assert applied[..j][..i + 1] == applied[..i + 1] && applied[..i + 1][..i] == applied[..i];
    OnwardPrefix(c, applied[..j], key, i + 1);
  }

  lemma {:induction false} OnwardFrom(c: Config, applied: seq<Confirmed>, key: Key, l: nat) returns (i: nat)
    requires l < |Onward(c, applied, key)|
    ensures i < |applied| && Others(c, key, applied[i].key) && Place(c, applied, key, i) == l
    ensures Onward(c, applied, key)[l] == Observations.Link(applied[i].before, applied[i].after)
  {
    var init := applied[..|applied| - 1];
    if l < |Onward(c, init, key)| {
      i := OnwardFrom(c, init, key, l);
      assert init[..i] == applied[..i];
    } else {
      i := |applied| - 1;
    }
  }

  /** Move `q` is another effect's of the session, and its receipt was applied. */
  predicate Listed(c: Config, applied: seq<Confirmed>, key: Key, m: Move) {
    Others(c, key, m.key) && Confirmed(m.key, m.before, m.after) in applied
  }

  /** HEAD was led on from where move `p` left it, through every move up to `e`, each a listed one leaving where the one before it arrived. */
  predicate LedOn(c: Config, applied: seq<Confirmed>, key: Key, moves: seq<Move>, p: nat, e: nat) {
    p <= e < |moves| && forall q :: p < q <= e ==> moves[q].before == moves[q - 1].after && Listed(c, applied, key, moves[q])
  }

  /** The links the search looks at leave different bases, none of them the one HEAD was seen on. */
  lemma LinksLeftOnce(c: Config, d: Disk, key: Key, current: Base)
    requires BasesOk(d.head, d.past, d.used, d.made, d.moves) && AppliedOk(d.applied, d.receipts, d.moves) && Seen(d.made, d.moves, current)
    ensures Observations.LeftOnce(Onward(c, d.applied, key), current, SameBase)
  {
    var links := Onward(c, d.applied, key);
    hide AppliedOk, Onward, Others;
    forall l | 0 <= l < |links| ensures !SameBase(links[l].before, current) {
      var i := OnwardFrom(c, d.applied, key, l);
      var p := AppliedMove(d.applied, d.receipts, d.moves, i);
      assert d.moves[p].before == links[l].before;
    }
    forall l, m | 0 <= l < m < |links| ensures !SameBase(links[l].before, links[m].before) {
      var i := OnwardFrom(c, d.applied, key, l);
      var j := OnwardFrom(c, d.applied, key, m);
      if j < i { PlacesInOrder(c, d.applied, key, j, i); }
      var p := AppliedMove(d.applied, d.receipts, d.moves, i);
      var q := AppliedMove(d.applied, d.receipts, d.moves, j);
      MoveOrder(d.applied, d.receipts, d.moves, i, j, p, q);
      assert d.moves[p].before != d.moves[q].before;
    }
  }

  /** What leaves the base a move arrived at is the next move. */
  lemma NextLeaves(d: Disk, p: nat, q: nat)
    requires BasesOk(d.head, d.past, d.used, d.made, d.moves) && p < |d.moves| && q < |d.moves| && d.moves[p].after == d.moves[q].before
    ensures q == p + 1
  {}

  /** The move behind one link of a chain is the one after that of the link before it. */
  lemma LinkLeads(c: Config, d: Disk, key: Key, p: nat, l: nat)
    requires BasesOk(d.head, d.past, d.used, d.made, d.moves) && AppliedOk(d.applied, d.receipts, d.moves) && p < |d.moves|
    requires l < |Onward(c, d.applied, key)| && Onward(c, d.applied, key)[l].before == d.moves[p].after
    ensures p + 1 < |d.moves| && d.moves[p + 1].before == d.moves[p].after && d.moves[p + 1].after == Onward(c, d.applied, key)[l].after
    ensures Listed(c, d.applied, key, d.moves[p + 1])
  {
    hide AppliedOk, Onward, Others, BasesOk;
    var i := OnwardFrom(c, d.applied, key, l);
    var q := AppliedMove(d.applied, d.receipts, d.moves, i);
    NextLeaves(d, p, q);
  }

  lemma LedFurther(c: Config, applied: seq<Confirmed>, key: Key, moves: seq<Move>, p: nat, e: nat)
    requires LedOn(c, applied, key, moves, p, e) && e + 1 < |moves|
    requires moves[e + 1].before == moves[e].after && Listed(c, applied, key, moves[e + 1])
    ensures LedOn(c, applied, key, moves, p, e + 1)
  {
    hide Listed;
  }

  lemma ChainLink(links: seq<Observations.Link<Base>>, start: Base, path: seq<nat>, k: nat)
    requires Observations.Chain(links, start, path, SameBase) && k < |path|
    ensures path[k] < |links| && links[path[k]].before == Observations.Reached(links, start, path, k)
  {
    if k > 0 { assert SameBase(links[path[k - 1]].after, links[path[k - 1 + 1]].before); }
  }

  /** A chain of links is a stretch of moves, one after the other. */
  lemma {:induction false} ChainLeads(c: Config, d: Disk, key: Key, p: nat, path: seq<nat>, k: nat)
    requires BasesOk(d.head, d.past, d.used, d.made, d.moves) && AppliedOk(d.applied, d.receipts, d.moves)
    requires p < |d.moves| && k <= |path| && Observations.Chain(Onward(c, d.applied, key), d.moves[p].after, path, SameBase)
    ensures LedOn(c, d.applied, key, d.moves, p, p + k)
    ensures Observations.Reached(Onward(c, d.applied, key), d.moves[p].after, path, k) == d.moves[p + k].after
  {
    hide AppliedOk, Onward, Others, BasesOk, Listed;
    if k > 0 {
      var links := Onward(c, d.applied, key);
      ChainLeads(c, d, key, p, path, k - 1);
      ChainLink(links, d.moves[p].after, path, k - 1);
      LinkLeads(c, d, key, p + k - 1, path[k - 1]);
      LedFurther(c, d.applied, key, d.moves, p, p + k - 1);
    }
  }

  /** A stretch of listed moves is a chain of links, the last of them that of the last move. */
  lemma {:induction false} LeadsChain(c: Config, d: Disk, key: Key, p: nat, e: nat) returns (path: seq<nat>, i: nat)
    requires MovesOk(d.moves, d.dispatched) && AppliedOk(d.applied, d.receipts, d.moves)
    requires p < e && LedOn(c, d.applied, key, d.moves, p, e)
    ensures Observations.Chain(Onward(c, d.applied, key), d.moves[p].after, path, SameBase)
    ensures i < |d.applied| && Tallies(d.applied[i], d.moves[e]) && path[|path| - 1] == Place(c, d.applied, key, i)
    ensures Observations.End(Onward(c, d.applied, key), path) == d.moves[e].after
    decreases e
  {
    hide AppliedOk, Onward, Place;
    assert Listed(c, d.applied, key, d.moves[e]);
    var last := Confirmed(d.moves[e].key, d.moves[e].before, d.moves[e].after);
    assert last in d.applied;
    i :| 0 <= i < |d.applied| && d.applied[i] == last;
    Placed(c, d.applied, key, i);
    if e == p + 1 {
      path := [Place(c, d.applied, key, i)];
    } else {
      var before, j := LeadsChain(c, d, key, p, e - 1);
      assert d.moves[e - 1].key != d.moves[e].key && Listed(c, d.applied, key, d.moves[e - 1]);
      if i < j { MoveOrder(d.applied, d.receipts, d.moves, i, j, e, e - 1); }
      PlacesInOrder(c, d.applied, key, j, i);
      path := before + [Place(c, d.applied, key, i)];
      LongerChain(Onward(c, d.applied, key), d.moves[p].after, before, Place(c, d.applied, key, i));
    }
  }

  lemma LongerChain(links: seq<Observations.Link<Base>>, start: Base, path: seq<nat>, l: nat)
    requires Observations.Chain(links, start, path, SameBase) && path[|path| - 1] < l < |links|
    requires Observations.End(links, path) == links[l].before
    ensures Observations.Chain(links, start, path + [l], SameBase)
  {
    var longer := path + [l];
    forall k | 0 <= k < |longer| - 1 ensures SameBase(links[longer[k]].after, links[longer[k + 1]].before) {
      if k < |path| - 1 { assert SameBase(links[path[k]].after, links[path[k + 1]].before); }
    }
  }

  ghost predicate LedTo(c: Config, d: Disk, key: Key, p: nat, current: Base) {
    exists e :: p < e && LedOn(c, d.applied, key, d.moves, p, e) && d.moves[e].after == current
  }

  ghost predicate ChainTo(links: seq<Observations.Link<Base>>, after: Base, current: Base) {
    exists path :: Observations.Chain(links, after, path, SameBase) && SameBase(Observations.End(links, path), current)
  }

  lemma ChainToLedTo(c: Config, d: Disk, key: Key, p: nat, current: Base)
    requires BasesOk(d.head, d.past, d.used, d.made, d.moves) && MovesOk(d.moves, d.dispatched) && AppliedOk(d.applied, d.receipts, d.moves)
    requires p < |d.moves|
    ensures ChainTo(Onward(c, d.applied, key), d.moves[p].after, current) <==> LedTo(c, d, key, p, current)
  {
    hide AppliedOk, Onward, BasesOk, MovesOk, Listed;
    var links, after := Onward(c, d.applied, key), d.moves[p].after;
    if ChainTo(links, after, current) {
      var path :| Observations.Chain(links, after, path, SameBase) && SameBase(Observations.End(links, path), current);
      ChainLeads(c, d, key, p, path, |path|);
    }
    if LedTo(c, d, key, p, current) {
      var e :| p < e && LedOn(c, d.applied, key, d.moves, p, e) && d.moves[e].after == current;
      var path, i := LeadsChain(c, d, key, p, e);
    }
  }

  lemma SameBases()
    ensures Observations.Equivalence(SameBase)
  {}

  /** The search says yes exactly when listed moves, and nothing else, led HEAD on from where the effect left it. */
  lemma SearchIff(c: Config, d: Disk, key: Key, r: Record, current: Base, p: nat)
    requires BasesOk(d.head, d.past, d.used, d.made, d.moves) && MovesOk(d.moves, d.dispatched) && AppliedOk(d.applied, d.receipts, d.moves)
    requires Seen(d.made, d.moves, current) && p < |d.moves|
    requires r.completed == Some(Applied) && r.after == Some(d.moves[p].after)
    ensures KnownSuccessor(c, d.applied, key, r, current) <==> LedTo(c, d, key, p, current)
  {
    hide AppliedOk, Onward, BasesOk, MovesOk, LedTo, Seen, Observations.LeftOnce, Observations.Chain, Observations.Follow, Observations.Equivalence;
    LinksLeftOnce(c, d, key, current);
    SameBases();
    Observations.SuccessorIff(Onward(c, d.applied, key), d.moves[p].after, current, SameBase);
    ChainToLedTo(c, d, key, p, current);
  }

  /**
   * A reconciliation that finds its effect recorded as applied takes the successor for known exactly when HEAD came to where it
   * was seen from the effect's own target by moves of the session's other effects alone, each with its receipt applied.
   */
  lemma SuccessorExact(c: Config, base: Base, steps: seq<Step>, tid: Tid)
    requires Trusted(c)
    requires var s := After(c, base, steps); tid in s.locks.seats && tid in s.work && s.locks.seats[tid].stage.Working? && s.work[tid].pc.QDecide?
    requires var s := After(c, base, steps); s.work[tid].key in s.disk.records && s.disk.records[s.work[tid].key].completed == Some(Applied)
    ensures var d, t := After(c, base, steps).disk, After(c, base, steps).work[tid];
      exists p :: 0 <= p < |d.moves| && d.moves[p].key == t.key
        && (KnownSuccessor(c, d.applied, t.key, d.records[t.key], t.current) <==> LedTo(c, d, t.key, p, t.current))
  {
    Reached(c, base, steps);
    var s := After(c, base, steps);
    hide After, LocksOk, BasesOk, FenceOk, MovesOk, AppliedOk, ReceiptsOk, KnownSuccessor, LedTo, Seen;
    var d, t := s.disk, s.work[tid];
    assert Seen(d.made, d.moves, t.current);
    var p :| 0 <= p < |d.moves| && d.moves[p].key == t.key;
    assert Tells(d.records[t.key], d.moves[p]);
    SearchIff(c, d, t.key, d.records[t.key], t.current, p);
  }
}
