/**
 * The invariant of the iterative strongly-connected-components search, clause by clause.
 *
 * `index`, `low`, `stack` and `work` (with its cursors) are the algorithm's own variables. Three ghosts
 * stand beside them: `cur` (how many neighbours of a discovered node were looked at), `open` (the nodes
 * on the work stack) and `compOf` (the position of the component that took a node).
 */
module TarjanState {
  import opened Walks

  /** Every discovered node is either stacked, in discovery order, or settled in a component. */
  ghost predicate Shape<T(!new)>(index: map<T, int>, next: int, stack: seq<T>, compOf: map<T, nat>) {
    && 0 <= next
    && (forall v :: v in index ==> 0 <= index[v] < next)
    && (forall i :: 0 <= i < |stack| ==> stack[i] in index)
    && (forall i, j :: 0 <= i < j < |stack| ==> index[stack[i]] < index[stack[j]])
    && (forall v :: v in index ==> (v in compOf <==> v !in stack))
    && (forall v :: v in compOf ==> v in index)
  }

  /** The components are nonempty and duplicate-free, and `compOf` says who is where. */
  ghost predicate Grouped<T(!new)>(comps: seq<seq<T>>, compOf: map<T, nat>) {
    && (forall v :: v in compOf ==> compOf[v] < |comps| && v in comps[compOf[v]])
    && (forall c, v :: 0 <= c < |comps| && v in comps[c] ==> v in compOf && compOf[v] == c)
    && (forall c :: 0 <= c < |comps| ==> comps[c] != [])
    && (forall c, i, j :: 0 <= c < |comps| && 0 <= i < j < |comps[c]| ==> comps[c][i] != comps[c][j])
  }

  /** Settled nodes lead only to components settled no later, and reach all of their own. */
  ghost predicate Settled<T(!new)>(adj: map<T, seq<T>>, compOf: map<T, nat>) {
    && (forall u, n :: u in compOf && n in Neighbours(adj, u) ==> n in compOf && compOf[n] <= compOf[u])
    && (forall u, v :: u in compOf && v in compOf && compOf[u] == compOf[v] ==> Reach(adj, u, v))
  }

  /** The open nodes are stacked in discovery order, the first one at the bottom of the stack. */
  ghost predicate Frames<T(!new)>(index: map<T, int>, stack: seq<T>, work: seq<T>, open: set<T>) {
    && (forall v :: v in open ==> v in work)
    && (forall i :: 0 <= i < |work| ==> work[i] in open && work[i] in stack && work[i] in index)
    && (forall i, j :: 0 <= i < j < |work| && work[i] in index && work[j] in index ==> index[work[i]] < index[work[j]])
    && (|stack| == 0 <==> |work| == 0)
    && (|work| != 0 && |stack| != 0 ==> work[0] == stack[0])
  }

  /** Cursors stay in range; whatever is not open was looked at in full. */
  ghost predicate Cursors<T(!new)>(adj: map<T, seq<T>>, index: map<T, int>, cur: map<T, nat>, open: set<T>) {
    && (forall v :: v in index ==> v in cur)
    && (forall v :: v in cur ==> cur[v] <= |Neighbours(adj, v)|)
    && (forall v :: v in cur && v !in open ==> cur[v] == |Neighbours(adj, v)|)
  }

  /** `v` reaches a stacked node whose index is `l`. */
  ghost predicate ReachesIndex<T(!new)>(adj: map<T, seq<T>>, index: map<T, int>, stack: seq<T>, v: T, l: int) {
    exists x :: x in stack && x in index && index[x] == l && Reach(adj, v, x)
  }

  /** Low links never exceed the index; those of finished stacked nodes are strictly smaller. */
  ghost predicate LowBound<T(!new)>(index: map<T, int>, low: map<T, int>, stack: seq<T>, open: set<T>) {
    && (forall v :: v in index ==> v in low && low[v] <= index[v])
    && (forall v :: v in low ==> v in index)
    && (forall v :: v in stack && v in low && v in index && v !in open ==> low[v] < index[v])
  }

  /** The low link of a stacked node is the index of a stacked node it reaches. */
  ghost predicate LowReach<T(!new)>(adj: map<T, seq<T>>, index: map<T, int>, low: map<T, int>, stack: seq<T>) {
    forall v :: v in stack && v in low ==> ReachesIndex(adj, index, stack, v, low[v])
  }

  /** Every neighbour looked at is discovered and, while stacked, no earlier than the low link. */
  ghost predicate Looked<T(!new)>(adj: map<T, seq<T>>, index: map<T, int>, low: map<T, int>, stack: seq<T>,
                                  cur: map<T, nat>)
  {
    forall v, k :: v in stack && v in low && v in cur && 0 <= k < cur[v] && k < |Neighbours(adj, v)| ==>
      && Neighbours(adj, v)[k] in index
      && (Neighbours(adj, v)[k] in stack ==> low[v] <= index[Neighbours(adj, v)[k]])
  }

  /** An open node reaches everything stacked at or above it. */
  ghost predicate Above<T(!new)>(adj: map<T, seq<T>>, index: map<T, int>, stack: seq<T>, work: seq<T>) {
    forall w, v :: w in work && v in stack && w in index && v in index && index[w] <= index[v] ==> Reach(adj, w, v)
  }

  /** `v` is stacked above the `i`-th open node and below the next one. */
  ghost predicate Between<T(!new)>(index: map<T, int>, work: seq<T>, i: nat, v: T) {
    && i < |work| && work[i] in index && v in index && index[work[i]] < index[v]
    && (i + 1 < |work| && work[i + 1] in index ==> index[v] < index[work[i + 1]])
  }

  /** An open node's low link is no higher than those of the finished nodes stacked just above it. */
  ghost predicate Segments<T(!new)>(index: map<T, int>, low: map<T, int>, stack: seq<T>, work: seq<T>) {
    forall i: nat, v :: v in stack && Between(index, work, i, v) && v in low && work[i] in low ==> low[work[i]] <= low[v]
  }

  ghost predicate Inv<T(!new)>(adj: map<T, seq<T>>, index: map<T, int>, low: map<T, int>, next: int, stack: seq<T>,
                               work: seq<T>, comps: seq<seq<T>>, cur: map<T, nat>, open: set<T>, compOf: map<T, nat>)
  {
    && Shape(index, next, stack, compOf)
    && Grouped(comps, compOf)
    && Settled(adj, compOf)
    && Frames(index, stack, work, open)
    && Cursors(adj, index, cur, open)
    && LowBound(index, low, stack, open)
    && LowReach(adj, index, low, stack)
    && Looked(adj, index, low, stack, cur)
    && Above(adj, index, stack, work)
    && Segments(index, low, stack, work)
  }

  lemma StackKnown<T(!new)>(index: map<T, int>, next: int, stack: seq<T>, compOf: map<T, nat>)
    requires Shape(index, next, stack, compOf)
    ensures forall v :: v in stack ==> v in index
  {}

  // ---- first visit of `v`: it is numbered, stacked and opened --------------------------------------

  lemma DiscoverShape<T(!new)>(index: map<T, int>, next: int, stack: seq<T>, compOf: map<T, nat>, v: T)
    requires Shape(index, next, stack, compOf) && v !in index
    ensures Shape(index[v := next], next + 1, stack + [v], compOf)
  {}

  lemma DiscoverFrames<T(!new)>(index: map<T, int>, next: int, stack: seq<T>, compOf: map<T, nat>, work: seq<T>,
                                open: set<T>, v: T)
    requires Shape(index, next, stack, compOf) && Frames(index, stack, work, open) && v !in index
    ensures Frames(index[v := next], stack + [v], work + [v], open + {v})
  {}

  lemma DiscoverCursors<T(!new)>(adj: map<T, seq<T>>, index: map<T, int>, next: int, cur: map<T, nat>, open: set<T>, v: T)
    requires Cursors(adj, index, cur, open)
    ensures Cursors(adj, index[v := next], cur[v := 0], open + {v})
  {}

  lemma ReachesIndexGrows<T(!new)>(adj: map<T, seq<T>>, index: map<T, int>, stack: seq<T>, u: T, l: int, v: T, next: int)
    requires ReachesIndex(adj, index, stack, u, l) && v !in index
    ensures ReachesIndex(adj, index[v := next], stack + [v], u, l)
  {
    var x :| x in stack && x in index && index[x] == l && Reach(adj, u, x);
    assert x in stack + [v] && index[v := next][x] == l;
  }

  lemma DiscoverLowBound<T(!new)>(index: map<T, int>, low: map<T, int>, next: int, stack: seq<T>, open: set<T>, v: T)
    requires LowBound(index, low, stack, open) && v !in index
    ensures LowBound(index[v := next], low[v := next], stack + [v], open + {v})
  {}

  lemma DiscoverLowReach<T(!new)>(adj: map<T, seq<T>>, index: map<T, int>, low: map<T, int>, next: int, stack: seq<T>, v: T)
    requires LowReach(adj, index, low, stack) && v !in index && v !in stack
    ensures LowReach(adj, index[v := next], low[v := next], stack + [v])
  {
    hide Reach;
    assert ReachesIndex(adj, index[v := next], stack + [v], v, next) by {
      ReachSelf(adj, v);
      assert v in stack + [v];
    }
    forall u | u in stack + [v] && u in low[v := next]
      ensures ReachesIndex(adj, index[v := next], stack + [v], u, low[v := next][u])
    {
      if u != v { ReachesIndexGrows(adj, index, stack, u, low[u], v, next); }
    }
  }

  lemma DiscoverLooked<T(!new)>(adj: map<T, seq<T>>, index: map<T, int>, low: map<T, int>, next: int, stack: seq<T>,
                                compOf: map<T, nat>, cur: map<T, nat>, open: set<T>, v: T)
    requires Shape(index, next, stack, compOf) && LowBound(index, low, stack, open) && v !in index
    requires Looked(adj, index, low, stack, cur)
    ensures Looked(adj, index[v := next], low[v := next], stack + [v], cur[v := 0])
  {}

  lemma DiscoverAbove<T(!new)>(adj: map<T, seq<T>>, index: map<T, int>, next: int, stack: seq<T>, compOf: map<T, nat>,
                               work: seq<T>, open: set<T>, v: T)
    requires Shape(index, next, stack, compOf) && Frames(index, stack, work, open) && Above(adj, index, stack, work)
    requires v !in index && (|work| != 0 ==> v in Neighbours(adj, work[|work| - 1]))
    ensures Above(adj, index[v := next], stack + [v], work + [v])
  {
    ReachSelf(adj, v);
    var index' := index[v := next];
    forall w, u | w in work + [v] && u in stack + [v] && w in index' && u in index' && index'[w] <= index'[u]
      ensures Reach(adj, w, u)
    {
      if w in work && u == v {
        var top := work[|work| - 1];
        assert top in work && Reach(adj, w, top);
        ReachEdge(adj, top, v);
        ReachTrans(adj, w, top, v);
      }
    }
  }

  lemma DiscoverSegments<T(!new)>(index: map<T, int>, low: map<T, int>, next: int, stack: seq<T>, compOf: map<T, nat>,
                                  work: seq<T>, open: set<T>, v: T)
    requires Shape(index, next, stack, compOf) && Frames(index, stack, work, open) && v !in index
    requires Segments(index, low, stack, work)
    ensures Segments(index[v := next], low[v := next], stack + [v], work + [v])
  {
    var index', work' := index[v := next], work + [v];
    forall i: nat, u | u in stack + [v] && Between(index', work', i, u) && u in low[v := next] && work'[i] in low[v := next]
      ensures low[v := next][work'[i]] <= low[v := next][u]
    {
      assert i < |work| && u != v;
      assert work'[i] == work[i] && work[i] in index;
      assert Between(index, work, i, u);
    }
  }

  lemma DiscoverInv<T(!new)>(adj: map<T, seq<T>>, index: map<T, int>, low: map<T, int>, next: int, stack: seq<T>,
                             work: seq<T>, comps: seq<seq<T>>, cur: map<T, nat>, open: set<T>, compOf: map<T, nat>, v: T)
    requires v !in index && (|work| != 0 ==> v in Neighbours(adj, work[|work| - 1]))
    requires Inv(adj, index, low, next, stack, work, comps, cur, open, compOf)
    ensures Inv(adj, index[v := next], low[v := next], next + 1, stack + [v], work + [v], comps, cur[v := 0], open + {v}, compOf)
  {
    hide Shape, Grouped, Settled, Frames, Cursors, LowBound, LowReach, Looked, Above, Segments;
    DiscoverShape(index, next, stack, compOf, v);
    DiscoverFrames(index, next, stack, compOf, work, open, v);
    DiscoverCursors(adj, index, next, cur, open, v);
    assert v !in stack by { StackKnown(index, next, stack, compOf); }
    DiscoverLowBound(index, low, next, stack, open, v);
    DiscoverLowReach(adj, index, low, next, stack, v);
    DiscoverLooked(adj, index, low, next, stack, compOf, cur, open, v);
    DiscoverAbove(adj, index, next, stack, compOf, work, open, v);
    DiscoverSegments(index, low, next, stack, compOf, work, open, v);
  }

  // ---- the open node `t` has one more neighbour behind its cursor -----------------------------------

  lemma BumpInv<T(!new)>(adj: map<T, seq<T>>, index: map<T, int>, low: map<T, int>, next: int, stack: seq<T>,
                         work: seq<T>, comps: seq<seq<T>>, cur: map<T, nat>, open: set<T>, compOf: map<T, nat>, t: T)
    requires t in open && t in cur && t in low && cur[t] < |Neighbours(adj, t)|
    requires var n := Neighbours(adj, t)[cur[t]]; n in index && (n in stack ==> low[t] <= index[n])
    requires Inv(adj, index, low, next, stack, work, comps, cur, open, compOf)
    ensures Inv(adj, index, low, next, stack, work, comps, cur[t := cur[t] + 1], open, compOf)
  {
    hide Shape, Grouped, Settled, Frames, LowBound, LowReach, Above, Segments;
    assert Cursors(adj, index, cur[t := cur[t] + 1], open);
    assert Looked(adj, index, low, stack, cur[t := cur[t] + 1]);
  }

  // ---- the open node `t` learns of an earlier stacked node it reaches ------------------------------

  lemma LowerLowLinks<T(!new)>(adj: map<T, seq<T>>, index: map<T, int>, low: map<T, int>, stack: seq<T>,
                               cur: map<T, nat>, open: set<T>, t: T, l: int)
    requires LowBound(index, low, stack, open) && LowReach(adj, index, low, stack) && Looked(adj, index, low, stack, cur)
    requires t in open && t in low && l <= low[t] && ReachesIndex(adj, index, stack, t, l)
    ensures LowBound(index, low[t := l], stack, open)
    ensures LowReach(adj, index, low[t := l], stack)
    ensures Looked(adj, index, low[t := l], stack, cur)
  {
    hide ReachesIndex;
  }

  lemma OpenNotBetween<T(!new)>(index: map<T, int>, stack: seq<T>, work: seq<T>, open: set<T>, i: nat, t: T)
    requires Frames(index, stack, work, open) && t in work
    ensures !Between(index, work, i, t)
  {
    var k :| 0 <= k < |work| && work[k] == t;
    if i < k < |work| { assert i + 1 == k || index[work[i + 1]] < index[work[k]]; }
  }

  lemma LowerSegments<T(!new)>(index: map<T, int>, low: map<T, int>, stack: seq<T>, work: seq<T>, open: set<T>, t: T, l: int)
    requires Frames(index, stack, work, open) && Segments(index, low, stack, work)
    requires t in work && t in low && l <= low[t]
    ensures Segments(index, low[t := l], stack, work)
  {
    forall i: nat, v | v in stack && Between(index, work, i, v) && v in low[t := l] && work[i] in low[t := l]
      ensures low[t := l][work[i]] <= low[t := l][v]
    {
      OpenNotBetween(index, stack, work, open, i, t);
      assert low[work[i]] <= low[v];
    }
  }

  lemma LowerInv<T(!new)>(adj: map<T, seq<T>>, index: map<T, int>, low: map<T, int>, next: int, stack: seq<T>,
                          work: seq<T>, comps: seq<seq<T>>, cur: map<T, nat>, open: set<T>, compOf: map<T, nat>, t: T, l: int)
    requires t in work && t in low && l <= low[t] && ReachesIndex(adj, index, stack, t, l)
    requires Inv(adj, index, low, next, stack, work, comps, cur, open, compOf)
    ensures Inv(adj, index, low[t := l], next, stack, work, comps, cur, open, compOf)
  {
    hide Shape, Grouped, Settled, Cursors, LowBound, LowReach, Looked, Above, Segments, ReachesIndex;
    LowerLowLinks(adj, index, low, stack, cur, open, t, l);
    LowerSegments(index, low, stack, work, open, t, l);
  }

  // ---- the top node is finished but is not the root of its component --------------------------------

  lemma PopFrames<T(!new)>(index: map<T, int>, stack: seq<T>, work: seq<T>, open: set<T>)
    requires Frames(index, stack, work, open) && |work| >= 2
    ensures Frames(index, stack, work[..|work| - 1], open - {work[|work| - 1]})
  {
    var n := |work| - 1;
    forall v | v in open - {work[n]} ensures v in work[..n] {
      var i :| 0 <= i < |work| && work[i] == v;
      assert work[..n][i] == v;
    }
    forall i | 0 <= i < n ensures work[i] != work[n] { assert index[work[i]] < index[work[n]]; }
  }

  lemma PopSegments<T(!new)>(index: map<T, int>, low: map<T, int>, stack: seq<T>, work: seq<T>, open: set<T>)
    requires Frames(index, stack, work, open) && Segments(index, low, stack, work) && |work| >= 2
    requires work[|work| - 1] in low && work[|work| - 2] in low && low[work[|work| - 2]] <= low[work[|work| - 1]]
    requires forall u, v :: u in index && v in index && u in stack && v in stack && index[u] == index[v] ==> u == v
    ensures Segments(index, low, stack, work[..|work| - 1])
  {
    var n := |work| - 1;
    var work' := work[..n];
    forall i: nat, v | v in stack && Between(index, work', i, v) && v in low && work'[i] in low
      ensures low[work'[i]] <= low[v]
    {
      if i == n - 1 && index[work[n]] < index[v] {
        assert Between(index, work, n, v);
      } else if i == n - 1 && v == work[n] {
      } else {
        assert Between(index, work, i, v);
      }
    }
  }

  lemma StackInjective<T(!new)>(index: map<T, int>, next: int, stack: seq<T>, compOf: map<T, nat>)
    requires Shape(index, next, stack, compOf)
    ensures forall u, v :: u in index && v in index && u in stack && v in stack && index[u] == index[v] ==> u == v
  {
    forall u, v | u in index && v in index && u in stack && v in stack && index[u] == index[v] ensures u == v {
      var i :| 0 <= i < |stack| && stack[i] == u;
      var j :| 0 <= j < |stack| && stack[j] == v;
      assert i == j;
    }
  }

  lemma PopInv<T(!new)>(adj: map<T, seq<T>>, index: map<T, int>, low: map<T, int>, next: int, stack: seq<T>,
                        work: seq<T>, comps: seq<seq<T>>, cur: map<T, nat>, open: set<T>, compOf: map<T, nat>)
    requires |work| >= 2
    requires var t := work[|work| - 1]; t in index && t in low && t in cur && cur[t] == |Neighbours(adj, t)| && low[t] < index[t]
    requires work[|work| - 2] in low && low[work[|work| - 2]] <= low[work[|work| - 1]]
    requires Inv(adj, index, low, next, stack, work, comps, cur, open, compOf)
    ensures Inv(adj, index, low, next, stack, work[..|work| - 1], comps, cur, open - {work[|work| - 1]}, compOf)
  {
    hide Shape, Grouped, Settled, Frames, LowReach, Looked, Segments, Reach;
    PopFrames(index, stack, work, open);
    StackInjective(index, next, stack, compOf);
    PopSegments(index, low, stack, work, open);
  }

  // ---- the top node is the root of its component, which is everything stacked from it upwards -------

  lemma LowTarget<T(!new)>(adj: map<T, seq<T>>, index: map<T, int>, low: map<T, int>, stack: seq<T>, v: T) returns (x: T)
    requires v in stack && v in low && LowReach(adj, index, low, stack)
    ensures x in stack && x in index && index[x] == low[v] && Reach(adj, v, x)
  {
    hide Reach;
    assert ReachesIndex(adj, index, stack, v, low[v]);
    x :| x in stack && x in index && index[x] == low[v] && Reach(adj, v, x);
  }

  /** With a single open node left, that node is a root: nothing stacked is earlier. */
  lemma LastIsRoot<T(!new)>(adj: map<T, seq<T>>, index: map<T, int>, low: map<T, int>, next: int, stack: seq<T>,
                            work: seq<T>, open: set<T>, compOf: map<T, nat>)
    requires |work| == 1 && work[0] in index && work[0] in low
    requires Shape(index, next, stack, compOf) && Frames(index, stack, work, open)
    requires LowBound(index, low, stack, open) && LowReach(adj, index, low, stack)
    ensures low[work[0]] == index[work[0]]
  {
    hide Reach, LowReach, ReachesIndex;
    var x := LowTarget(adj, index, low, stack, work[0]);
    var i :| 0 <= i < |stack| && stack[i] == x;
    assert i == 0;
  }

  /** Everything stacked from the root on reaches the root, following low links downwards. */
  lemma {:induction false} MemberReachesRoot<T(!new)>(adj: map<T, seq<T>>, index: map<T, int>, low: map<T, int>, next: int,
      stack: seq<T>, work: seq<T>, open: set<T>, compOf: map<T, nat>, v: T)
    requires |work| > 0 && work[|work| - 1] in index && work[|work| - 1] in low
    requires low[work[|work| - 1]] == index[work[|work| - 1]]
    requires v in stack && v in index && index[work[|work| - 1]] <= index[v]
    requires Shape(index, next, stack, compOf) && Frames(index, stack, work, open)
    requires LowBound(index, low, stack, open) && LowReach(adj, index, low, stack) && Segments(index, low, stack, work)
    ensures Reach(adj, v, work[|work| - 1])
    decreases index[v] - index[work[|work| - 1]]
  {
    hide Reach, LowReach, ReachesIndex, Shape;
    var n := |work| - 1;
    var t := work[n];
    StackInjective(index, next, stack, compOf);
    if v == t {
      ReachSelf(adj, t);
    } else {
      assert Between(index, work, n, v);
      assert v !in open by { NotOpen(index, stack, work, open, v); }
      var x := LowTarget(adj, index, low, stack, v);
      MemberReachesRoot(adj, index, low, next, stack, work, open, compOf, x);
      ReachTrans(adj, v, x, t);
    }
  }

  lemma NotOpen<T(!new)>(index: map<T, int>, stack: seq<T>, work: seq<T>, open: set<T>, v: T)
    requires |work| > 0 && Frames(index, stack, work, open) && Between(index, work, |work| - 1, v)
    ensures v !in open
  {
    if v in work { OpenNotBetween(index, stack, work, open, |work| - 1, v); }
  }

  /** `rest` is the stack below the root `t`, and `comp` is what was stacked from `t` on. */
  ghost predicate Tail<T(!new)>(index: map<T, int>, stack: seq<T>, t: T, rest: seq<T>, comp: seq<T>) {
    && t in index && t in comp && rest <= stack
    && (forall v :: v in comp ==> v in stack && v in index && index[t] <= index[v])
    && (forall v :: v in stack ==> v in comp || v in rest)
    && (forall v :: v in rest ==> v in index && index[v] < index[t])
    && (forall i, j :: 0 <= i < j < |comp| ==> comp[i] != comp[j])
  }

  lemma TailOfStack<T(!new)>(index: map<T, int>, next: int, stack: seq<T>, compOf: map<T, nat>, k: nat, comp: seq<T>)
    requires k < |stack| && |comp| == |stack| - k && forall j :: 0 <= j < |comp| ==> comp[j] == stack[|stack| - 1 - j]
    requires Shape(index, next, stack, compOf)
    ensures Tail(index, stack, stack[k], stack[..k], comp)
  {
    assert comp[|stack| - 1 - k] == stack[k];
    forall v | v in stack ensures v in comp || v in stack[..k] {
      var i :| 0 <= i < |stack| && stack[i] == v;
      if i >= k { assert comp[|stack| - 1 - i] == v; } else { assert stack[..k][i] == v; }
    }
    forall v | v in comp ensures v in stack && v in index && index[stack[k]] <= index[v] {
      var j :| 0 <= j < |comp| && comp[j] == v;
      assert v == stack[|stack| - 1 - j];
    }
  }

  function Numbered<T>(compOf: map<T, nat>, comp: seq<T>, c: nat): map<T, nat> {
    compOf + map v | v in comp :: c
  }

  lemma RootShape<T(!new)>(index: map<T, int>, next: int, stack: seq<T>, compOf: map<T, nat>, t: T, rest: seq<T>,
                           comp: seq<T>, c: nat)
    requires Shape(index, next, stack, compOf) && Tail(index, stack, t, rest, comp)
    ensures Shape(index, next, rest, Numbered(compOf, comp, c))
  {}

  lemma RootGrouped<T(!new)>(index: map<T, int>, next: int, stack: seq<T>, compOf: map<T, nat>, t: T, rest: seq<T>,
                             comps: seq<seq<T>>, comp: seq<T>)
    requires Shape(index, next, stack, compOf) && Tail(index, stack, t, rest, comp) && Grouped(comps, compOf)
    ensures Grouped(comps + [comp], Numbered(compOf, comp, |comps|))
  {
    assert forall v :: v in comp ==> v !in compOf;
  }

  lemma RootFrames<T(!new)>(index: map<T, int>, stack: seq<T>, work: seq<T>, open: set<T>, rest: seq<T>, comp: seq<T>)
    requires |work| > 0 && Frames(index, stack, work, open) && Tail(index, stack, work[|work| - 1], rest, comp)
    ensures Frames(index, rest, work[..|work| - 1], open - {work[|work| - 1]})
  {
    var n := |work| - 1;
    forall v | v in open - {work[n]} ensures v in work[..n] {
      var i :| 0 <= i < |work| && work[i] == v;
      assert work[..n][i] == v;
    }
    forall i | 0 <= i < n ensures work[i] != work[n] && work[i] in rest { assert index[work[i]] < index[work[n]]; }
    if n == 0 {
      assert rest == [];
    } else {
      assert work[0] in rest;
      assert rest[0] == stack[0];
    }
  }

  lemma RootLowReach<T(!new)>(adj: map<T, seq<T>>, index: map<T, int>, low: map<T, int>, stack: seq<T>, open: set<T>,
                              t: T, rest: seq<T>, comp: seq<T>)
    requires Tail(index, stack, t, rest, comp)
    requires LowBound(index, low, stack, open) && LowReach(adj, index, low, stack)
    ensures LowReach(adj, index, low, rest)
  {
    hide Reach;
    forall v | v in rest && v in low ensures ReachesIndex(adj, index, rest, v, low[v]) {
      var x := LowTarget(adj, index, low, stack, v);
      assert index[v] < index[t] && low[v] <= index[v];
      assert x in rest;
    }
  }

  lemma RootSegments<T(!new)>(index: map<T, int>, low: map<T, int>, stack: seq<T>, work: seq<T>, rest: seq<T>, comp: seq<T>)
    requires |work| > 0 && Segments(index, low, stack, work) && Tail(index, stack, work[|work| - 1], rest, comp)
    ensures Segments(index, low, rest, work[..|work| - 1])
  {
    var n := |work| - 1;
    forall i: nat, v | v in rest && Between(index, work[..n], i, v) && v in low && work[..n][i] in low
      ensures low[work[..n][i]] <= low[v]
    {
      assert work[..n][i] == work[i] && v in stack;
      assert Between(index, work, i, v);
    }
  }

  /** The new component only leads to itself and to what was settled before. */
  lemma RootClosed<T(!new)>(adj: map<T, seq<T>>, index: map<T, int>, low: map<T, int>, next: int, stack: seq<T>, work: seq<T>,
                            cur: map<T, nat>, open: set<T>, compOf: map<T, nat>, rest: seq<T>, comp: seq<T>, u: T, n: T)
    requires |work| > 0 && u in comp && n in Neighbours(adj, u) && Tail(index, stack, work[|work| - 1], rest, comp)
    requires work[|work| - 1] in low && low[work[|work| - 1]] == index[work[|work| - 1]]
    requires work[|work| - 1] in cur && cur[work[|work| - 1]] == |Neighbours(adj, work[|work| - 1])|
    requires Shape(index, next, stack, compOf) && Frames(index, stack, work, open) && Cursors(adj, index, cur, open)
    requires LowBound(index, low, stack, open) && Looked(adj, index, low, stack, cur) && Segments(index, low, stack, work)
    ensures n in comp || n in compOf
  {
    hide Shape, Frames;
    var t := work[|work| - 1];
    if u != t {
      assert index[t] < index[u] by { StackInjective(index, next, stack, compOf); }
      assert Between(index, work, |work| - 1, u);
      assert u !in open by { NotOpen(index, stack, work, open, u); }
    }
    assert cur[u] == |Neighbours(adj, u)| && low[t] <= low[u];
    var k :| 0 <= k < |Neighbours(adj, u)| && Neighbours(adj, u)[k] == n;
    assert n in index && (n in stack ==> low[u] <= index[n]);
    assert n in compOf || n in stack by { Placed(index, next, stack, compOf, n); }
  }

  lemma Placed<T(!new)>(index: map<T, int>, next: int, stack: seq<T>, compOf: map<T, nat>, v: T)
    requires v in index && Shape(index, next, stack, compOf)
    ensures v in compOf <==> v !in stack
  {}

  lemma RootSettled<T(!new)>(adj: map<T, seq<T>>, comps: seq<seq<T>>, compOf: map<T, nat>, t: T, comp: seq<T>)
    requires Settled(adj, compOf) && Grouped(comps, compOf) && t in comp
    requires forall v :: v in comp ==> v !in compOf && Reach(adj, v, t) && Reach(adj, t, v)
    requires forall u, n :: u in comp && n in Neighbours(adj, u) ==> n in comp || n in compOf
    ensures Settled(adj, Numbered(compOf, comp, |comps|))
  {
    hide Reach;
    forall u, v | u in comp && v in comp ensures Reach(adj, u, v) { ReachTrans(adj, u, t, v); }
  }

  /** Member of the new component and root reach each other. */
  lemma RootMutual<T(!new)>(adj: map<T, seq<T>>, index: map<T, int>, low: map<T, int>, next: int, stack: seq<T>, work: seq<T>,
                            open: set<T>, compOf: map<T, nat>, rest: seq<T>, comp: seq<T>)
    requires |work| > 0 && Tail(index, stack, work[|work| - 1], rest, comp)
    requires work[|work| - 1] in low && low[work[|work| - 1]] == index[work[|work| - 1]]
    requires Shape(index, next, stack, compOf) && Frames(index, stack, work, open) && Above(adj, index, stack, work)
    requires LowBound(index, low, stack, open) && LowReach(adj, index, low, stack) && Segments(index, low, stack, work)
    ensures forall v :: v in comp ==> v !in compOf && Reach(adj, v, work[|work| - 1]) && Reach(adj, work[|work| - 1], v)
  {
    hide Reach, LowBound, LowReach, Segments, Frames, Shape;
    forall v | v in comp ensures v !in compOf && Reach(adj, v, work[|work| - 1]) && Reach(adj, work[|work| - 1], v) {
      MemberReachesRoot(adj, index, low, next, stack, work, open, compOf, v);
      Placed(index, next, stack, compOf, v);
    }
  }

  lemma RootInv<T(!new)>(adj: map<T, seq<T>>, index: map<T, int>, low: map<T, int>, next: int, stack: seq<T>,
                         work: seq<T>, comps: seq<seq<T>>, cur: map<T, nat>, open: set<T>, compOf: map<T, nat>,
                         rest: seq<T>, comp: seq<T>)
    requires |work| > 0 && Tail(index, stack, work[|work| - 1], rest, comp)
    requires work[|work| - 1] in low && low[work[|work| - 1]] == index[work[|work| - 1]]
    requires work[|work| - 1] in cur && cur[work[|work| - 1]] == |Neighbours(adj, work[|work| - 1])|
    requires Inv(adj, index, low, next, stack, work, comps, cur, open, compOf)
    ensures Inv(adj, index, low, next, rest, work[..|work| - 1], comps + [comp], cur, open - {work[|work| - 1]},
                Numbered(compOf, comp, |comps|))
  {
    hide Shape, Grouped, Settled, Frames, LowReach, Looked, Above, Segments, Reach, Numbered;
    var t := work[|work| - 1];
    RootShape(index, next, stack, compOf, t, rest, comp, |comps|);
    RootGrouped(index, next, stack, compOf, t, rest, comps, comp);
    RootFrames(index, stack, work, open, rest, comp);
    RootLowReach(adj, index, low, stack, open, t, rest, comp);
    RootSegments(index, low, stack, work, rest, comp);
    RootMutual(adj, index, low, next, stack, work, open, compOf, rest, comp);
    forall u, n | u in comp && n in Neighbours(adj, u) ensures n in comp || n in compOf {
      RootClosed(adj, index, low, next, stack, work, cur, open, compOf, rest, comp, u, n);
    }
    RootSettled(adj, comps, compOf, t, comp);
    RootSubsets(adj, index, low, stack, work, cur, open, rest);
  }

  /** What shrinking the stack and the work list trivially keeps. */
  lemma RootSubsets<T(!new)>(adj: map<T, seq<T>>, index: map<T, int>, low: map<T, int>, stack: seq<T>, work: seq<T>,
                             cur: map<T, nat>, open: set<T>, rest: seq<T>)
    requires |work| > 0 && rest <= stack
    requires work[|work| - 1] in cur && cur[work[|work| - 1]] == |Neighbours(adj, work[|work| - 1])|
    requires Cursors(adj, index, cur, open) && Looked(adj, index, low, stack, cur) && Above(adj, index, stack, work)
    ensures Cursors(adj, index, cur, open - {work[|work| - 1]})
    ensures Looked(adj, index, low, rest, cur)
    ensures Above(adj, index, rest, work[..|work| - 1])
  {
    hide Reach;
  }
}
