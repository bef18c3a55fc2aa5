/** What a replay accepts and what it derives, said of the events themselves. */
module ReplayMeaning {
  import opened Options
  import opened JournalTypes
  import opened Replay

  // ---- the derived state, event by event ------------------------------------------------------------------------------

  /** The event moves this node's attempt. */
  predicate Moves(e: Event, key: (Id, int)) {
    && e.kind == NodeTransition && e.payload.binding.Some? && e.payload.after.Some?
    && key == (e.payload.binding.value.nodeId, e.payload.binding.value.attemptOrdinal)
  }

  /** The last of the first `n` events that moves it. */
  predicate LastMove(events: seq<Event>, n: nat, key: (Id, int), i: int)
    requires n <= |events|
  {
    0 <= i < n && Moves(events[i], key) && forall j :: i < j < n ==> !Moves(events[j], key)
  }

  predicate NeverMoved(events: seq<Event>, n: nat, key: (Id, int))
    requires n <= |events|
  {
    forall j :: 0 <= j < n ==> !Moves(events[j], key)
  }

  /** The state a node's attempt has after `n` events, on top of what was known. */
  ghost predicate StandsAt(known: NodeStates, events: seq<Event>, n: nat, key: (Id, int), state: Option<NodeState>)
    requires n <= |events|
  {
    && (NeverMoved(events, n, key) ==> state == if key in known then Some(known[key]) else None)
    && (forall i :: LastMove(events, n, key, i) ==> state == Some(NodeState(events[i].epoch, events[i].payload.after.value, events[i].sequence)))
  }

  predicate IsMode(kind: EventKind) { kind in {Paused, Resumed, CancelRequested, CancelConfirmed} }

  predicate LastMode(events: seq<Event>, i: int) {
    0 <= i < |events| && IsMode(events[i].kind) && forall j :: i < j < |events| ==> !IsMode(events[j].kind)
  }

  /** The mode is that of the last event about it: paused, active again, cancelling or cancelled; without one it is what it was. */
  ghost predicate ModeAfter(before: Mode, events: seq<Event>, mode: Mode) {
    && ((forall i :: 0 <= i < |events| ==> !IsMode(events[i].kind)) ==> mode == before)
    && (forall i :: LastMode(events, i) ==>
          && (events[i].kind == Paused ==> mode == PausedMode) && (events[i].kind == Resumed ==> mode == Active)
          && (events[i].kind == CancelRequested ==> mode == Cancelling) && (events[i].kind == CancelConfirmed ==> mode == CancelledMode))
  }

  // ---- what is accepted ----------------------------------------------------------------------------------------------------

  /**
   * Event `i` fits: of the session, next in sequence, at the revision before it or the next one; only a change of epoch
   * moves the epoch, and upwards; a transition names its node and goes on from the state the node's attempt is in.
   */
  ghost predicate Fits(sessionId: Id, c: Cursor, events: seq<Event>, i: nat)
    requires i < |events|
  {
    var e := events[i];
    var revision, epoch := if i == 0 then c.revision else events[i - 1].revision, if i == 0 then c.epoch else events[i - 1].epoch;
    && e.sessionId == sessionId && e.sequence == c.lastSequence + 1 + i && (e.revision == revision || e.revision == revision + 1)
    && (if e.kind == EpochChanged then epoch < e.epoch else e.epoch == epoch)
    && (e.kind == NodeTransition ==> e.payload.binding.Some? && e.payload.after.Some? && GoesOn(c.nodes, events, i))
  }

  ghost predicate GoesOn(known: NodeStates, events: seq<Event>, i: nat)
    requires i < |events| && events[i].payload.binding.Some?
  {
    var e, key := events[i], (events[i].payload.binding.value.nodeId, events[i].payload.binding.value.attemptOrdinal);
    && (NeverMoved(events, i, key) && key in known ==> e.payload.before == Some(known[key].state))
    && (forall j :: LastMove(events, i, key, j) ==> e.payload.before == events[j].payload.after)
  }

  ghost predicate Derived(c: Cursor, events: seq<Event>, d: Cursor) {
    && d.revision == (if |events| == 0 then c.revision else events[|events| - 1].revision)
    && d.epoch == (if |events| == 0 then c.epoch else events[|events| - 1].epoch)
    && d.lastSequence == c.lastSequence + |events|
    && ModeAfter(c.mode, events, d.mode)
    && forall key :: StandsAt(c.nodes, events, |events|, key, if key in d.nodes then Some(d.nodes[key]) else None)
  }

  lemma ModeStep(before: Mode, events: seq<Event>, mode: Mode)
    requires |events| > 0 && ModeAfter(before, events[..|events| - 1], mode)
    ensures ModeAfter(before, events, ModeFor(events[|events| - 1].kind, mode))
  {
    var n := |events| - 1;
    assert forall i :: 0 <= i < n ==> events[..n][i] == events[i];
    if !IsMode(events[n].kind) {
      assert forall i :: LastMode(events, i) ==> i < n && LastMode(events[..n], i);
      if forall i :: 0 <= i < |events| ==> !IsMode(events[i].kind) {
        forall i | 0 <= i < n ensures !IsMode(events[..n][i].kind) { assert events[..n][i] == events[i]; }
      }
    } else {
      assert forall i :: LastMode(events, i) ==> i == n;
    }
  }

  lemma StandsStep(known: NodeStates, events: seq<Event>, n: nat, key: (Id, int), state: Option<NodeState>)
    requires n < |events| && StandsAt(known, events, n, key, state)
    ensures Moves(events[n], key) ==>
      StandsAt(known, events, n + 1, key, Some(NodeState(events[n].epoch, events[n].payload.after.value, events[n].sequence)))
    ensures !Moves(events[n], key) ==> StandsAt(known, events, n + 1, key, state)
  {
    var m := n + 1;
    if Moves(events[n], key) {
      assert forall i :: LastMove(events, m, key, i) ==> i == n;
      assert !NeverMoved(events, m, key);
    } else {
      assert forall i :: LastMove(events, m, key, i) ==> LastMove(events, n, key, i);
    }
  }

  lemma StandsPrefix(known: NodeStates, events: seq<Event>, n: nat, key: (Id, int), state: Option<NodeState>)
    requires n <= |events|
    ensures StandsAt(known, events[..n], n, key, state) <==> StandsAt(known, events, n, key, state)
  {
    hide Moves;
    assert forall i :: 0 <= i < n ==> events[..n][i] == events[i];
    assert NeverMoved(events[..n], n, key) <==> NeverMoved(events, n, key);
    assert forall i :: LastMove(events[..n], n, key, i) <==> LastMove(events, n, key, i);
  }

  /** Some event moved it last, or none did. */
  lemma {:induction false} MovedOrNot(events: seq<Event>, n: nat, key: (Id, int))
    requires n <= |events|
    ensures NeverMoved(events, n, key) || exists i :: LastMove(events, n, key, i)
  {
    hide Moves;
    if n > 0 {
      if Moves(events[n - 1], key) {
        assert LastMove(events, n, key, n - 1);
      } else {
        MovedOrNot(events, n - 1, key);
        if !NeverMoved(events, n - 1, key) {
          var i :| LastMove(events, n - 1, key, i);
          assert LastMove(events, n, key, i);
        }
      }
    }
  }

  /** The state a transition must go on from is the one the cursor has. */
  lemma GoesOnIff(known: NodeStates, events: seq<Event>, n: nat, states: NodeStates, key: (Id, int))
    requires n < |events| && events[n].payload.binding.Some?
    requires key == (events[n].payload.binding.value.nodeId, events[n].payload.binding.value.attemptOrdinal)
    requires StandsAt(known, events, n, key, if key in states then Some(states[key]) else None)
    ensures GoesOn(known, events, n) <==> (key in states ==> events[n].payload.before == Some(states[key].state))
  {
    MovedOrNot(events, n, key);
    if NeverMoved(events, n, key) {
      assert forall j :: !LastMove(events, n, key, j);
    } else {
      var i :| LastMove(events, n, key, i);
      assert forall j :: LastMove(events, n, key, j) ==> j == i;
      assert events[i].payload.after.Some?;
    }
  }

  lemma TransitionStep(known: NodeStates, events: seq<Event>, n: nat, states: NodeStates)
    requires n < |events| && forall key :: StandsAt(known, events, n, key, if key in states then Some(states[key]) else None)
    ensures var e, r := events[n], Transition(states, events[n]);
      && (r.Ok? <==> (e.kind == NodeTransition ==> e.payload.binding.Some? && e.payload.after.Some? && GoesOn(known, events, n)))
      && (r.Ok? ==> forall key :: StandsAt(known, events, n + 1, key, if key in r.value then Some(r.value[key]) else None))
  {
    var e, r := events[n], Transition(states, events[n]);
    if e.payload.binding.Some? {
      var key := (e.payload.binding.value.nodeId, e.payload.binding.value.attemptOrdinal);
      GoesOnIff(known, events, n, states, key);
    }
    hide StandsAt, GoesOn;
    if r.Ok? {
      forall key ensures StandsAt(known, events, n + 1, key, if key in r.value then Some(r.value[key]) else None) {
        StandsStep(known, events, n, key, if key in states then Some(states[key]) else None);
      }
    }
  }

  lemma FitsPrefix(sessionId: Id, c: Cursor, events: seq<Event>, i: nat, n: nat)
    requires i < n <= |events|
    ensures Fits(sessionId, c, events[..n], i) <==> Fits(sessionId, c, events, i)
  {
    var e := events[i];
    if e.kind == NodeTransition && e.payload.binding.Some? {
      var key := (e.payload.binding.value.nodeId, e.payload.binding.value.attemptOrdinal);
      hide Moves;
      assert forall k :: 0 <= k < n ==> events[..n][k] == events[k];
      assert NeverMoved(events[..n], i, key) <==> NeverMoved(events, i, key);
      assert forall k :: LastMove(events[..n], i, key, k) <==> LastMove(events, i, key, k);
    }
  }

  /** One more event: the step is taken exactly when it fits, and derives what all of them do. */
  lemma StepMeans(sessionId: Id, c: Cursor, events: seq<Event>, d: Cursor)
    requires |events| > 0 && Derived(c, events[..|events| - 1], d)
    ensures var r := Step(sessionId, d, events[|events| - 1]);
      (r.Ok? <==> Fits(sessionId, c, events, |events| - 1)) && (r.Ok? ==> Derived(c, events, r.value))
  {
    var n := |events| - 1;
    forall key ensures StandsAt(c.nodes, events, n, key, if key in d.nodes then Some(d.nodes[key]) else None) {
      StandsPrefix(c.nodes, events, n, key, if key in d.nodes then Some(d.nodes[key]) else None);
    }
    TransitionStep(c.nodes, events, n, d.nodes);
    ModeStep(c.mode, events, d.mode);
    hide StandsAt, GoesOn, ModeAfter, Transition, ModeFor;
  }

  /** A fold is accepted exactly when every event fits, and derives revision, epoch, mode and node states from the events. */
  lemma {:induction false} FoldMeans(sessionId: Id, c: Cursor, events: seq<Event>)
    ensures Fold(sessionId, c, events).Ok? <==> forall i :: 0 <= i < |events| ==> Fits(sessionId, c, events, i)
    ensures Fold(sessionId, c, events).Ok? ==> Derived(c, events, Fold(sessionId, c, events).value)
  {
    hide Step, Fits;
    if |events| == 0 {
      NothingDerived(c);
      assert events == [];
    } else {
      var n := |events| - 1;
      FoldMeans(sessionId, c, events[..n]);
      AllFit(sessionId, c, events);
      hide Derived;
      if Fold(sessionId, c, events[..n]).Ok? { StepMeans(sessionId, c, events, Fold(sessionId, c, events[..n]).value); }
    }
  }

  lemma AllFit(sessionId: Id, c: Cursor, events: seq<Event>)
    requires |events| > 0
    ensures var n := |events| - 1;
      (forall i :: 0 <= i < |events| ==> Fits(sessionId, c, events, i)) <==>
        Fits(sessionId, c, events, n) && forall i :: 0 <= i < |events[..n]| ==> Fits(sessionId, c, events[..n], i)
  {
    hide Fits;
    var n := |events| - 1;
    forall i | 0 <= i < n ensures Fits(sessionId, c, events[..n], i) <==> Fits(sessionId, c, events, i) { FitsPrefix(sessionId, c, events, i, n); }
  }

  lemma NothingDerived(c: Cursor)
    ensures Derived(c, [], c)
  {}

  /** The same of whole replays, from the beginning or from a verified state. */
  lemma ReplayMeans(events: seq<Event>, seed: Option<ReplayState>)
    requires |events| > 0 || seed.Some?
    ensures var sessionId, c := if seed.Some? then seed.value.sessionId else events[0].sessionId, Start(events, seed);
      && (ReplayOf(events, seed).Ok? <==> forall i :: 0 <= i < |events| ==> Fits(sessionId, c, events, i))
      && (ReplayOf(events, seed).Ok? ==>
            var r := ReplayOf(events, seed).value;
            r.sessionId == sessionId
            && Derived(c, events, Cursor(r.revision, r.epoch, if r.lastSequence.Some? then r.lastSequence.value else -1, r.mode, r.nodes)))
  {
    FoldMeans(if seed.Some? then seed.value.sessionId else events[0].sessionId, Start(events, seed), events);
    hide Fold, Fits, Derived, Start;
  }

  /** Where a replay from nothing starts: at revision 0, before sequence 0, active, no node known, in the epoch the first event comes from. */
  lemma StartsAt(events: seq<Event>)
    requires |events| > 0
    ensures var c := Start(events, None);
      && c.revision == 0 && c.lastSequence == -1 && c.mode == Active && c.nodes == map[]
      && (Fits(events[0].sessionId, c, events, 0) ==>
            events[0].sequence == 0 && events[0].revision in {0, 1} && c.epoch == if events[0].kind == EpochChanged then events[0].epoch - 1 else events[0].epoch)
  {}

  /** What the first event that does not fit is refused with: a gap in the sequence, a transition that says too little, or a breach. */
  lemma Misfit(sessionId: Id, c: Cursor, events: seq<Event>, n: nat)
    requires n < |events| && !Fits(sessionId, c, events, n) && forall i :: 0 <= i < n ==> Fits(sessionId, c, events, i)
    ensures var e, r := events[n], Fold(sessionId, c, events);
      var epoch := if n == 0 then c.epoch else events[n - 1].epoch;
      var revision := if n == 0 then c.revision else events[n - 1].revision;
      && r.Err?
      && (e.sessionId != sessionId ==> r.code == InvariantViolation)
      && (e.sessionId == sessionId && e.sequence != c.lastSequence + 1 + n ==> r.code == SequenceGap)
      && (e.sessionId == sessionId && e.sequence == c.lastSequence + 1 + n ==>
            if e.revision !in {revision, revision + 1} || (if e.kind == EpochChanged then e.epoch <= epoch else e.epoch != epoch)
            then r.code == InvariantViolation
            else r.code == if e.payload.binding.None? || e.payload.after.None? then SchemaInvalid else InvariantViolation)
  {
    var d := BeforeMisfit(sessionId, c, events, n);
    StepErr(sessionId, d, events[n]);
    hide Fold, Step, Fits;
    Stuck(sessionId, c, events, n + 1);
  }

  lemma StepErr(sessionId: Id, d: Cursor, e: Event)
    requires Step(sessionId, d, e).Err?
    ensures var r := Step(sessionId, d, e);
      && (e.sessionId != sessionId ==> r.code == InvariantViolation)
      && (e.sessionId == sessionId && e.sequence != d.lastSequence + 1 ==> r.code == SequenceGap)
      && (e.sessionId == sessionId && e.sequence == d.lastSequence + 1 ==>
            if e.revision !in {d.revision, d.revision + 1} || (if e.kind == EpochChanged then e.epoch <= d.epoch else e.epoch != d.epoch)
            then r.code == InvariantViolation
            else r.code == if e.payload.binding.None? || e.payload.after.None? then SchemaInvalid else InvariantViolation)
  {}

  /** Where a fold stands when it meets the first event that does not fit. */
  lemma BeforeMisfit(sessionId: Id, c: Cursor, events: seq<Event>, n: nat) returns (d: Cursor)
    requires n < |events| && !Fits(sessionId, c, events, n) && forall i :: 0 <= i < n ==> Fits(sessionId, c, events, i)
    ensures Fold(sessionId, c, events[..n + 1]) == Step(sessionId, d, events[n]) && Step(sessionId, d, events[n]).Err?
    ensures d.revision == (if n == 0 then c.revision else events[n - 1].revision) && d.epoch == (if n == 0 then c.epoch else events[n - 1].epoch)
    ensures d.lastSequence == c.lastSequence + n
  {
    hide Fits, Step, StandsAt, ModeAfter, Derived;
    forall i | 0 <= i < n ensures Fits(sessionId, c, events[..n], i) { FitsPrefix(sessionId, c, events, i, n); }
    FitsPrefix(sessionId, c, events, n, n + 1);
    FoldMeans(sessionId, c, events[..n]);
    d := Fold(sessionId, c, events[..n]).value;
    assert events[..n + 1][..n] == events[..n] && events[..n + 1][n] == events[n];
    StepMeans(sessionId, c, events[..n + 1], d);
    FoldNext(sessionId, c, events, n);
    DerivedEnds(c, events[..n], d);
  }

  lemma DerivedEnds(c: Cursor, events: seq<Event>, d: Cursor)
    requires Derived(c, events, d)
    ensures var n := |events|;
      && d.revision == (if n == 0 then c.revision else events[n - 1].revision) && d.epoch == (if n == 0 then c.epoch else events[n - 1].epoch)
      && d.lastSequence == c.lastSequence + n
  {
    hide StandsAt, ModeAfter;
  }
}
