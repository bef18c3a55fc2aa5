/** The two reducers of the journal: the derived session state and the outbox. */
module Replay {
  import opened Options
  import opened JournalTypes

  datatype Mode = Active | PausedMode | Cancelling | CancelledMode

  /** A node's derived state. The key joins node id and attempt with a separator no id contains, so a pair is faithful. */
  datatype NodeState = NodeState(epoch: int, state: string, sinceSequence: int)
  type NodeStates = map<(Id, int), NodeState>

  datatype ReplayState = ReplayState(sessionId: Id, revision: int, epoch: int, lastSequence: Option<int>, mode: Mode,
                                     nodes: NodeStates)

  function EmptyReplayState(sessionId: Id, epoch: int): ReplayState {
    ReplayState(sessionId, 0, epoch, None, Active, map[])
  }

  function ModeFor(kind: EventKind, current: Mode): Mode {
    match kind
    case Paused => PausedMode
    case Resumed => Active
    case CancelRequested => Cancelling
    case CancelConfirmed => CancelledMode
    case _ => current
  }

  /** What the reducer carries from event to event. */
  datatype Cursor = Cursor(revision: int, epoch: int, lastSequence: int, mode: Mode, nodes: NodeStates)

  function Transition(nodes: NodeStates, e: Event): Result<NodeStates> {
    if e.kind != NodeTransition then Ok(nodes)
    else if e.payload.binding.None? || e.payload.after.None? then Err(SchemaInvalid)
    else
      var b := e.payload.binding.value;
      var key := (b.nodeId, b.attemptOrdinal);
      if key in nodes && e.payload.before != Some(nodes[key].state) then Err(InvariantViolation)
      else Ok(nodes[key := NodeState(e.epoch, e.payload.after.value, e.sequence)])
  }

  /** One event: same session, next sequence, revision steps by at most one, epoch only moves by its own event. */
  function Step(sessionId: Id, c: Cursor, e: Event): Result<Cursor> {
    if e.sessionId != sessionId then Err(InvariantViolation)
    else if e.sequence != c.lastSequence + 1 then Err(SequenceGap)
    else if e.revision != c.revision && e.revision != c.revision + 1 then Err(InvariantViolation)
    else if e.kind == EpochChanged && e.epoch <= c.epoch then Err(InvariantViolation)
    else if e.kind != EpochChanged && e.epoch != c.epoch then Err(InvariantViolation)
    else
      match Transition(c.nodes, e)
      case Err(code) => Err(code)
      case Ok(nodes) => Ok(Cursor(e.revision, e.epoch, e.sequence, ModeFor(e.kind, c.mode), nodes))
  }

  function Fold(sessionId: Id, c: Cursor, events: seq<Event>): Result<Cursor> {
    if |events| == 0 then Ok(c)
    else
      match Fold(sessionId, c, events[..|events| - 1])
      case Err(code) => Err(code)
      case Ok(d) => Step(sessionId, d, events[|events| - 1])
  }

  /** Where a replay starts: at the seed, or before the first event, whose epoch says which epoch that was. */
  function Start(events: seq<Event>, seed: Option<ReplayState>): Cursor {
    match seed
    case Some(s) =>
      Cursor(s.revision, s.epoch, if s.lastSequence.Some? then s.lastSequence.value else -1, s.mode, s.nodes)
    case None =>
      Cursor(0, if |events| == 0 then 1 else FirstEpoch(events[0]), -1, Active, map[])
  }

  function FirstEpoch(first: Event): int { if first.kind == EpochChanged then first.epoch - 1 else first.epoch }

  function Finish(sessionId: Id, r: Result<Cursor>): Result<ReplayState> {
    match r
    case Err(code) => Err(code)
    case Ok(c) =>
      Ok(ReplayState(sessionId, c.revision, c.epoch, if c.lastSequence == -1 then None else Some(c.lastSequence), c.mode, c.nodes))
  }

  /** The derived state of a journal, optionally continued from a verified prefix. */
  function ReplayOf(events: seq<Event>, seed: Option<ReplayState>): Result<ReplayState> {
    if seed.None? && |events| == 0 then Err(SchemaInvalid)
    else
      var sessionId := if seed.Some? then seed.value.sessionId else events[0].sessionId;
      Finish(sessionId, Fold(sessionId, Start(events, seed), events))
  }

  method ReplayEvents(events: seq<Event>, seed: Option<ReplayState>) returns (r: Result<ReplayState>)
    ensures r == ReplayOf(events, seed)
  {
    hide Fold;
    if seed.None? && |events| == 0 { return Err(SchemaInvalid); }
    FoldNone(if seed.Some? then seed.value.sessionId else events[0].sessionId, Start(events, seed));
    assert events[..0] == [];
    var sessionId := if seed.Some? then seed.value.sessionId else events[0].sessionId;
    var start := Start(events, seed);
    var revision, epoch, lastSequence, mode, states := start.revision, start.epoch, start.lastSequence, start.mode, start.nodes;
    for i := 0 to |events|
      invariant Fold(sessionId, start, events[..i]) == Ok(Cursor(revision, epoch, lastSequence, mode, states))
    {
      var event := events[i];
      FoldNext(sessionId, start, events, i);
      if event.sessionId != sessionId { Stuck(sessionId, start, events, i + 1); return Err(InvariantViolation); }
      if event.sequence != lastSequence + 1 { Stuck(sessionId, start, events, i + 1); return Err(SequenceGap); }
      if event.revision != revision && event.revision != revision + 1 { Stuck(sessionId, start, events, i + 1); return Err(InvariantViolation); }
      revision, lastSequence := event.revision, event.sequence;
      if event.kind == EpochChanged {
        if event.epoch <= epoch { Stuck(sessionId, start, events, i + 1); return Err(InvariantViolation); }
        epoch := event.epoch;
      } else if event.epoch != epoch {
        Stuck(sessionId, start, events, i + 1);
        return Err(InvariantViolation);
      }
      if event.kind == NodeTransition {
        if event.payload.binding.None? || event.payload.after.None? { Stuck(sessionId, start, events, i + 1); return Err(SchemaInvalid); }
        var key := (event.payload.binding.value.nodeId, event.payload.binding.value.attemptOrdinal);
        if key in states && event.payload.before != Some(states[key].state) {
          Stuck(sessionId, start, events, i + 1);
          return Err(InvariantViolation);
        }
        states := states[key := NodeState(event.epoch, event.payload.after.value, event.sequence)];
      }
      mode := ModeFor(event.kind, mode);
    }
    assert events[..|events|] == events;
    return Ok(ReplayState(sessionId, revision, epoch, if lastSequence == -1 then None else Some(lastSequence), mode, states));
  }

  lemma FoldNone(sessionId: Id, c: Cursor)
    ensures Fold(sessionId, c, []) == Ok(c)
  {}

  lemma FoldNext(sessionId: Id, c: Cursor, events: seq<Event>, i: nat)
    requires i < |events| && Fold(sessionId, c, events[..i]).Ok?
    ensures Fold(sessionId, c, events[..i + 1]) == Step(sessionId, Fold(sessionId, c, events[..i]).value, events[i])
  {
    assert events[..i + 1][..i] == events[..i] && events[..i + 1][i] == events[i];
    hide Step;
  }

  /** A refusal of a prefix is the refusal of the whole. */
  lemma {:induction false} Stuck(sessionId: Id, c: Cursor, events: seq<Event>, k: nat)
    requires k <= |events| && Fold(sessionId, c, events[..k]).Err?
    ensures Fold(sessionId, c, events) == Fold(sessionId, c, events[..k])
    decreases |events| - k
  {
    if k < |events| {
      assert events[..k + 1][..k] == events[..k];
      Stuck(sessionId, c, events, k + 1);
    } else {
      assert events[..k] == events;
    }
  }

  lemma {:induction false} FoldAppend(sessionId: Id, c: Cursor, a: seq<Event>, b: seq<Event>)
    ensures Fold(sessionId, c, a + b) ==
            match Fold(sessionId, c, a) { case Err(code) => Err(code) case Ok(d) => Fold(sessionId, d, b) }
  {
    if |b| == 0 {
      assert a + b == a;
    } else {
      FoldAppend(sessionId, c, a, b[..|b| - 1]);
      assert (a + b)[..|a + b| - 1] == a + b[..|b| - 1];
    }
  }

  /** A successful fold numbers its events contiguously and ends at the last of them. */
  lemma {:induction false} FoldContiguous(sessionId: Id, c: Cursor, events: seq<Event>)
    requires Fold(sessionId, c, events).Ok?
    ensures Fold(sessionId, c, events).value.lastSequence == c.lastSequence + |events|
    ensures forall i :: 0 <= i < |events| ==> events[i].sequence == c.lastSequence + 1 + i && events[i].sessionId == sessionId
  {
    if |events| > 0 { FoldContiguous(sessionId, c, events[..|events| - 1]); }
  }

  /** Replaying a journal is replaying a prefix of it and continuing from the result. */
  lemma ReplayResumes(a: seq<Event>, b: seq<Event>)
    requires |a| > 0 && ReplayOf(a, None).Ok?
    ensures ReplayOf(a + b, None) == ReplayOf(b, Some(ReplayOf(a, None).value))
  {
    var id := a[0].sessionId;
    assert (a + b)[0] == a[0];
    FoldAppend(id, Start(a, None), a, b);
    FoldContiguous(id, Start(a, None), a);
  }

  // ---- the outbox ------------------------------------------------------------------------------------

  datatype Delivery = Intended | Dispatched | Uncertain | Resolved
  datatype OutboxEntry = OutboxEntry(state: Delivery, status: Option<ReceiptStatus>)
  datatype Outbox = Outbox(order: seq<Id>, entries: map<Id, OutboxEntry>, archived: seq<Id>)

  /** How one event moves the delivery state of the effect it names. */
  function OutboxStep(o: Outbox, e: Event, effects: seq<Effect>, receipts: seq<Receipt>): Result<Outbox> {
    match e.kind
    case EffectIntended =>
      if e.payload.effectId.None? then Err(SchemaInvalid)
      else
        var id := e.payload.effectId.value;
        if id in o.entries then Err(InvariantViolation)
        else if !HasEffect(effects, id) then Err(ArtifactUnavailable)
        else Ok(o.(order := o.order + [id], entries := o.entries[id := OutboxEntry(Intended, None)]))
    case EffectDispatched =>
      if e.payload.effectId.None? then Err(SchemaInvalid)
      else
        var id := e.payload.effectId.value;
        if id !in o.entries then Err(InvariantViolation)
        else if o.entries[id].state != Intended then Err(InvariantViolation)
        else Ok(o.(entries := o.entries[id := OutboxEntry(Dispatched, None)]))
    case ReceiptApplied =>
      if e.payload.effectId.None? || e.payload.objectRef.None? then Err(SchemaInvalid)
      else
        var id := e.payload.effectId.value;
        if id !in o.entries then Err(InvariantViolation)
        else
          var receipt := FindReceipt(receipts, e.payload.objectRef.value.id);
          if receipt.None? then Err(ArtifactUnavailable)
          else if receipt.value.status == UnknownStatus then Ok(o.(entries := o.entries[id := OutboxEntry(Uncertain, None)]))
          else Ok(o.(entries := o.entries[id := OutboxEntry(Resolved, Some(receipt.value.status))]))
    case ReceiptArchived =>
      if e.payload.objectRef.None? then Err(SchemaInvalid)
      else Ok(o.(archived := o.archived + [e.payload.objectRef.value.id]))
    case _ => Ok(o)
  }

  function OutboxOf(events: seq<Event>, effects: seq<Effect>, receipts: seq<Receipt>): Result<Outbox> {
    if |events| == 0 then Ok(Outbox([], map[], []))
    else
      match OutboxOf(events[..|events| - 1], effects, receipts)
      case Err(code) => Err(code)
      case Ok(o) => OutboxStep(o, events[|events| - 1], effects, receipts)
  }

  method ProjectOutbox(events: seq<Event>, effects: seq<Effect>, receipts: seq<Receipt>) returns (r: Result<Outbox>)
    ensures r == OutboxOf(events, effects, receipts)
  {
    var o := Outbox([], map[], []);
    for i := 0 to |events|
      invariant OutboxOf(events[..i], effects, receipts) == Ok(o)
    {
      assert events[..i + 1][..i] == events[..i] && events[..i + 1][i] == events[i];
      var step := OutboxStep(o, events[i], effects, receipts);
      if step.Err? {
        OutboxStuck(events, i + 1, effects, receipts);
        return Err(step.code);
      }
      o := step.value;
    }
    assert events[..|events|] == events;
    return Ok(o);
  }

  lemma {:induction false} OutboxStuck(events: seq<Event>, k: nat, effects: seq<Effect>, receipts: seq<Receipt>)
    requires k <= |events| && OutboxOf(events[..k], effects, receipts).Err?
    ensures OutboxOf(events, effects, receipts) == OutboxOf(events[..k], effects, receipts)
    decreases |events| - k
  {
    if k < |events| {
      assert events[..k + 1][..k] == events[..k];
      OutboxStuck(events, k + 1, effects, receipts);
    } else {
      assert events[..k] == events;
    }
  }

  predicate Dispatches(e: Event, id: Id) { e.kind == EffectDispatched && e.payload.effectId == Some(id) }
  predicate Intends(e: Event, id: Id) { e.kind == EffectIntended && e.payload.effectId == Some(id) }

  /** In a consistent journal an effect is listed exactly when it was intended, and then it was intended once, with its content. */
  lemma {:induction false} IntentionHistory(events: seq<Event>, effects: seq<Effect>, receipts: seq<Receipt>, id: Id)
    requires OutboxOf(events, effects, receipts).Ok?
    ensures var o := OutboxOf(events, effects, receipts).value;
      && (id in o.entries <==> exists i :: 0 <= i < |events| && Intends(events[i], id))
      && (id in o.entries ==> HasEffect(effects, id))
      && (forall i, j :: 0 <= i < j < |events| && Intends(events[i], id) ==> !Intends(events[j], id))
  {
    hide HasEffect, FindReceipt;
    if |events| > 0 {
      var init := events[..|events| - 1];
      IntentionHistory(init, effects, receipts, id);
      assert forall i :: 0 <= i < |init| ==> init[i] == events[i];
      var before := OutboxOf(init, effects, receipts).value;
      if id in before.entries {
        var i :| 0 <= i < |init| && Intends(init[i], id);
        assert Intends(events[i], id);
      }
    }
  }

  /** A dispatched effect was intended before, is dispatched once, and reads `intended` no more. */
  lemma {:induction false} DispatchHistory(events: seq<Event>, effects: seq<Effect>, receipts: seq<Receipt>, id: Id)
    requires OutboxOf(events, effects, receipts).Ok?
    ensures var o := OutboxOf(events, effects, receipts).value;
      && (forall i, j :: 0 <= i < j < |events| && Dispatches(events[i], id) ==> !Dispatches(events[j], id))
      && (forall j :: 0 <= j < |events| && Dispatches(events[j], id) ==> exists i :: 0 <= i < j && Intends(events[i], id))
      && ((exists i :: 0 <= i < |events| && Dispatches(events[i], id)) ==> id in o.entries && o.entries[id].state != Intended)
  {
    hide HasEffect, FindReceipt;
    if |events| > 0 {
      var init := events[..|events| - 1];
      DispatchHistory(init, effects, receipts, id);
      IntentionHistory(init, effects, receipts, id);
      assert forall i :: 0 <= i < |init| ==> init[i] == events[i];
    }
  }
}
