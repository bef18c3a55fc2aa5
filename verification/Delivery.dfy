/** Dispatching an effect and reporting its receipt: how deliveries advance a session, and what can never happen twice. */
module Delivery {
  import opened Options
  import opened JournalTypes
  import opened Replay
  import opened Commit
  import opened Sessions

  datatype DispatchInput = DispatchInput(effectId: Id, claimId: Id, expectedRevision: int, epoch: int)
  datatype ReceiptInput = ReceiptInput(receipt: Receipt, objectRef: ObjectRef, expectedRevision: int, epoch: int)
  datatype Standing = Applied | Archived | Redelivered
  datatype ReceiptOutcome = ReceiptOutcome(standing: Standing, revision: int, effectId: Id, receiptId: Id)

  /** `changed` stands for the list of ids the event says it changed. */
  function PayloadOf(binding: Binding, objectRef: Option<ObjectRef>, effectId: Id): Payload {
    Payload(Some(binding), objectRef, None, None, Some(effectId), effectId)
  }

  function Projection(s: Session): Result<Outbox> { OutboxOf(s.events, s.effects, s.receipts) }

  /** The content of an effect the outbox lists. */
  function ContentOf(s: Session, id: Id): (e: Effect)
    requires Projection(s).Ok? && id in Projection(s).value.entries
    ensures e.effectId == id && e in s.effects
  {
    IntentionHistory(s.events, s.effects, s.receipts, id);
    DispatchHistory(s.events, s.effects, s.receipts, id);
    FindEffectIn(s.effects, id);
    FindEffect(s.effects, id).value
  }

  function DispatchDraft(s: Session, input: DispatchInput, binding: Binding): Draft {
    Draft(s.protocol, input.claimId, None, None, s.sessionId, input.epoch, input.claimId, EffectDispatched,
          PayloadOf(binding, None, input.effectId), "internal")
  }

  function DispatchRequest(s: Session, input: DispatchInput, binding: Binding): Request {
    Request(s.sessionId, "dispatch:" + input.claimId, input.expectedRevision, input.epoch, [DispatchDraft(s, input, binding)], [], [])
  }

  function DispatchOf(s: Session, input: DispatchInput): Result<(Session, Outcome)> {
    match Projection(s)
    case Err(code) => Err(code)
    case Ok(o) =>
      if input.effectId !in o.entries then Err(SchemaInvalid)
      else if o.entries[input.effectId].state != Intended then Err(ClaimConflict)
      else
        var effect := ContentOf(s, input.effectId);
        if effect.binding.epoch != s.epoch then Err(LeaseStale) else CommitTo(s, DispatchRequest(s, input, effect.binding))
  }

  /** A receipt of another epoch or another binding is kept as evidence but settles nothing. */
  predicate Stale(effect: Effect, input: ReceiptInput) { input.receipt.binding.epoch != input.epoch || input.receipt.binding != effect.binding }

  function ReceiptDraft(s: Session, input: ReceiptInput, effect: Effect): Draft {
    var id := input.receipt.receiptId;
    Draft(s.protocol, id, None, None, s.sessionId, input.epoch, id, if Stale(effect, input) then ReceiptArchived else ReceiptApplied,
          PayloadOf(effect.binding, Some(input.objectRef), input.receipt.effectId), "internal")
  }

  function ReceiptRequest(s: Session, input: ReceiptInput, effect: Effect): Request {
    Request(s.sessionId, "receipt:" + input.receipt.receiptId, input.expectedRevision, input.epoch,
            [ReceiptDraft(s, input, effect)], [], [input.receipt])
  }

  predicate Awaiting(state: Delivery) { state == Dispatched || state == Uncertain }

  function ApplyReceiptOf(s: Session, input: ReceiptInput): Result<(Session, ReceiptOutcome)> {
    var r := input.receipt;
    match FindEffect(s.effects, r.effectId)
    case None => Err(SchemaInvalid)
    case Some(effect) =>
      if input.objectRef.id != r.receiptId then Err(BindingMismatch)
      else
        match FindReceipt(s.receipts, r.receiptId)
        case Some(existing) =>
          if existing != r then Err(IdempotencyCollision)
          else Ok((s, ReceiptOutcome(Redelivered, s.revision, r.effectId, r.receiptId)))
        case None =>
          match Projection(s)
          case Err(code) => Err(code)
          case Ok(o) =>
            if r.effectId !in o.entries then Err(SchemaInvalid)
            else if !Awaiting(o.entries[r.effectId].state) then Err(ClaimConflict)
            else if r.status != UnknownStatus && |r.observability| == 0 then Err(EffectUnknown)
            else
              match CommitTo(s, ReceiptRequest(s, input, effect))
              case Err(code) => Err(code)
              case Ok(next) =>
                Ok((next.0, ReceiptOutcome(if Stale(effect, input) then Archived else Applied, next.1.revision, r.effectId, r.receiptId)))
  }

  function ReconcileOf(s: Session, input: ReceiptInput): Result<(Session, ReceiptOutcome)> {
    var r := input.receipt;
    if FindReceipt(s.receipts, r.receiptId).Some? then ApplyReceiptOf(s, input)
    else if r.status == UnknownStatus || |r.observability| == 0 then Err(EffectUnknown)
    else
      match Projection(s)
      case Err(code) => Err(code)
      case Ok(o) =>
        if r.effectId !in o.entries then Err(SchemaInvalid)
        else if !Awaiting(o.entries[r.effectId].state) then Err(ClaimConflict)
        else ApplyReceiptOf(s, input)
  }

  // ---- one-event batches -----------------------------------------------------------------------------------

  /** The identity checks of a batch with one event and no intention come down to this. */
  lemma OneDraftCodes(s: Session, d: Draft, receipts: seq<Receipt>)
    requires d.sessionId == s.sessionId && d.sequence.None? && d.revision.None? && d.kind != EffectIntended
    ensures DraftCode(s, [d]).None? <==> d.eventId !in s.eventIds
    ensures EffectsCode(s, [d], []).None?
  {
    assert [d][..0] == [];
    assert EffectIds([]) == [] && Keys([]) == [];
  }

  /** A single event of the current epoch that moves no node always replays onto a sound journal. */
  lemma OneEventReplays(s: Session, d: Draft)
    requires |s.events| > 0 && d.sessionId == s.sessionId && d.epoch == s.epoch && d.kind in {EffectDispatched, ReceiptApplied, ReceiptArchived}
    requires s.lastSequence == |s.events| - 1
    requires Replays(s)
    ensures Produced(s).Ok? && ReplayOf(NewEvents(s, [d]), Some(Produced(s).value)).Ok?
  {
    var more, state := NewEvents(s, [d]), Produced(s).value;
    var e := EventOf(s, d, 0);
    assert more == [e];
    var c := Start(more, Some(state));
    assert more[..0] == [];
    hide ReplayOf;
    assert Fold(s.sessionId, c, more) == Step(s.sessionId, c, e);
    ReplaysOne(s.sessionId, state, e);
  }

  lemma ReplaysOne(sessionId: Id, state: ReplayState, e: Event)
    requires state.sessionId == sessionId && Step(sessionId, Start([e], Some(state)), e).Ok?
    ensures ReplayOf([e], Some(state)).Ok?
  {
    var c := Start([e], Some(state));
    assert [e][..0] == [];
    assert Fold(sessionId, c, [e][..0]) == Ok(c);
    assert Fold(sessionId, c, [e]) == Step(sessionId, c, e);
  }

  // ---- dispatching -------------------------------------------------------------------------------------------

  /** Everything a dispatch asks for. */
  predicate Dispatchable(s: Session, input: DispatchInput) {
    && Projection(s).Ok? && input.effectId in Projection(s).value.entries && Projection(s).value.entries[input.effectId].state == Intended
    && ContentOf(s, input.effectId).binding.epoch == s.epoch == input.epoch && input.expectedRevision == s.revision
    && input.claimId !in s.eventIds && FindEntry(s.requests, "dispatch:" + input.claimId).None?
  }

  lemma HasEvents(s: Session, id: Id)
    requires Projection(s).Ok? && id in Projection(s).value.entries
    ensures |s.events| > 0
  {}

  /** The batch a dispatch sends passes every check of the journal. */
  lemma DispatchCommits(s: Session, input: DispatchInput)
    requires Sound(s) && Dispatchable(s, input)
    ensures var req := DispatchRequest(s, input, ContentOf(s, input.effectId).binding);
      CommitTo(s, req) == Ok((Apply(s, req), OutcomeOf(s, req)))
  {
    var binding := ContentOf(s, input.effectId).binding;
    var req, d := DispatchRequest(s, input, binding), DispatchDraft(s, input, binding);
    HasEvents(s, input.effectId);
    OneDraftCodes(s, d, []);
    hide OutboxOf, Identified, IntendedAll, Evidenced, Indexed, Journalled, ReplaysTo, ReplayOf, DraftCode, EffectsCode, DistinctIds, JournalState;
    OneEventReplays(s, d);
    DispatchProjects(s, input);
    NoReceipts(s, req.drafts);
    assert NewReceipts(s, []) == [];
  }

  lemma NoReceipts(s: Session, drafts: seq<Draft>)
    requires |drafts| == 1 && drafts[0].kind == EffectDispatched
    ensures ReceiptsCode(s, drafts, []).None?
  {
    assert ReceiptIds([]) == [];
  }

  lemma DispatchProjects(s: Session, input: DispatchInput)
    requires Dispatchable(s, input)
    ensures var o := Projection(s).value;
      SimulatedOutbox(s, DispatchRequest(s, input, ContentOf(s, input.effectId).binding))
        == Ok(o.(entries := o.entries[input.effectId := OutboxEntry(Dispatched, None)]))
  {
    var binding := ContentOf(s, input.effectId).binding;
    var req := DispatchRequest(s, input, binding);
    var more := NewEvents(s, req.drafts);
    assert more == [EventOf(s, req.drafts[0], 0)];
    assert (s.events + more)[..|s.events|] == s.events;
    assert s.effects + [] == s.effects && s.receipts + [] == s.receipts;
    assert NewReceipts(s, []) == [];
  }

  lemma AppliedProjects(s: Session, req: Request)
    ensures Projection(Apply(s, req)) == SimulatedOutbox(s, req)
  {
    hide OutboxOf, NewReceipts, NewEvents, Bind;
  }

  /** After its dispatch an effect reads `dispatched`, and every other one as before. */
  lemma DispatchedReads(s: Session, input: DispatchInput)
    requires Dispatchable(s, input)
    ensures var o := Projection(s).value;
      Projection(Apply(s, DispatchRequest(s, input, ContentOf(s, input.effectId).binding)))
        == Ok(o.(entries := o.entries[input.effectId := OutboxEntry(Dispatched, None)]))
  {
    DispatchProjects(s, input);
    AppliedProjects(s, DispatchRequest(s, input, ContentOf(s, input.effectId).binding));
    hide OutboxOf, SimulatedOutbox, Apply, ContentOf, DispatchRequest;
  }

  /** A stored request with a dispatch for the effect means the effect is past `intended`. */
  lemma NotSentBefore(s: Session, input: DispatchInput, binding: Binding)
    requires Sound(s) && Projection(s).Ok? && input.effectId in Projection(s).value.entries
    requires Projection(s).value.entries[input.effectId].state == Intended
    ensures forall e :: e in s.requests ==> e.request != DispatchRequest(s, input, binding)
  {
    var id, d := input.effectId, DispatchDraft(s, input, binding);
    forall e | e in s.requests ensures e.request != DispatchRequest(s, input, binding) {
      if e.request == DispatchRequest(s, input, binding) {
        assert d in e.request.drafts;
        var i := DraftFound(s.events, s.requests, e, d);
        assert Dispatches(s.events[i], id);
        IntentionHistory(s.events, s.effects, s.receipts, id);
        DispatchHistory(s.events, s.effects, s.receipts, id);
        assert false;
      }
    }
  }

  /** A dispatch is accepted exactly when the effect is intended at the current epoch and the claim is new; it then commits one event. */
  lemma DispatchIff(s: Session, input: DispatchInput)
    requires Sound(s)
    ensures DispatchOf(s, input).Ok? <==> Dispatchable(s, input)
    ensures Dispatchable(s, input) ==>
      var req := DispatchRequest(s, input, ContentOf(s, input.effectId).binding);
      DispatchOf(s, input) == Ok((Apply(s, req), OutcomeOf(s, req)))
  {
    hide Sound, CommitTo, OutboxOf;
    if Dispatchable(s, input) { DispatchCommits(s, input); }
    if DispatchOf(s, input).Ok? {
      var binding := ContentOf(s, input.effectId).binding;
      var req := DispatchRequest(s, input, binding);
      NotSentBefore(s, input, binding);
      CommitCases(s, req);
      FindEntryIn(s.requests, req.requestId);
      FreshNeeds(s, req);
    }
  }

  lemma FreshNeeds(s: Session, req: Request)
    requires Fresh(s, req) && |req.drafts| == 1 && req.drafts[0].kind != EpochChanged && req.drafts[0].epoch == req.epoch
    ensures req.expectedRevision == s.revision && req.epoch == s.epoch && req.drafts[0].eventId !in s.eventIds
  {
    FreshParts(s, req);
    DraftsNew(s, req.drafts, 0);
    hide Fresh;
  }

  // ---- no second delivery --------------------------------------------------------------------------------------

  predicate Settles(e: Event, id: Id) { e.kind == ReceiptApplied && e.payload.effectId == Some(id) }

  ghost predicate Untouched(events: seq<Event>, id: Id) {
    forall i :: 0 <= i < |events| ==> !Dispatches(events[i], id) && !Settles(events[i], id)
  }

  /** A listed effect is still `intended` exactly when no event dispatches it or applies a receipt to it. */
  lemma {:induction false} IntendedIff(events: seq<Event>, effects: seq<Effect>, receipts: seq<Receipt>, id: Id)
    requires OutboxOf(events, effects, receipts).Ok?
    ensures var o := OutboxOf(events, effects, receipts).value;
      if id in o.entries then o.entries[id].state == Intended <==> Untouched(events, id) else Untouched(events, id)
  {
    if |events| > 0 {
      var init, last := events[..|events| - 1], events[|events| - 1];
      IntendedIff(init, effects, receipts, id);
      assert Untouched(events, id) <==> Untouched(init, id) && !Dispatches(last, id) && !Settles(last, id) by {
        assert forall i :: 0 <= i < |init| ==> init[i] == events[i];
      }
      hide Untouched;
    }
  }

  /** Once an effect's dispatch is in the journal no claim for it is ever accepted again, whatever happens in between. */
  lemma DispatchedOnce(s: Session, i: nat, later: seq<Request>, input: DispatchInput)
    requires Sound(s) && i < |s.events| && Dispatches(s.events[i], input.effectId)
    ensures DispatchOf(RunAll(s, later), input) == Err(ClaimConflict)
  {
    var t := RunAll(s, later);
    RunKeepsSound(s, later);
    RunExtends(s, later);
    hide RunAll, OutboxOf, Numbered, Replays, Identified, IntendedAll, Evidenced, Indexed, Journalled;
    assert t.events[i] == s.events[i];
    IntentionHistory(t.events, t.effects, t.receipts, input.effectId);
    DispatchHistory(t.events, t.effects, t.receipts, input.effectId);
  }

  // ---- what may be sent ------------------------------------------------------------------------------------------

  lemma {:induction false} OrderListed(events: seq<Event>, effects: seq<Effect>, receipts: seq<Receipt>)
    requires OutboxOf(events, effects, receipts).Ok?
    ensures var o := OutboxOf(events, effects, receipts).value;
      && (forall id :: id in o.order <==> id in o.entries)
      && (forall i, j :: 0 <= i < j < |o.order| ==> o.order[i] != o.order[j])
  {
    if |events| > 0 { OrderListed(events[..|events| - 1], effects, receipts); }
  }

  /** The intended effects of the current epoch, in the order they were intended. */
  function Sendable(s: Session, order: seq<Id>): seq<Effect>
    requires Projection(s).Ok? && forall id :: id in order ==> id in Projection(s).value.entries
  {
    if |order| == 0 then []
    else
      var init, id := order[..|order| - 1], order[|order| - 1];
      assert id in order;
      Sendable(s, init) +
      if Projection(s).value.entries[id].state == Intended && ContentOf(s, id).binding.epoch == s.epoch then [ContentOf(s, id)] else []
  }

  function NextOf(s: Session): Result<seq<Effect>> {
    match Projection(s)
    case Err(code) => Err(code)
    case Ok(o) =>
      OrderListed(s.events, s.effects, s.receipts);
      Ok(Sendable(s, o.order))
  }

  predicate MaySend(s: Session, id: Id)
    requires Projection(s).Ok? && id in Projection(s).value.entries
  {
    Projection(s).value.entries[id].state == Intended && ContentOf(s, id).binding.epoch == s.epoch
  }

  lemma {:induction false} SendableIs(s: Session, order: seq<Id>)
    requires Projection(s).Ok? && forall id :: id in order ==> id in Projection(s).value.entries
    ensures forall e :: e in Sendable(s, order) <==> exists i :: 0 <= i < |order| && MaySend(s, order[i]) && e == ContentOf(s, order[i])
  {
    hide OutboxOf, ContentOf;
    if |order| > 0 {
      var init, id := order[..|order| - 1], order[|order| - 1];
      SendableIs(s, init);
      assert forall i :: 0 <= i < |init| ==> init[i] == order[i];
      forall e | e in Sendable(s, order) ensures exists i :: 0 <= i < |order| && MaySend(s, order[i]) && e == ContentOf(s, order[i]) {
        if e in Sendable(s, init) {
          var i :| 0 <= i < |init| && MaySend(s, init[i]) && e == ContentOf(s, init[i]);
          assert MaySend(s, order[i]) && e == ContentOf(s, order[i]);
        } else {
          assert MaySend(s, order[|order| - 1]);
        }
      }
      forall i | 0 <= i < |order| && MaySend(s, order[i]) ensures ContentOf(s, order[i]) in Sendable(s, order) {
        if i < |init| { assert MaySend(s, init[i]); }
      }
    }
  }

  lemma {:induction false} FindsIt(effects: seq<Effect>, e: Effect)
    requires IdsCode(EffectIds(effects)).None? && e in effects
    ensures FindEffect(effects, e.effectId) == Some(e)
  {
    var init := effects[..|effects| - 1];
    assert EffectIds(init) == EffectIds(effects)[..|init|];
    IdsDistinct(EffectIds(effects), |init|);
    if e in init {
      var i :| 0 <= i < |init| && init[i] == e;
      assert EffectIds(init)[i] == e.effectId;
      FindsIt(init, e);
    }
  }

  lemma Content(s: Session, e: Effect)
    requires Sound(s) && e in s.effects
    ensures e.effectId in Projection(s).value.entries && ContentOf(s, e.effectId) == e
  {
    hide Numbered, Replays, Evidenced, Indexed, Journalled, OutboxOf, IdsCode, Bind, ReplaysTo;
    IntentionHistory(s.events, s.effects, s.receipts, e.effectId);
    DispatchHistory(s.events, s.effects, s.receipts, e.effectId);
    FindsIt(s.effects, e);
  }

  /** The effects handed out are exactly the committed ones of this epoch that no event dispatched or settled. */
  lemma NextAre(s: Session)
    requires Sound(s)
    ensures NextOf(s).Ok?
    ensures forall e :: e in NextOf(s).value <==> e in s.effects && e.binding.epoch == s.epoch && Untouched(s.events, e.effectId)
  {
    hide Numbered, Replays, Identified, IntendedAll, Evidenced, Indexed, Journalled, OutboxOf, Untouched, Sendable;
    var o := Projection(s).value;
    OrderListed(s.events, s.effects, s.receipts);
    SendableIs(s, o.order);
    forall e ensures e in NextOf(s).value <==> e in s.effects && e.binding.epoch == s.epoch && Untouched(s.events, e.effectId) {
      if e in s.effects {
        Content(s, e);
        IntendedIff(s.events, s.effects, s.receipts, e.effectId);
        if MaySend(s, e.effectId) {
          var i :| 0 <= i < |o.order| && o.order[i] == e.effectId;
          assert MaySend(s, o.order[i]) && e == ContentOf(s, o.order[i]);
        }
      }
    }
  }

  // ---- receipts ------------------------------------------------------------------------------------------------------

  lemma {:induction false} OneMore(receipts: seq<Receipt>, r: Receipt, id: Id)
    ensures FindReceipt(receipts + [r], id) == if r.receiptId == id then Some(r) else FindReceipt(receipts, id)
  {
    assert (receipts + [r])[..|receipts|] == receipts;
  }

  /** A new receipt leaves the reading of a consistent journal as it is. */
  lemma {:induction false} OutboxKeeps(events: seq<Event>, effects: seq<Effect>, receipts: seq<Receipt>, r: Receipt)
    requires OutboxOf(events, effects, receipts).Ok? && FindReceipt(receipts, r.receiptId).None?
    ensures OutboxOf(events, effects, receipts + [r]) == OutboxOf(events, effects, receipts)
  {
    hide FindReceipt, HasEffect;
    if |events| > 0 {
      var last := events[|events| - 1];
      OutboxKeeps(events[..|events| - 1], effects, receipts, r);
      if last.kind == ReceiptApplied && last.payload.objectRef.Some? { OneMore(receipts, r, last.payload.objectRef.value.id); }
    }
  }

  function SettledEntry(status: ReceiptStatus): OutboxEntry {
    if status == UnknownStatus then OutboxEntry(Uncertain, None) else OutboxEntry(Resolved, Some(status))
  }

  /** How the outbox reads after a receipt was committed. */
  function AfterReceipt(o: Outbox, effect: Effect, input: ReceiptInput): Outbox {
    if Stale(effect, input) then o.(archived := o.archived + [input.objectRef.id])
    else o.(entries := o.entries[input.receipt.effectId := SettledEntry(input.receipt.status)])
  }

  /** Everything a new receipt asks for. */
  predicate Receivable(s: Session, input: ReceiptInput) {
    var r := input.receipt;
    && FindEffect(s.effects, r.effectId).Some? && input.objectRef.id == r.receiptId && FindReceipt(s.receipts, r.receiptId).None?
    && Projection(s).Ok? && r.effectId in Projection(s).value.entries && Awaiting(Projection(s).value.entries[r.effectId].state)
    && (r.status == UnknownStatus || |r.observability| > 0)
    && ValidId(r.receiptId) && r.protocol == s.protocol && input.expectedRevision == s.revision && input.epoch == s.epoch
    && r.receiptId !in s.eventIds && FindEntry(s.requests, "receipt:" + r.receiptId).None?
  }

  lemma ReceiptProjects(s: Session, input: ReceiptInput, effect: Effect)
    requires Projection(s).Ok? && input.receipt.effectId in Projection(s).value.entries && input.objectRef.id == input.receipt.receiptId
    requires FindReceipt(s.receipts, input.receipt.receiptId).None?
    ensures SimulatedOutbox(s, ReceiptRequest(s, input, effect)) == Ok(AfterReceipt(Projection(s).value, effect, input))
  {
    var req := ReceiptRequest(s, input, effect);
    var r, more := input.receipt, NewEvents(s, req.drafts);
    assert more == [EventOf(s, req.drafts[0], 0)];
    assert [r][..0] == [];
    assert NewReceipts(s, []) == [];
    assert NewReceipts(s, [r]) == [r];
    assert (s.events + more)[..|s.events|] == s.events;
    assert s.effects + [] == s.effects;
    OutboxKeeps(s.events, s.effects, s.receipts, r);
    OneMore(s.receipts, r, r.receiptId);
  }

  lemma OneReceiptCodes(s: Session, d: Draft, r: Receipt)
    requires IsReceiptEvent(d.kind) && d.payload.objectRef.Some? && d.payload.objectRef.value.id == r.receiptId
    requires FindReceipt(s.receipts, r.receiptId).None?
    ensures ReceiptsCode(s, [d], [r]).None? <==> ValidId(r.receiptId)
  {
    hide ValidId;
    assert ReceiptIds([r])[..0] == [] && [r][..0] == [];
    assert References([d], r.receiptId) by { assert [d][0] == d; }
    assert FindReceipt([r], r.receiptId) == Some(r);
    assert ReceiptCode(s, [d], [r][..0]).None?;
    assert ReceiptCode(s, [d], [r]).None?;
    assert ReferencesCovered(s, [d], [r]);
    assert !NamelessReceipt([d]);
    assert ReceiptIds([r])[0] == r.receiptId;
    assert IdsCode(ReceiptIds([r])).None? <==> ValidId(r.receiptId);
  }

  /** The batch a new receipt sends passes every check of the journal. */
  lemma ReceiptCommits(s: Session, input: ReceiptInput, effect: Effect)
    requires Sound(s) && Receivable(s, input)
    ensures var req := ReceiptRequest(s, input, effect); CommitTo(s, req) == Ok((Apply(s, req), OutcomeOf(s, req)))
  {
    var r, d, req := input.receipt, ReceiptDraft(s, input, effect), ReceiptRequest(s, input, effect);
    HasEvents(s, r.effectId);
    OneDraftCodes(s, d, []);
    OneReceiptCodes(s, d, r);
    ReceiptProjects(s, input, effect);
    hide OutboxOf, Identified, IntendedAll, Evidenced, Indexed, Journalled, ReplaysTo, ReplayOf, DraftCode, EffectsCode, ReceiptsCode,
      DistinctIds, JournalState, ValidId, FindEntry, FindReceipt, SimulatedOutbox;
    OneEventReplays(s, d);
  }

  /** A stored receipt event means its receipt is stored. */
  lemma StoredReceipt(s: Session, e: Entry, d: Draft)
    requires Sound(s) && e in s.requests && d in e.request.drafts && IsReceiptEvent(d.kind)
    ensures d.payload.objectRef.Some? && FindReceipt(s.receipts, d.payload.objectRef.value.id).Some?
  {
    hide FindReceipt, Numbered, Replays, Projects, Identified, IntendedAll, Indexed, Named, IdsCode;
    var i := DraftFound(s.events, s.requests, e, d);
    assert Holds(s.receipts, s.events[i]);
  }

  lemma NotReportedBefore(s: Session, input: ReceiptInput, effect: Effect)
    requires Sound(s) && FindReceipt(s.receipts, input.receipt.receiptId).None? && input.objectRef.id == input.receipt.receiptId
    ensures forall e :: e in s.requests ==> e.request != ReceiptRequest(s, input, effect)
  {
    hide Sound, FindReceipt;
    var d := ReceiptDraft(s, input, effect);
    assert d in ReceiptRequest(s, input, effect).drafts;
    forall e | e in s.requests ensures d !in e.request.drafts {
      if d in e.request.drafts { StoredReceipt(s, e, d); }
    }
  }

  lemma FreshReceipt(s: Session, input: ReceiptInput, effect: Effect)
    requires Fresh(s, ReceiptRequest(s, input, effect)) && input.objectRef.id == input.receipt.receiptId
    requires FindReceipt(s.receipts, input.receipt.receiptId).None?
    ensures ValidId(input.receipt.receiptId) && input.receipt.protocol == s.protocol
  {
    var req := ReceiptRequest(s, input, effect);
    FreshParts(s, req);
    FreshProtocols(s, req);
    OneReceiptCodes(s, req.drafts[0], input.receipt);
    hide Fresh, ValidId;
    assert req.receipts[0].protocol == s.protocol;
  }

  /**
   * A new receipt is accepted exactly when its effect is awaiting one, it brings evidence unless it reports
   * `unknown`, and it is sent at the current revision and epoch. It settles the effect only when it is bound
   * exactly as the effect was and to the current epoch; otherwise the outbox keeps the effect as it was.
   */
  lemma ReceiptIff(s: Session, input: ReceiptInput)
    requires Sound(s) && FindReceipt(s.receipts, input.receipt.receiptId).None?
    ensures ApplyReceiptOf(s, input).Ok? <==> Receivable(s, input)
    ensures Receivable(s, input) ==>
      var effect := FindEffect(s.effects, input.receipt.effectId).value;
      var req := ReceiptRequest(s, input, effect);
      && ApplyReceiptOf(s, input).value.0 == Apply(s, req)
      && ApplyReceiptOf(s, input).value.1.standing == (if Stale(effect, input) then Archived else Applied)
      && Projection(Apply(s, req)) == Ok(AfterReceipt(Projection(s).value, effect, input))
  {
    hide Sound, CommitTo, OutboxOf, ValidId, FindReceipt, FindEntry, Apply, AfterReceipt, Stale;
    if FindEffect(s.effects, input.receipt.effectId).Some? && input.objectRef.id == input.receipt.receiptId {
      var effect := FindEffect(s.effects, input.receipt.effectId).value;
      var req := ReceiptRequest(s, input, effect);
      if Receivable(s, input) {
        ReceiptCommits(s, input, effect);
        AppliedProjects(s, req);
        ReceiptProjects(s, input, effect);
      }
      if ApplyReceiptOf(s, input).Ok? {
        NotReportedBefore(s, input, effect);
        CommitCases(s, req);
        FindEntryIn(s.requests, req.requestId);
        FreshNeeds(s, req);
        FreshReceipt(s, input, effect);
      }
    }
  }

}
