/** What a dispatch, a receipt and a reconciliation answer, and exactly what each leaves behind. */
module DeliveryAnswers {
  import opened Options
  import opened JournalTypes
  import opened Replay
  import opened Commit
  import opened Sessions
  import opened Delivery

  /** The event a delivery writes: next in the journal, at the next revision, of the session's current protocol. */
  function Written(s: Session, id: Id, epoch: int, kind: EventKind, binding: Binding, objectRef: Option<ObjectRef>, effectId: Id): Event {
    Event(s.protocol, id, s.lastSequence + 1, s.sessionId, s.revision + 1, epoch, id, kind,
          Payload(Some(binding), objectRef, None, None, Some(effectId), effectId), "internal")
  }

  lemma AppliedOne(s: Session, req: Request)
    requires |req.drafts| == 1 && req.drafts[0].kind != EpochChanged && |req.effects| == 0
    ensures var t, d := Apply(s, req), req.drafts[0];
      && t.events == s.events + [Event(d.protocol, d.eventId, s.lastSequence + 1, d.sessionId, s.revision + 1, d.epoch, d.causedBy, d.kind, d.payload, d.visibility)]
      && t.revision == s.revision + 1 && t.epoch == s.epoch && t.effects == s.effects && t.sessionId == s.sessionId
      && t.lastSequence == s.lastSequence + 1 && t.receipts == s.receipts + NewReceipts(s, req.receipts)
  {
    assert NewEvents(s, req.drafts) == [EventOf(s, req.drafts[0], 0)];
    hide NewReceipts, Bind, OutcomeOf;
  }

  // ---- dispatch -----------------------------------------------------------------------------------------------------------------

  /** An accepted dispatch adds its one event, named by the claim, and answers the new revision; effects and receipts stay. */
  lemma DispatchLeaves(s: Session, input: DispatchInput)
    requires Sound(s) && DispatchOf(s, input).Ok?
    ensures Projection(s).Ok? && input.effectId in Projection(s).value.entries
    ensures var t, answer := DispatchOf(s, input).value.0, DispatchOf(s, input).value.1;
      var effect := ContentOf(s, input.effectId);
      && t.events == s.events + [Written(s, input.claimId, s.epoch, EffectDispatched, effect.binding, None, input.effectId)]
      && t.effects == s.effects && t.receipts == s.receipts && t.revision == s.revision + 1 && t.epoch == s.epoch
      && answer == Outcome(Committed, s.sessionId, s.revision + 1, [input.claimId], [])
  {
    DispatchIff(s, input);
    hide Sound, DispatchOf, Apply, OutboxOf, ContentOf;
    var req := DispatchRequest(s, input, ContentOf(s, input.effectId).binding);
    AppliedOne(s, req);
    assert NewReceipts(s, []) == [];
    assert DraftIds(req.drafts) == [input.claimId] && EffectIds(req.effects) == [];
  }

  /** Why a dispatch is refused, the first reason first. */
  lemma DispatchRefusal(s: Session, input: DispatchInput)
    requires Sound(s) && Projection(s).Ok?
    ensures input.effectId !in Projection(s).value.entries ==> DispatchOf(s, input) == Err(SchemaInvalid)
    ensures input.effectId in Projection(s).value.entries && Projection(s).value.entries[input.effectId].state != Intended ==>
      DispatchOf(s, input) == Err(ClaimConflict)
    ensures (&& input.effectId in Projection(s).value.entries && Projection(s).value.entries[input.effectId].state == Intended
             && ContentOf(s, input.effectId).binding.epoch != s.epoch) ==> DispatchOf(s, input) == Err(LeaseStale)
  {
    hide Sound, OutboxOf, ContentOf, CommitTo;
  }

  // ---- receipts -----------------------------------------------------------------------------------------------------------------

  /** The receipt is bound exactly as the effect was, and to the epoch it is sent at. */
  predicate BoundAlike(effect: Effect, input: ReceiptInput) { input.receipt.binding == effect.binding && effect.binding.epoch == input.epoch }

  /** What a new receipt leaves: itself, one event, and the effect settled, uncertain or as it was. */
  predicate Received(s: Session, input: ReceiptInput, effect: Effect, t: Session, answer: ReceiptOutcome) {
    var r, alike := input.receipt, BoundAlike(effect, input);
    && t.receipts == s.receipts + [r] && t.effects == s.effects && t.revision == s.revision + 1 && t.epoch == s.epoch
    && t.events == s.events + [Written(s, r.receiptId, s.epoch, if alike then ReceiptApplied else ReceiptArchived, effect.binding, Some(input.objectRef), r.effectId)]
    && answer == ReceiptOutcome(if alike then Applied else Archived, s.revision + 1, r.effectId, r.receiptId)
    && Projection(s).Ok? && Projection(t).Ok?
    && var before, after := Projection(s).value, Projection(t).value;
       && after.order == before.order
       && after.archived == (if alike then before.archived else before.archived + [r.receiptId])
       && after.entries == (if !alike then before.entries
                            else before.entries[r.effectId := if r.status == UnknownStatus then OutboxEntry(Uncertain, None)
                                                              else OutboxEntry(Resolved, Some(r.status))])
  }

  lemma ReceivedEvent(s: Session, input: ReceiptInput, effect: Effect)
    requires FindReceipt(s.receipts, input.receipt.receiptId).None? && input.epoch == s.epoch
    ensures var t, r, alike := Apply(s, ReceiptRequest(s, input, effect)), input.receipt, BoundAlike(effect, input);
      && t.receipts == s.receipts + [r] && t.effects == s.effects && t.revision == s.revision + 1 && t.epoch == s.epoch
      && t.events == s.events + [Written(s, r.receiptId, s.epoch, if alike then ReceiptApplied else ReceiptArchived, effect.binding, Some(input.objectRef), r.effectId)]
  {
    AppliedOne(s, ReceiptRequest(s, input, effect));
    OneNewReceipt(s, input.receipt);
    hide Apply, FindReceipt, NewReceipts;
  }

  lemma SettledAs(o: Outbox, effect: Effect, input: ReceiptInput)
    requires input.objectRef.id == input.receipt.receiptId
    ensures var after, r, alike := AfterReceipt(o, effect, input), input.receipt, BoundAlike(effect, input);
      && (Stale(effect, input) <==> !alike)
      && after == o.(archived := if alike then o.archived else o.archived + [r.receiptId],
                     entries := if !alike then o.entries
                                else o.entries[r.effectId := if r.status == UnknownStatus then OutboxEntry(Uncertain, None)
                                                             else OutboxEntry(Resolved, Some(r.status))])
  {}

  lemma ReceiptLeaves(s: Session, input: ReceiptInput)
    requires Sound(s) && FindReceipt(s.receipts, input.receipt.receiptId).None? && ApplyReceiptOf(s, input).Ok?
    ensures FindEffect(s.effects, input.receipt.effectId).Some?
    ensures Received(s, input, FindEffect(s.effects, input.receipt.effectId).value, ApplyReceiptOf(s, input).value.0, ApplyReceiptOf(s, input).value.1)
  {
    ReceiptIff(s, input);
    ReceiptAnswer(s, input);
    hide Sound, ApplyReceiptOf, Apply, Projection, FindEffect, FindReceipt, FindEntry, ValidId, Stale, AfterReceipt, BoundAlike, Written, ReceiptRequest;
    var effect := FindEffect(s.effects, input.receipt.effectId).value;
    ReceivedEvent(s, input, effect);
    SettledAs(Projection(s).value, effect, input);
  }

  lemma OneNewReceipt(s: Session, r: Receipt)
    requires FindReceipt(s.receipts, r.receiptId).None?
    ensures NewReceipts(s, [r]) == [r]
  {
    assert [r][..0] == [] && NewReceipts(s, []) == [];
  }

  lemma ReceiptAnswer(s: Session, input: ReceiptInput)
    requires Sound(s) && FindReceipt(s.receipts, input.receipt.receiptId).None? && ApplyReceiptOf(s, input).Ok?
    ensures var answer := ApplyReceiptOf(s, input).value.1;
      answer.revision == s.revision + 1 && answer.effectId == input.receipt.effectId && answer.receiptId == input.receipt.receiptId
  {
    var effect := FindEffect(s.effects, input.receipt.effectId).value;
    var req := ReceiptRequest(s, input, effect);
    NotReportedBefore(s, input, effect);
    CommitCases(s, req);
    FindEntryIn(s.requests, req.requestId);
    hide Sound, OutboxOf, CommitTo, FindEntry, FindEffect, FindReceipt, Fresh, Apply;
  }

  /** A stored receipt is answered from the store: as redelivered when it is the same, as a collision when it is not. */
  lemma StoredAnswer(s: Session, input: ReceiptInput)
    requires FindReceipt(s.receipts, input.receipt.receiptId).Some? && FindEffect(s.effects, input.receipt.effectId).Some?
    requires input.objectRef.id == input.receipt.receiptId
    ensures var r := input.receipt;
      ApplyReceiptOf(s, input) == if FindReceipt(s.receipts, r.receiptId) == Some(r) then Ok((s, ReceiptOutcome(Redelivered, s.revision, r.effectId, r.receiptId)))
                                  else Err(IdempotencyCollision)
  {
    hide FindReceipt, FindEffect;
  }

  /** Why a receipt is refused, the first reason first. */
  lemma ReceiptRefusal(s: Session, input: ReceiptInput)
    requires Projection(s).Ok?
    ensures var r, o, answer := input.receipt, Projection(s).value, ApplyReceiptOf(s, input);
      && (FindEffect(s.effects, r.effectId).None? ==> answer == Err(SchemaInvalid))
      && (FindEffect(s.effects, r.effectId).Some? && input.objectRef.id != r.receiptId ==> answer == Err(BindingMismatch))
      && (FindEffect(s.effects, r.effectId).Some? && input.objectRef.id == r.receiptId && FindReceipt(s.receipts, r.receiptId).None? ==>
            && (r.effectId !in o.entries ==> answer == Err(SchemaInvalid))
            && (r.effectId in o.entries && o.entries[r.effectId].state !in {Dispatched, Uncertain} ==> answer == Err(ClaimConflict))
            && (r.effectId in o.entries && o.entries[r.effectId].state in {Dispatched, Uncertain} && r.status != UnknownStatus && r.observability == [] ==>
                  answer == Err(EffectUnknown)))
  {
    hide FindReceipt, FindEffect, OutboxOf, CommitTo;
  }

  // ---- reconciliation -----------------------------------------------------------------------------------------------------------

  /**
   * A reconciliation takes a new receipt exactly when a receipt would be taken and it tells what was observed: neither
   * `unknown` nor without evidence. It then leaves what the receipt leaves.
   */
  lemma ReconcileIff(s: Session, input: ReceiptInput)
    requires Sound(s) && FindReceipt(s.receipts, input.receipt.receiptId).None?
    ensures ReconcileOf(s, input).Ok? <==>
      Receivable(s, input) && input.receipt.status != UnknownStatus && |input.receipt.observability| > 0
    ensures ReconcileOf(s, input).Ok? ==>
      FindEffect(s.effects, input.receipt.effectId).Some? &&
      Received(s, input, FindEffect(s.effects, input.receipt.effectId).value, ReconcileOf(s, input).value.0, ReconcileOf(s, input).value.1)
  {
    ReceiptIff(s, input);
    hide Sound, ApplyReceiptOf, OutboxOf, FindEffect, FindReceipt, Received, FindEntry, ValidId;
    if ReconcileOf(s, input).Ok? { ReceiptLeaves(s, input); }
  }

  /** What reports nothing is refused before anything else is looked at; the other refusals follow in order. */
  lemma ReconcileRefusal(s: Session, input: ReceiptInput)
    requires Projection(s).Ok? && FindReceipt(s.receipts, input.receipt.receiptId).None?
    ensures var r, o, answer := input.receipt, Projection(s).value, ReconcileOf(s, input);
      && (r.status == UnknownStatus || r.observability == [] ==> answer == Err(EffectUnknown))
      && (r.status != UnknownStatus && r.observability != [] ==>
            && (r.effectId !in o.entries ==> answer == Err(SchemaInvalid))
            && (r.effectId in o.entries && o.entries[r.effectId].state !in {Dispatched, Uncertain} ==> answer == Err(ClaimConflict))
            && ((r.effectId in o.entries && o.entries[r.effectId].state in {Dispatched, Uncertain} && FindEffect(s.effects, r.effectId).Some?
                 && input.objectRef.id != r.receiptId) ==> answer == Err(BindingMismatch)))
  {
    hide FindReceipt, FindEffect, OutboxOf, CommitTo;
  }

  /** A stored receipt is answered from the store, the session as it was. */
  lemma ReconcileStored(s: Session, input: ReceiptInput)
    requires FindReceipt(s.receipts, input.receipt.receiptId).Some? && FindEffect(s.effects, input.receipt.effectId).Some?
    requires input.objectRef.id == input.receipt.receiptId
    ensures var r := input.receipt;
      ReconcileOf(s, input) == if FindReceipt(s.receipts, r.receiptId) == Some(r) then Ok((s, ReceiptOutcome(Redelivered, s.revision, r.effectId, r.receiptId)))
                               else Err(IdempotencyCollision)
  {
    hide FindReceipt, FindEffect;
    StoredAnswer(s, input);
  }
}
