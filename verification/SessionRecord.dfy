/** The mutable session record and `commitBatch`, proved against the transaction function. */
module SessionRecords {
  import opened Options
  import opened JournalTypes
  import opened Replay
  import opened Commit

  // ---- a refusal found in a prefix is the refusal of the whole list --------------------------------------

  lemma {:induction false} IdsPrefix(ids: seq<Id>, k: nat)
    requires k <= |ids| && IdsCode(ids[..k]).Some?
    ensures IdsCode(ids) == IdsCode(ids[..k])
    decreases |ids| - k
  {
    if k < |ids| {
      assert ids[..k + 1][..k] == ids[..k];
      IdsPrefix(ids, k + 1);
    } else { assert ids[..k] == ids; }
  }

  lemma {:induction false} DraftPrefix(s: Session, drafts: seq<Draft>, k: nat)
    requires k <= |drafts| && DraftCode(s, drafts[..k]).Some?
    ensures DraftCode(s, drafts) == DraftCode(s, drafts[..k])
    decreases |drafts| - k
  {
    if k < |drafts| {
      assert drafts[..k + 1][..k] == drafts[..k];
      DraftPrefix(s, drafts, k + 1);
    } else { assert drafts[..k] == drafts; }
  }

  lemma {:induction false} EffectPrefix(s: Session, drafts: seq<Draft>, effects: seq<Effect>, k: nat)
    requires k <= |effects| && EffectCode(s, drafts, effects[..k]).Some?
    ensures EffectCode(s, drafts, effects) == EffectCode(s, drafts, effects[..k])
    decreases |effects| - k
  {
    if k < |effects| {
      assert effects[..k + 1][..k] == effects[..k];
      EffectPrefix(s, drafts, effects, k + 1);
    } else { assert effects[..k] == effects; }
  }

  lemma {:induction false} ReceiptPrefix(s: Session, drafts: seq<Draft>, receipts: seq<Receipt>, k: nat)
    requires k <= |receipts| && ReceiptCode(s, drafts, receipts[..k]).Some?
    ensures ReceiptCode(s, drafts, receipts) == ReceiptCode(s, drafts, receipts[..k])
    decreases |receipts| - k
  {
    if k < |receipts| {
      assert receipts[..k + 1][..k] == receipts[..k];
      ReceiptPrefix(s, drafts, receipts, k + 1);
    } else { assert receipts[..k] == receipts; }
  }

  /** `uniqueIdentities`: the ids follow the grammar and none repeats. */
  method UniqueIdentities(ids: seq<Id>) returns (code: Option<Code>)
    ensures code == IdsCode(ids)
  {
    var seen: set<Id> := {};
    for i := 0 to |ids|
      invariant forall id :: id in seen <==> id in ids[..i]
      invariant IdsCode(ids[..i]).None?
    {
      assert ids[..i + 1][..i] == ids[..i] && ids[..i + 1][i] == ids[i];
      if !ValidId(ids[i]) { IdsPrefix(ids, i + 1); return Some(SchemaInvalid); }
      if ids[i] in seen { IdsPrefix(ids, i + 1); return Some(IdempotencyCollision); }
      seen := seen + {ids[i]};
    }
    assert ids[..|ids|] == ids;
    return None;
  }

  method CountIntentions(drafts: seq<Draft>) returns (code: Option<Code>, intended: map<Id, nat>)
    ensures code == if NamelessIntention(drafts) then Some(SchemaInvalid) else None
    ensures code.None? ==> forall id :: (if id in intended then intended[id] else 0) == IntendedCount(drafts, id)
    ensures code.None? ==> forall id :: id in intended <==> exists i :: 0 <= i < |drafts| && IntendsDraft(drafts[i], id)
  {
    intended := map[];
    for i := 0 to |drafts|
      invariant forall k :: 0 <= k < i ==> !(drafts[k].kind == EffectIntended && drafts[k].payload.effectId.None?)
      invariant forall id :: (if id in intended then intended[id] else 0) == IntendedCount(drafts[..i], id)
      invariant forall id :: id in intended <==> exists k :: 0 <= k < i && IntendsDraft(drafts[k], id)
    {
      assert drafts[..i + 1][..i] == drafts[..i] && drafts[..i + 1][i] == drafts[i];
      if drafts[i].kind != EffectIntended { continue; }
      if drafts[i].payload.effectId.None? { return Some(SchemaInvalid), intended; }
      var id := drafts[i].payload.effectId.value;
      assert IntendsDraft(drafts[i], id);
      intended := intended[id := (if id in intended then intended[id] else 0) + 1];
    }
    assert drafts[..|drafts|] == drafts;
    code := None;
  }

  lemma CoveredIff(drafts: seq<Draft>, effects: seq<Effect>)
    requires !NamelessIntention(drafts)
    ensures IntentionsCovered(drafts, effects) <==>
            forall id :: (exists i :: 0 <= i < |drafts| && IntendsDraft(drafts[i], id)) ==> HasEffect(effects, id)
  {
    hide HasEffect;
    if IntentionsCovered(drafts, effects) {
      forall id | exists i :: 0 <= i < |drafts| && IntendsDraft(drafts[i], id) ensures HasEffect(effects, id) {
        var i :| 0 <= i < |drafts| && IntendsDraft(drafts[i], id);
      }
    }
    if forall id :: (exists i :: 0 <= i < |drafts| && IntendsDraft(drafts[i], id)) ==> HasEffect(effects, id) {
      forall i | 0 <= i < |drafts| && drafts[i].kind == EffectIntended && drafts[i].payload.effectId.Some?
        ensures HasEffect(effects, drafts[i].payload.effectId.value)
      {
        assert IntendsDraft(drafts[i], drafts[i].payload.effectId.value);
      }
    }
  }

  lemma NoReceiptsYet(s: Session, drafts: seq<Draft>)
    ensures ReceiptCode(s, drafts, []).None? && NewReceipts(s, []) == []
  {}

  lemma ReceiptNext(s: Session, drafts: seq<Draft>, receipts: seq<Receipt>, i: nat)
    requires i < |receipts| && ReceiptCode(s, drafts, receipts[..i]).None?
    ensures ReceiptCode(s, drafts, receipts[..i + 1]) ==
            match FindReceipt(s.receipts, receipts[i].receiptId)
            case Some(existing) => (if existing != receipts[i] then Some(IdempotencyCollision) else None)
            case None => (if References(drafts, receipts[i].receiptId) then None else Some(InvariantViolation))
    ensures NewReceipts(s, receipts[..i + 1]) ==
            NewReceipts(s, receipts[..i]) + if FindReceipt(s.receipts, receipts[i].receiptId).None? then [receipts[i]] else []
  {
    hide FindReceipt, References;
    assert receipts[..i + 1][..i] == receipts[..i] && receipts[..i + 1][i] == receipts[i];
  }

  /** Stages a receipt list: what it refuses, and the receipts that are new. */
  method PlanReceipts(s: Session, drafts: seq<Draft>, receipts: seq<Receipt>) returns (code: Option<Code>, additions: seq<Receipt>)
    ensures code == ReceiptsCode(s, drafts, receipts)
    ensures code.None? ==> additions == NewReceipts(s, receipts)
  {
    hide FindReceipt, References, NamelessReceipt, ReferencesCovered, IdsCode, ReceiptCode, NewReceipts;
    NoReceiptsYet(s, drafts);
    assert receipts[..0] == [];
    additions := [];
    code := UniqueIdentities(ReceiptIds(receipts));
    if code.Some? { return; }
    if NamelessReceipt(drafts) { return Some(SchemaInvalid), []; }
    for i := 0 to |receipts|
      invariant ReceiptCode(s, drafts, receipts[..i]).None?
      invariant additions == NewReceipts(s, receipts[..i])
    {
      var receipt := receipts[i];
      ReceiptNext(s, drafts, receipts, i);
      var existing := FindReceipt(s.receipts, receipt.receiptId);
      if existing.Some? {
        if existing.value != receipt { ReceiptPrefix(s, drafts, receipts, i + 1); return Some(IdempotencyCollision), []; }
        continue;
      }
      if !References(drafts, receipt.receiptId) { ReceiptPrefix(s, drafts, receipts, i + 1); return Some(InvariantViolation), []; }
      additions := additions + [receipt];
    }
    assert receipts[..|receipts|] == receipts;
    if !ReferencesCovered(s, drafts, receipts) { return Some(InvariantViolation), []; }
    code := None;
  }

  /** Stages an effect list against the intentions of the same batch. */
  method PlanEffects(s: Session, drafts: seq<Draft>, effects: seq<Effect>) returns (code: Option<Code>)
    ensures code == EffectsCode(s, drafts, effects)
  {
    hide HasEffect, IntendedCount, NamelessIntention, IntentionsCovered, ValidId;
    code := UniqueIdentities(EffectIds(effects));
    if code.Some? { return; }
    code := UniqueIdentities(Keys(effects));
    if code.Some? { return; }
    var intended;
    code, intended := CountIntentions(drafts);
    if code.Some? { return; }
    var seen: set<Id> := {};
    for i := 0 to |effects|
      invariant EffectCode(s, drafts, effects[..i]).None?
      invariant forall id :: id in seen <==> id in EffectIds(effects)[..i]
    {
      var effect := effects[i];
      assert effects[..i + 1][..i] == effects[..i] && effects[..i + 1][i] == effect;
      NotSeen(effects, i);
      if effect.effectId in seen || HasEffect(s.effects, effect.effectId) {
        EffectPrefix(s, drafts, effects, i + 1);
        return Some(IdempotencyCollision);
      }
      if (if effect.effectId in intended then intended[effect.effectId] else 0) != 1 {
        EffectPrefix(s, drafts, effects, i + 1);
        return Some(InvariantViolation);
      }
      if effect.idempotencyKey in s.idempotency && s.idempotency[effect.idempotencyKey] != effect.effectId {
        EffectPrefix(s, drafts, effects, i + 1);
        return Some(IdempotencyCollision);
      }
      seen := seen + {effect.effectId};
    }
    assert effects[..|effects|] == effects;
    SeenAll(effects, seen);
    CoveredIff(drafts, effects);
    if exists id :: id in intended.Keys && id !in seen { return Some(InvariantViolation); }
    code := None;
  }

  lemma NotSeen(effects: seq<Effect>, i: nat)
    requires IdsCode(EffectIds(effects)).None? && i < |effects|
    ensures effects[i].effectId !in EffectIds(effects)[..i]
  {
    IdsDistinct(EffectIds(effects), i);
  }

  lemma SeenAll(effects: seq<Effect>, seen: set<Id>)
    requires forall id :: id in seen <==> id in EffectIds(effects)[..|effects|]
    ensures forall id :: id in seen <==> HasEffect(effects, id)
  {
    forall id ensures id in seen <==> HasEffect(effects, id) {
      assert EffectIds(effects)[..|effects|] == EffectIds(effects);
      if HasEffect(effects, id) {
        var i :| 0 <= i < |effects| && effects[i].effectId == id;
        assert EffectIds(effects)[i] == id;
      }
    }
  }

  /** The draft loop: refuses the first bad draft, numbers the rest. */
  method NumberDrafts(s: Session, drafts: seq<Draft>) returns (code: Option<Code>, events: seq<Event>)
    ensures code == DraftCode(s, drafts)
    ensures code.None? ==> events == NewEvents(s, drafts)
  {
    var batchIds: set<Id> := {};
    events := [];
    for i := 0 to |drafts|
      invariant DraftCode(s, drafts[..i]).None?
      invariant forall id :: id in batchIds <==> exists k :: 0 <= k < i && drafts[k].eventId == id
      invariant |events| == i && forall k :: 0 <= k < i ==> events[k] == EventOf(s, drafts[k], k)
    {
      var draft := drafts[i];
      assert drafts[..i + 1][..i] == drafts[..i] && drafts[..i + 1][i] == draft;
      assert forall k :: 0 <= k < i ==> drafts[..i + 1][k] == drafts[k];
      if draft.sessionId != s.sessionId { DraftPrefix(s, drafts, i + 1); return Some(InvariantViolation), []; }
      if draft.sequence.Some? || draft.revision.Some? { DraftPrefix(s, drafts, i + 1); return Some(SchemaInvalid), []; }
      if draft.eventId in batchIds || draft.eventId in s.eventIds { DraftPrefix(s, drafts, i + 1); return Some(IdempotencyCollision), []; }
      batchIds := batchIds + {draft.eventId};
      events := events + [EventOf(s, draft, i)];
    }
    assert drafts[..|drafts|] == drafts;
    code := None;
  }

  lemma SameIds(s: Session, drafts: seq<Draft>)
    ensures (set e | e in NewEvents(s, drafts) :: e.eventId) == set id | id in DraftIds(drafts)
  {
    var events, ids := NewEvents(s, drafts), DraftIds(drafts);
    forall id | id in ids ensures exists e :: e in events && e.eventId == id {
      var i :| 0 <= i < |ids| && ids[i] == id;
      assert events[i] in events;
    }
    forall e | e in events ensures e.eventId in ids {
      var i :| 0 <= i < |events| && events[i] == e;
      assert ids[i] == e.eventId;
    }
  }

  function EventIdsOf(events: seq<Event>): (ids: seq<Id>)
    ensures |ids| == |events| && forall i :: 0 <= i < |ids| ==> ids[i] == events[i].eventId
  { seq(|events|, i requires 0 <= i < |events| => events[i].eventId) }

  lemma IdsOf(s: Session, drafts: seq<Draft>)
    ensures EventIdsOf(NewEvents(s, drafts)) == DraftIds(drafts)
  {}

  class SessionRecord {
    const sessionId: Id
    const protocol: string
    var epoch: int
    var revision: int
    var lastSequence: int
    var events: seq<Event>
    var effects: seq<Effect>
    var receipts: seq<Receipt>
    var idempotency: map<Id, Id>
    var eventIds: set<Id>
    var requests: seq<Entry>

    function View(): Session
      reads this
    {
      Session(sessionId, protocol, epoch, revision, lastSequence, events, effects, receipts, idempotency, eventIds, requests)
    }

    constructor (sessionId: Id, epoch: int, protocol: string)
      ensures View() == NewSession(sessionId, epoch, protocol)
    {
      this.sessionId, this.protocol, this.epoch := sessionId, protocol, epoch;
      revision, lastSequence, events, effects, receipts := 0, -1, [], [], [];
      idempotency, eventIds, requests := map[], {}, [];
    }

    /** Validates the whole batch before it changes anything; then commits all of it. */
    method CommitBatch(req: Request) returns (r: Result<Outcome>)
      modifies this
      ensures match CommitTo(old(View()), req)
              case Err(code) => r == Err(code) && View() == old(View())
              case Ok(next) => r == Ok(next.1) && View() == next.0
    {
      hide Refusal, ProtocolsMatch, FindEntry, NewReceipts, NewEvents, Apply, OutcomeOf;
      if |req.drafts| == 0 { return Err(SchemaInvalid); }
      if !ProtocolsMatch(protocol, req) { return Err(ProtocolUnsupported); }
      var previous := FindEntry(requests, req.requestId);
      if previous.Some? {
        if previous.value.request != req.(sessionId := sessionId) { return Err(IdempotencyCollision); }
        return Ok(previous.value.outcome.(disposition := Duplicate));
      }
      var code, nextEvents, additions := Plan(req);
      if code.Some? { return Err(code.value); }
      var outcome := Write(req, nextEvents, additions);
      return Ok(outcome);
    }

    /** The writes of an accepted batch. */
    method Write(req: Request, nextEvents: seq<Event>, additions: seq<Receipt>) returns (outcome: Outcome)
      requires nextEvents == NewEvents(View(), req.drafts) && additions == NewReceipts(View(), req.receipts)
      modifies this
      ensures View() == Apply(old(View()), req) && outcome == OutcomeOf(old(View()), req)
    {
      hide NewReceipts, ChangesEpoch, Bind, NewEvents, EventOf;
      SameIds(View(), req.drafts);
      IdsOf(View(), req.drafts);
      WriteEvents(nextEvents);
      lastSequence := lastSequence + |nextEvents|;
      revision := revision + 1;
      if ChangesEpoch(req.drafts) { epoch := req.epoch; }
      WriteEffects(req.effects);
      receipts := receipts + additions;
      var ids := EventIdsOf(nextEvents);
      outcome := Outcome(Committed, sessionId, revision, ids, EffectIds(req.effects));
      requests := requests + [Entry(req.(sessionId := sessionId), outcome)];
    }

    method WriteEvents(nextEvents: seq<Event>)
      modifies this`events, this`eventIds
      ensures events == old(events) + nextEvents
      ensures eventIds == old(eventIds) + set e | e in nextEvents :: e.eventId
    {
      for i := 0 to |nextEvents|
        invariant events == old(events) + nextEvents[..i]
        invariant eventIds == old(eventIds) + set e | e in nextEvents[..i] :: e.eventId
      {
        assert nextEvents[..i + 1] == nextEvents[..i] + [nextEvents[i]];
        events := events + [nextEvents[i]];
        eventIds := eventIds + {nextEvents[i].eventId};
      }
      assert nextEvents[..|nextEvents|] == nextEvents;
    }

    method WriteEffects(additions: seq<Effect>)
      modifies this`effects, this`idempotency
      ensures effects == old(effects) + additions && idempotency == Bind(old(idempotency), additions)
    {
      for i := 0 to |additions|
        invariant effects == old(effects) + additions[..i] && idempotency == Bind(old(idempotency), additions[..i])
      {
        assert additions[..i + 1][..i] == additions[..i] && additions[..i + 1][i] == additions[i];
        effects := effects + [additions[i]];
        idempotency := idempotency[additions[i].idempotencyKey := additions[i].effectId];
      }
      assert additions[..|additions|] == additions;
    }

    /** Everything that is checked before the first write. */
    method Plan(req: Request) returns (code: Option<Code>, nextEvents: seq<Event>, additions: seq<Receipt>)
      ensures code == Refusal(View(), req)
      ensures code.None? ==> nextEvents == NewEvents(View(), req.drafts) && additions == NewReceipts(View(), req.receipts)
    {
      hide ReplayOf, OutboxOf, EffectsCode, ReceiptsCode, DraftCode, NewReceipts, ChangesEpoch, EpochsAgree;
      nextEvents, additions := [], [];
      if req.expectedRevision != revision { return Some(RevisionConflict), [], []; }
      if !ChangesEpoch(req.drafts) && req.epoch != epoch { return Some(RevisionConflict), [], []; }
      if !EpochsAgree(req) { return Some(InvariantViolation), [], []; }
      var produced := Ok(EmptyReplayState(sessionId, epoch));
      if |events| > 0 { produced := ReplayEvents(events, None); }
      if produced.Err? { return Some(produced.code), [], []; }
      code, nextEvents := NumberDrafts(View(), req.drafts);
      if code.Some? { return; }
      code := PlanEffects(View(), req.drafts, req.effects);
      if code.Some? { return; }
      code, additions := PlanReceipts(View(), req.drafts, req.receipts);
      if code.Some? { return; }
      var simulated := ReplayEvents(nextEvents, Some(produced.value));
      if simulated.Err? { return Some(simulated.code), [], []; }
      var outbox := ProjectOutbox(events + nextEvents, effects + req.effects, receipts + additions);
      if outbox.Err? { return Some(outbox.code), [], []; }
      code := None;
    }
  }
}
