/**
 * The one transaction that advances a session, as a function of the session and the request: which
 * check refuses first and, when none does, the whole next session.
 */
module Commit {
  import opened Options
  import opened JournalTypes
  import opened Replay

  datatype Session = Session(sessionId: Id, protocol: string, epoch: int, revision: int, lastSequence: int, events: seq<Event>,
                             effects: seq<Effect>, receipts: seq<Receipt>, idempotency: map<Id, Id>, eventIds: set<Id>,
                             requests: seq<Entry>)

  function NewSession(sessionId: Id, epoch: int, protocol: string): Session {
    Session(sessionId, protocol, epoch, 0, -1, [], [], [], map[], {}, [])
  }

  function Then(first: Option<Code>, second: Option<Code>): Option<Code> { if first.Some? then first else second }

  // ---- the checks, in the order they are made ----------------------------------------------------------

  predicate ProtocolsMatch(protocol: string, req: Request) {
    && (forall i :: 0 <= i < |req.drafts| ==> req.drafts[i].protocol == protocol)
    && (forall i :: 0 <= i < |req.effects| ==> req.effects[i].protocol == protocol)
    && (forall i :: 0 <= i < |req.receipts| ==> req.receipts[i].protocol == protocol)
  }

  predicate ChangesEpoch(drafts: seq<Draft>) { exists i :: 0 <= i < |drafts| && drafts[i].kind == EpochChanged }

  /** First invalid or repeated id of a list. */
  function IdsCode(ids: seq<Id>): Option<Code> {
    if |ids| == 0 then None
    else
      var n := |ids| - 1;
      Then(IdsCode(ids[..n]),
           if !ValidId(ids[n]) then Some(SchemaInvalid) else if ids[n] in ids[..n] then Some(IdempotencyCollision) else None)
  }

  lemma {:induction false} IdsDistinct(ids: seq<Id>, i: nat)
    requires IdsCode(ids).None? && i < |ids|
    ensures ids[i] !in ids[..i] && ValidId(ids[i])
    decreases |ids| - i
  {
    if i < |ids| - 1 {
      IdsDistinct(ids[..|ids| - 1], i);
      assert ids[..|ids| - 1][..i] == ids[..i];
    }
  }

  /** First draft that belongs elsewhere, assigns its own position, or reuses an event id. */
  function DraftCode(s: Session, drafts: seq<Draft>): Option<Code> {
    if |drafts| == 0 then None
    else
      var n := |drafts| - 1;
      var d := drafts[n];
      Then(DraftCode(s, drafts[..n]),
           if d.sessionId != s.sessionId then Some(InvariantViolation)
           else if d.sequence.Some? || d.revision.Some? then Some(SchemaInvalid)
           else if d.eventId in s.eventIds || (exists i :: 0 <= i < n && drafts[i].eventId == d.eventId) then Some(IdempotencyCollision)
           else None)
  }

  predicate IntendsDraft(d: Draft, id: Id) { d.kind == EffectIntended && d.payload.effectId == Some(id) }

  function IntendedCount(drafts: seq<Draft>, id: Id): nat {
    if |drafts| == 0 then 0
    else IntendedCount(drafts[..|drafts| - 1], id) + if IntendsDraft(drafts[|drafts| - 1], id) then 1 else 0
  }

  predicate NamelessIntention(drafts: seq<Draft>) {
    exists i :: 0 <= i < |drafts| && drafts[i].kind == EffectIntended && drafts[i].payload.effectId.None?
  }

  /** First effect that is committed already, lacks its one intention, or takes another effect's key. */
  function EffectCode(s: Session, drafts: seq<Draft>, effects: seq<Effect>): Option<Code> {
    if |effects| == 0 then None
    else
      var e := effects[|effects| - 1];
      Then(EffectCode(s, drafts, effects[..|effects| - 1]),
           if HasEffect(s.effects, e.effectId) then Some(IdempotencyCollision)
           else if IntendedCount(drafts, e.effectId) != 1 then Some(InvariantViolation)
           else if e.idempotencyKey in s.idempotency && s.idempotency[e.idempotencyKey] != e.effectId then Some(IdempotencyCollision)
           else None)
  }

  predicate IntentionsCovered(drafts: seq<Draft>, effects: seq<Effect>) {
    forall i :: 0 <= i < |drafts| && drafts[i].kind == EffectIntended && drafts[i].payload.effectId.Some? ==>
      HasEffect(effects, drafts[i].payload.effectId.value)
  }

  function EffectIds(effects: seq<Effect>): (ids: seq<Id>)
    ensures |ids| == |effects| && forall i :: 0 <= i < |ids| ==> ids[i] == effects[i].effectId
  { seq(|effects|, i requires 0 <= i < |effects| => effects[i].effectId) }

  function Keys(effects: seq<Effect>): (ids: seq<Id>)
    ensures |ids| == |effects| && forall i :: 0 <= i < |ids| ==> ids[i] == effects[i].idempotencyKey
  { seq(|effects|, i requires 0 <= i < |effects| => effects[i].idempotencyKey) }

  function ReceiptIds(receipts: seq<Receipt>): (ids: seq<Id>)
    ensures |ids| == |receipts| && forall i :: 0 <= i < |ids| ==> ids[i] == receipts[i].receiptId
  { seq(|receipts|, i requires 0 <= i < |receipts| => receipts[i].receiptId) }

  function EffectsCode(s: Session, drafts: seq<Draft>, effects: seq<Effect>): Option<Code> {
    Then(IdsCode(EffectIds(effects)),
    Then(IdsCode(Keys(effects)),
    Then(if NamelessIntention(drafts) then Some(SchemaInvalid) else None,
    Then(EffectCode(s, drafts, effects),
         if IntentionsCovered(drafts, effects) then None else Some(InvariantViolation)))))
  }

  predicate IsReceiptEvent(kind: EventKind) { kind == ReceiptApplied || kind == ReceiptArchived }

  predicate NamelessReceipt(drafts: seq<Draft>) {
    exists i :: 0 <= i < |drafts| && IsReceiptEvent(drafts[i].kind) && drafts[i].payload.objectRef.None?
  }

  predicate References(drafts: seq<Draft>, id: Id) {
    exists i :: 0 <= i < |drafts| && IsReceiptEvent(drafts[i].kind) && drafts[i].payload.objectRef.Some?
      && drafts[i].payload.objectRef.value.id == id
  }

  /** First receipt that contradicts a committed one, or that no receipt event of the batch names. */
  function ReceiptCode(s: Session, drafts: seq<Draft>, receipts: seq<Receipt>): Option<Code> {
    if |receipts| == 0 then None
    else
      var r := receipts[|receipts| - 1];
      Then(ReceiptCode(s, drafts, receipts[..|receipts| - 1]),
           match FindReceipt(s.receipts, r.receiptId)
           case Some(existing) => if existing != r then Some(IdempotencyCollision) else None
           case None => if References(drafts, r.receiptId) then None else Some(InvariantViolation))
  }

  predicate ReferencesCovered(s: Session, drafts: seq<Draft>, receipts: seq<Receipt>) {
    forall i :: 0 <= i < |drafts| && IsReceiptEvent(drafts[i].kind) && drafts[i].payload.objectRef.Some? ==>
      || FindReceipt(receipts, drafts[i].payload.objectRef.value.id).Some?
      || FindReceipt(s.receipts, drafts[i].payload.objectRef.value.id).Some?
  }

  function ReceiptsCode(s: Session, drafts: seq<Draft>, receipts: seq<Receipt>): Option<Code> {
    Then(IdsCode(ReceiptIds(receipts)),
    Then(if NamelessReceipt(drafts) then Some(SchemaInvalid) else None,
    Then(ReceiptCode(s, drafts, receipts),
         if ReferencesCovered(s, drafts, receipts) then None else Some(InvariantViolation))))
  }

  /** The receipts a batch adds: those not committed before. */
  function NewReceipts(s: Session, receipts: seq<Receipt>): seq<Receipt> {
    if |receipts| == 0 then []
    else
      var r := receipts[|receipts| - 1];
      NewReceipts(s, receipts[..|receipts| - 1]) + if FindReceipt(s.receipts, r.receiptId).None? then [r] else []
  }

  function EventOf(s: Session, d: Draft, i: nat): Event {
    Event(d.protocol, d.eventId, s.lastSequence + 1 + i, d.sessionId, s.revision + 1, d.epoch, d.causedBy, d.kind, d.payload, d.visibility)
  }

  function NewEvents(s: Session, drafts: seq<Draft>): (events: seq<Event>)
    ensures |events| == |drafts| && forall i :: 0 <= i < |drafts| ==> events[i] == EventOf(s, drafts[i], i)
  {
    seq(|drafts|, i requires 0 <= i < |drafts| => EventOf(s, drafts[i], i))
  }

  /** The state the journal has reached. */
  function Produced(s: Session): Result<ReplayState> { JournalState(s.sessionId, s.epoch, s.events) }

  function JournalState(sessionId: Id, epoch: int, events: seq<Event>): Result<ReplayState> {
    if |events| == 0 then Ok(EmptyReplayState(sessionId, epoch)) else ReplayOf(events, None)
  }

  function ReplayCode(r: Result<ReplayState>): Option<Code> { if r.Err? then Some(r.code) else None }
  function OutboxCode(r: Result<Outbox>): Option<Code> { if r.Err? then Some(r.code) else None }

  function SimulatedReplay(s: Session, req: Request): Result<ReplayState> {
    match Produced(s)
    case Err(code) => Err(code)
    case Ok(state) => ReplayOf(NewEvents(s, req.drafts), Some(state))
  }

  function SimulatedOutbox(s: Session, req: Request): Result<Outbox> {
    OutboxOf(s.events + NewEvents(s, req.drafts), s.effects + req.effects, s.receipts + NewReceipts(s, req.receipts))
  }

  predicate EpochsAgree(req: Request) { forall i :: 0 <= i < |req.drafts| ==> req.drafts[i].epoch == req.epoch }

  /** The first reason to refuse a request that was not committed before. */
  function Refusal(s: Session, req: Request): Option<Code> {
    Then(if req.expectedRevision != s.revision then Some(RevisionConflict) else None,
    Then(if !ChangesEpoch(req.drafts) && req.epoch != s.epoch then Some(RevisionConflict) else None,
    Then(if !EpochsAgree(req) then Some(InvariantViolation) else None,
    Then(ReplayCode(Produced(s)),
    Then(DraftCode(s, req.drafts),
    Then(EffectsCode(s, req.drafts, req.effects),
    Then(ReceiptsCode(s, req.drafts, req.receipts),
    Then(ReplayCode(SimulatedReplay(s, req)),
         OutboxCode(SimulatedOutbox(s, req))))))))))
  }

  function DraftIds(drafts: seq<Draft>): (ids: seq<Id>)
    ensures |ids| == |drafts| && forall i :: 0 <= i < |ids| ==> ids[i] == drafts[i].eventId
  { seq(|drafts|, i requires 0 <= i < |drafts| => drafts[i].eventId) }

  function OutcomeOf(s: Session, req: Request): Outcome {
    Outcome(Committed, s.sessionId, s.revision + 1, DraftIds(req.drafts), EffectIds(req.effects))
  }

  function Bind(idempotency: map<Id, Id>, effects: seq<Effect>): map<Id, Id> {
    if |effects| == 0 then idempotency
    else Bind(idempotency, effects[..|effects| - 1])[effects[|effects| - 1].idempotencyKey := effects[|effects| - 1].effectId]
  }

  function Apply(s: Session, req: Request): Session {
    Session(s.sessionId, s.protocol, if ChangesEpoch(req.drafts) then req.epoch else s.epoch, s.revision + 1,
            s.lastSequence + |req.drafts|, s.events + NewEvents(s, req.drafts), s.effects + req.effects,
            s.receipts + NewReceipts(s, req.receipts), Bind(s.idempotency, req.effects),
            s.eventIds + (set id | id in DraftIds(req.drafts)),
            s.requests + [Entry(req.(sessionId := s.sessionId), OutcomeOf(s, req))])
  }

  /** The next session and what the caller is told, or the refusal; nothing else can change. */
  function CommitTo(s: Session, req: Request): Result<(Session, Outcome)> {
    if |req.drafts| == 0 then Err(SchemaInvalid)
    else if !ProtocolsMatch(s.protocol, req) then Err(ProtocolUnsupported)
    else
      match FindEntry(s.requests, req.requestId)
      case Some(e) =>
        if e.request != req.(sessionId := s.sessionId) then Err(IdempotencyCollision)
        else Ok((s, e.outcome.(disposition := Duplicate)))
      case None =>
        var refusal := Refusal(s, req);
        if refusal.Some? then Err(refusal.value) else Ok((Apply(s, req), OutcomeOf(s, req)))
  }
}
