/** What a session journal stores: events, effects, receipts, and the requests that committed them. */
module JournalTypes {
  import opened Options

  datatype Result<+T> = Ok(value: T) | Err(code: Code)

  datatype Code = SchemaInvalid | InvariantViolation | SequenceGap | ProtocolUnsupported | IdempotencyCollision
                | RevisionConflict | ArtifactUnavailable | BindingMismatch | ClaimConflict | LeaseStale | EffectUnknown
                | SchemaMismatch | DigestMismatch

  type Id = string

  predicate IsAlnum(c: char) { 'A' <= c <= 'Z' || 'a' <= c <= 'z' || '0' <= c <= '9' }

  /** The Id grammar: an alphanumeric, then up to 127 alphanumerics, dots, underscores, colons or dashes. */
  predicate ValidId(id: Id) {
    1 <= |id| <= 128 && IsAlnum(id[0]) && forall i :: 1 <= i < |id| ==> IsAlnum(id[i]) || id[i] in {'.', '_', ':', '-'}
  }

  const MAX_SAFE_INTEGER := 9007199254740991

  /** `rest` stands for the fields no rule here reads. */
  datatype Binding = Binding(nodeId: Id, attemptOrdinal: int, epoch: int, rest: string)
  datatype ObjectRef = ObjectRef(id: Id, rest: string)

  datatype EventKind = NodeTransition | EpochChanged | Paused | Resumed | CancelRequested | CancelConfirmed
                     | EffectIntended | EffectDispatched | ReceiptApplied | ReceiptArchived | OtherEvent(name: string)

  datatype Payload = Payload(binding: Option<Binding>, objectRef: Option<ObjectRef>, before: Option<string>,
                             after: Option<string>, effectId: Option<Id>, rest: string)

  /** A submitted event; `sequence` and `revision` must be absent, the journal assigns them. */
  datatype Draft = Draft(protocol: string, eventId: Id, sequence: Option<int>, revision: Option<int>, sessionId: Id,
                         epoch: int, causedBy: string, kind: EventKind, payload: Payload, visibility: string)

  datatype Event = Event(protocol: string, eventId: Id, sequence: int, sessionId: Id, revision: int, epoch: int,
                         causedBy: string, kind: EventKind, payload: Payload, visibility: string)

  datatype Effect = Effect(effectId: Id, idempotencyKey: Id, protocol: string, binding: Binding, rest: string)

  datatype ReceiptStatus = CompletedStatus | FailedStatus | CancelledStatus | NotExecutedStatus | UnknownStatus
  datatype Receipt = Receipt(receiptId: Id, effectId: Id, protocol: string, binding: Binding, status: ReceiptStatus,
                             observability: seq<string>, rest: string)

  datatype Request = Request(sessionId: Id, requestId: Id, expectedRevision: int, epoch: int, drafts: seq<Draft>,
                             effects: seq<Effect>, receipts: seq<Receipt>)

  datatype Disposition = Committed | Duplicate
  datatype Outcome = Outcome(disposition: Disposition, sessionId: Id, revision: int, eventIds: seq<Id>, effectIds: seq<Id>)

  /** One entry of the request index; content identity stands for the digest, which is taken as injective. */
  datatype Entry = Entry(request: Request, outcome: Outcome)

  // Maps whose insertion order is read are kept as the list of their values in that order.

  predicate HasEffect(effects: seq<Effect>, id: Id) { exists i :: 0 <= i < |effects| && effects[i].effectId == id }

  function FindReceipt(receipts: seq<Receipt>, id: Id): Option<Receipt> {
    if |receipts| == 0 then None
    else if receipts[|receipts| - 1].receiptId == id then Some(receipts[|receipts| - 1])
    else FindReceipt(receipts[..|receipts| - 1], id)
  }

  function FindEffect(effects: seq<Effect>, id: Id): Option<Effect> {
    if |effects| == 0 then None
    else if effects[|effects| - 1].effectId == id then Some(effects[|effects| - 1])
    else FindEffect(effects[..|effects| - 1], id)
  }

  function FindEntry(requests: seq<Entry>, id: Id): Option<Entry> {
    if |requests| == 0 then None
    else if requests[|requests| - 1].request.requestId == id then Some(requests[|requests| - 1])
    else FindEntry(requests[..|requests| - 1], id)
  }

  lemma {:induction false} FindReceiptIn(receipts: seq<Receipt>, id: Id)
    ensures FindReceipt(receipts, id).Some? ==> FindReceipt(receipts, id).value in receipts && FindReceipt(receipts, id).value.receiptId == id
    ensures FindReceipt(receipts, id).None? <==> forall r :: r in receipts ==> r.receiptId != id
  {
    if |receipts| > 0 {
      FindReceiptIn(receipts[..|receipts| - 1], id);
      assert receipts == receipts[..|receipts| - 1] + [receipts[|receipts| - 1]];
    }
  }

  lemma {:induction false} FindEffectIn(effects: seq<Effect>, id: Id)
    ensures FindEffect(effects, id).Some? ==> FindEffect(effects, id).value in effects && FindEffect(effects, id).value.effectId == id
    ensures FindEffect(effects, id).Some? <==> HasEffect(effects, id)
  {
    if |effects| > 0 {
      var init, last := effects[..|effects| - 1], effects[|effects| - 1];
      FindEffectIn(init, id);
      if HasEffect(init, id) {
        var i :| 0 <= i < |init| && init[i].effectId == id;
        assert effects[i].effectId == id;
      }
      if HasEffect(effects, id) && last.effectId != id {
        var i :| 0 <= i < |effects| && effects[i].effectId == id;
        assert init[i].effectId == id;
      }
      if last.effectId == id { assert effects[|effects| - 1].effectId == id; }
    }
  }

  lemma {:induction false} FindEntryIn(requests: seq<Entry>, id: Id)
    ensures FindEntry(requests, id).Some? ==> FindEntry(requests, id).value in requests && FindEntry(requests, id).value.request.requestId == id
    ensures FindEntry(requests, id).None? <==> forall e :: e in requests ==> e.request.requestId != id
  {
    if |requests| > 0 {
      FindEntryIn(requests[..|requests| - 1], id);
      assert requests == requests[..|requests| - 1] + [requests[|requests| - 1]];
    }
  }
}
