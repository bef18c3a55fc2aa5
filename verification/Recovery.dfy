/** Exporting a session and reviving it: identities are checked, then the stored requests are sent again to an empty session. */
module Recovery {
  import opened Options
  import opened JournalTypes
  import opened Replay
  import opened Commit
  import opened SessionRecords
  import opened Sessions

  datatype Exported = Exported(sessionId: Id, epoch: int, protocol: string, revision: int, events: seq<Event>,
                               effects: seq<Effect>, receipts: seq<Receipt>, requests: seq<Request>)

  /** `gate` stands for the protocol decoder and the runtime version gate: the code they refuse with, if any. */
  type Gate = string -> Option<Code>

  function Export(s: Session): Exported {
    Exported(s.sessionId, s.epoch, s.protocol, s.revision, s.events, s.effects, s.receipts, Requests(s.requests))
  }

  predicate SafeFrom(low: int, n: int) { low <= n <= MAX_SAFE_INTEGER }

  predicate ValidRequest(r: Request) { ValidId(r.requestId) && SafeFrom(0, r.expectedRevision) && SafeFrom(1, r.epoch) }

  predicate AllValid(reqs: seq<Request>) { forall i :: 0 <= i < |reqs| ==> ValidRequest(reqs[i]) }

  function RequestIds(reqs: seq<Request>): (ids: seq<Id>)
    ensures |ids| == |reqs| && forall i :: 0 <= i < |ids| ==> ids[i] == reqs[i].requestId
  { seq(|reqs|, i requires 0 <= i < |reqs| => reqs[i].requestId) }

  function EffectMap(effects: seq<Effect>): map<Id, Effect> {
    if |effects| == 0 then map[]
    else EffectMap(effects[..|effects| - 1])[effects[|effects| - 1].effectId := effects[|effects| - 1]]
  }

  function ReceiptMap(receipts: seq<Receipt>): map<Id, Receipt> {
    if |receipts| == 0 then map[]
    else ReceiptMap(receipts[..|receipts| - 1])[receipts[|receipts| - 1].receiptId := receipts[|receipts| - 1]]
  }

  /** The exported requests, sent one after the other; the first foreign or refused one ends it. */
  function Resend(s: Session, reqs: seq<Request>): Result<Session> {
    if |reqs| == 0 then Ok(s)
    else
      match Resend(s, reqs[..|reqs| - 1])
      case Err(code) => Err(code)
      case Ok(before) =>
        if reqs[|reqs| - 1].sessionId != s.sessionId then Err(InvariantViolation)
        else
          match CommitTo(before, reqs[|reqs| - 1])
          case Err(code) => Err(code)
          case Ok(next) => Ok(next.0)
  }

  /** What is checked before the journal is replayed. */
  function ShapeCode(gate: Gate, x: Exported): Option<Code> {
    Then(if SafeFrom(1, x.epoch) && SafeFrom(0, x.revision) then None else Some(SchemaInvalid),
    Then(if ValidId(x.sessionId) then None else Some(SchemaInvalid),
    Then(gate(x.protocol),
    Then(IdsCode(EffectIds(x.effects)),
    Then(IdsCode(Keys(x.effects)),
    Then(IdsCode(ReceiptIds(x.receipts)),
    Then(IdsCode(EventIdsOf(x.events)),
    Then(if AllValid(x.requests) then None else Some(SchemaInvalid),
         IdsCode(RequestIds(x.requests))))))))))
  }

  function MetadataCode(x: Exported, r: Result<ReplayState>): Option<Code> {
    match r
    case Err(code) => Some(code)
    case Ok(state) =>
      if state.sessionId != x.sessionId || state.epoch != x.epoch || state.revision != x.revision then Some(InvariantViolation) else None
  }

  /** The record rebuilt from the exported lists alone. */
  function RecordOf(x: Exported, state: ReplayState): Session {
    Session(x.sessionId, x.protocol, x.epoch, state.revision, if state.lastSequence.Some? then state.lastSequence.value else -1,
            x.events, x.effects, x.receipts, Bind(map[], x.effects), (set e | e in x.events :: e.eventId), [])
  }

  predicate Reproduces(indexed: Session, record: Session) {
    && indexed.events == record.events && indexed.epoch == record.epoch && indexed.revision == record.revision
    && EffectMap(indexed.effects) == EffectMap(record.effects) && ReceiptMap(indexed.receipts) == ReceiptMap(record.receipts)
  }

  function Base(x: Exported): Session { NewSession(x.sessionId, InitialEpoch(x.events, x.epoch), x.protocol) }

  /** The revived session, or the refusal. */
  function ReviveOf(gate: Gate, x: Exported): Result<Session> {
    var shape := ShapeCode(gate, x);
    if shape.Some? then Err(shape.value)
    else
      var replayed := JournalState(x.sessionId, x.epoch, x.events);
      var metadata := MetadataCode(x, replayed);
      if metadata.Some? then Err(metadata.value)
      else
        var record := RecordOf(x, replayed.value);
        match OutboxOf(x.events, x.effects, x.receipts)
        case Err(code) => Err(code)
        case Ok(_) =>
          match Resend(Base(x), x.requests)
          case Err(code) => Err(code)
          case Ok(indexed) =>
            if Reproduces(indexed, record) then Ok(record.(requests := indexed.requests)) else Err(InvariantViolation)
  }

  // ---- the procedure ---------------------------------------------------------------------------------------

  lemma {:induction false} ResendStuck(s: Session, reqs: seq<Request>, k: nat)
    requires k <= |reqs| && Resend(s, reqs[..k]).Err?
    ensures Resend(s, reqs) == Resend(s, reqs[..k])
    decreases |reqs| - k
  {
    hide CommitTo;
    if k < |reqs| {
      assert reqs[..k + 1][..k] == reqs[..k];
      ResendStuck(s, reqs, k + 1);
    } else { assert reqs[..k] == reqs; }
  }

  method CheckShape(gate: Gate, x: Exported) returns (code: Option<Code>)
    ensures code == ShapeCode(gate, x)
  {
    hide ValidId, IdsCode, ValidRequest;
    if !SafeFrom(1, x.epoch) || !SafeFrom(0, x.revision) { return Some(SchemaInvalid); }
    if !ValidId(x.sessionId) { return Some(SchemaInvalid); }
    if gate(x.protocol).Some? { return gate(x.protocol); }
    code := UniqueIdentities(EffectIds(x.effects));
    if code.Some? { return; }
    code := UniqueIdentities(Keys(x.effects));
    if code.Some? { return; }
    code := UniqueIdentities(ReceiptIds(x.receipts));
    if code.Some? { return; }
    code := UniqueIdentities(EventIdsOf(x.events));
    if code.Some? { return; }
    if exists i :: 0 <= i < |x.requests| && !ValidRequest(x.requests[i]) { return Some(SchemaInvalid); }
    code := UniqueIdentities(RequestIds(x.requests));
  }

  /** Sends the exported requests to an empty record. */
  method ResendAll(x: Exported) returns (code: Option<Code>, indexed: SessionRecord)
    ensures fresh(indexed) && indexed.sessionId == x.sessionId && indexed.protocol == x.protocol
    ensures match Resend(Base(x), x.requests)
            case Err(c) => code == Some(c)
            case Ok(s) => code == None && indexed.View() == s
  {
    hide CommitTo;
    indexed := new SessionRecord(x.sessionId, InitialEpoch(x.events, x.epoch), x.protocol);
    for i := 0 to |x.requests|
      invariant fresh(indexed) && indexed.sessionId == x.sessionId && indexed.protocol == x.protocol
      invariant Resend(Base(x), x.requests[..i]) == Ok(indexed.View())
    {
      assert x.requests[..i + 1][..i] == x.requests[..i] && x.requests[..i + 1][i] == x.requests[i];
      if x.requests[i].sessionId != x.sessionId {
        ResendStuck(Base(x), x.requests, i + 1);
        return Some(InvariantViolation), indexed;
      }
      var committed := indexed.CommitBatch(x.requests[i]);
      if committed.Err? {
        ResendStuck(Base(x), x.requests, i + 1);
        return Some(committed.code), indexed;
      }
    }
    assert x.requests[..|x.requests|] == x.requests;
    code := None;
  }

  method IndexEvents(record: SessionRecord, events: seq<Event>)
    modifies record`eventIds
    ensures record.eventIds == old(record.eventIds) + set e | e in events :: e.eventId
  {
    for i := 0 to |events|
      invariant record.eventIds == old(record.eventIds) + set e | e in events[..i] :: e.eventId
    {
      assert events[..i + 1] == events[..i] + [events[i]];
      record.eventIds := record.eventIds + {events[i].eventId};
    }
    assert events[..|events|] == events;
  }

  method IndexKeys(record: SessionRecord, effects: seq<Effect>)
    modifies record`idempotency
    ensures record.idempotency == Bind(old(record.idempotency), effects)
  {
    for i := 0 to |effects|
      invariant record.idempotency == Bind(old(record.idempotency), effects[..i])
    {
      assert effects[..i + 1][..i] == effects[..i] && effects[..i + 1][i] == effects[i];
      record.idempotency := record.idempotency[effects[i].idempotencyKey := effects[i].effectId];
    }
    assert effects[..|effects|] == effects;
  }

  /** Fills the fields of a record from the exported lists. */
  method Refill(x: Exported, state: ReplayState) returns (record: SessionRecord)
    ensures fresh(record) && record.View() == RecordOf(x, state)
  {
    record := new SessionRecord(x.sessionId, x.epoch, x.protocol);
    record.revision := state.revision;
    record.lastSequence := if state.lastSequence.Some? then state.lastSequence.value else -1;
    record.events, record.effects, record.receipts := x.events, x.effects, x.receipts;
    IndexEvents(record, x.events);
    IndexKeys(record, x.effects);
  }

  method ReviveSession(gate: Gate, x: Exported) returns (r: Result<SessionRecord>)
    ensures match ReviveOf(gate, x)
            case Err(code) => r == Err(code)
            case Ok(s) => r.Ok? && fresh(r.value) && r.value.View() == s
  {
    hide ShapeCode, Resend, Base, ReplayOf, OutboxOf, Bind, EffectMap, ReceiptMap;
    var code := CheckShape(gate, x);
    if code.Some? { return Err(code.value); }
    var replayed := Ok(EmptyReplayState(x.sessionId, x.epoch));
    if |x.events| > 0 { replayed := ReplayEvents(x.events, None); }
    if replayed.Err? { return Err(replayed.code); }
    if replayed.value.sessionId != x.sessionId || replayed.value.epoch != x.epoch || replayed.value.revision != x.revision {
      return Err(InvariantViolation);
    }
    var record := Refill(x, replayed.value);
    var outbox := ProjectOutbox(record.events, record.effects, record.receipts);
    if outbox.Err? { return Err(outbox.code); }
    var refused, indexed := ResendAll(x);
    if refused.Some? { return Err(refused.value); }
    if indexed.events != record.events || indexed.epoch != record.epoch || indexed.revision != record.revision
      || EffectMap(indexed.effects) != EffectMap(record.effects) || ReceiptMap(indexed.receipts) != ReceiptMap(record.receipts)
    {
      return Err(InvariantViolation);
    }
    record.requests := indexed.requests;
    return Ok(record);
  }

  // ---- export, then revive -----------------------------------------------------------------------------------

  /** Exactly what a revival asks of a session beyond what committing asked. */
  predicate Restorable(gate: Gate, s: Session) {
    && SafeFrom(1, s.epoch) && SafeFrom(0, s.revision) && ValidId(s.sessionId) && gate(s.protocol).None?
    && (forall i :: 0 <= i < |s.events| ==> ValidId(s.events[i].eventId))
    && (forall i :: 0 <= i < |s.requests| ==> ValidId(s.requests[i].request.requestId) && SafeFrom(1, s.requests[i].request.epoch))
  }

  lemma {:induction false} DistinctValid(ids: seq<Id>)
    requires forall i, j :: 0 <= i < j < |ids| ==> ids[i] != ids[j]
    requires forall i :: 0 <= i < |ids| ==> ValidId(ids[i])
    ensures IdsCode(ids).None?
  {
    hide ValidId;
    if |ids| > 0 { DistinctValid(ids[..|ids| - 1]); }
  }

  lemma {:induction false} ResendIsRerun(s: Session, reqs: seq<Request>)
    requires forall i :: 0 <= i < |reqs| ==> reqs[i].sessionId == s.sessionId
    ensures Resend(s, reqs) == Rerun(s, reqs)
  {
    hide CommitTo;
    if |reqs| > 0 { ResendIsRerun(s, reqs[..|reqs| - 1]); }
  }

  lemma EventIdsIff(events: seq<Event>, ids: set<Id>)
    requires DistinctIds(events, ids)
    ensures IdsCode(EventIdsOf(events)).None? <==> forall i :: 0 <= i < |events| ==> ValidId(events[i].eventId)
  {
    hide ValidId;
    if forall i :: 0 <= i < |events| ==> ValidId(events[i].eventId) { DistinctValid(EventIdsOf(events)); }
    if IdsCode(EventIdsOf(events)).None? {
      forall i | 0 <= i < |events| ensures ValidId(events[i].eventId) { IdsDistinct(EventIdsOf(events), i); }
    }
  }

  lemma RequestsIff(s: Session)
    requires Indexed(s) && s.revision == |s.requests| && SafeFrom(0, s.revision)
    ensures AllValid(Requests(s.requests)) && IdsCode(RequestIds(Requests(s.requests))).None? <==>
            forall i :: 0 <= i < |s.requests| ==> ValidId(s.requests[i].request.requestId) && SafeFrom(1, s.requests[i].request.epoch)
  {
    hide ValidId, IdsCode;
    var reqs := Requests(s.requests);
    assert forall i :: 0 <= i < |s.requests| ==> EntryAt(s, i);
    if forall i :: 0 <= i < |s.requests| ==> ValidId(s.requests[i].request.requestId) && SafeFrom(1, s.requests[i].request.epoch) {
      forall i | 0 <= i < |reqs| ensures ValidRequest(reqs[i]) { assert EntryAt(s, i); }
      DistinctValid(RequestIds(reqs));
    }
    if AllValid(reqs) {
      assert forall i :: 0 <= i < |reqs| ==> ValidRequest(reqs[i]);
    }
  }

  lemma ShapeIff(gate: Gate, s: Session)
    requires Numbered(s) && Identified(s) && IdsCode(ReceiptIds(s.receipts)).None? && Indexed(s)
    ensures ShapeCode(gate, Export(s)).None? <==> Restorable(gate, s)
  {
    EventIdsIff(s.events, s.eventIds);
    if SafeFrom(0, s.revision) { RequestsIff(s); }
    hide ValidId, IdsCode, DistinctIds, Indexed, AllValid;
  }

  lemma EventSet(events: seq<Event>, ids: set<Id>)
    requires DistinctIds(events, ids)
    ensures ids == set e | e in events :: e.eventId
  {
    forall id | id in ids ensures exists e :: e in events && e.eventId == id {
      var i :| 0 <= i < |events| && events[i].eventId == id;
      assert events[i] in events;
    }
  }

  /** What the invariant gives a revival of the exported lists. */
  lemma ExportParts(s: Session)
    requires Inv(s)
    ensures var x, r := Export(s), JournalState(s.sessionId, s.epoch, s.events);
      && r.Ok? && MetadataCode(x, r).None? && RecordOf(x, r.value) == s.(requests := [])
      && OutboxOf(x.events, x.effects, x.receipts).Ok? && Resend(Base(x), x.requests) == Ok(s)
  {
    var x := Export(s);
    hide OutboxOf, Resend, Rerun, Bind, ReplayOf, JournalState, Evidenced, IntendedAll, IdsCode, EntryAt, DistinctIds, Journalled;
    EventSet(s.events, s.eventIds);
    Addressed(s);
    ResendIsRerun(Base(x), x.requests);
  }

  lemma Addressed(s: Session)
    requires Indexed(s)
    ensures forall i :: 0 <= i < |s.requests| ==> s.requests[i].request.sessionId == s.sessionId
  {
    forall i | 0 <= i < |s.requests| ensures s.requests[i].request.sessionId == s.sessionId { assert EntryAt(s, i); }
  }

  lemma SoundParts(s: Session)
    requires Sound(s)
    ensures Numbered(s) && Identified(s) && IdsCode(ReceiptIds(s.receipts)).None? && Indexed(s)
  {
    hide Numbered, Replays, Projects, Identified, IntendedAll, Indexed, IdsCode, Named, Holds, Journalled;
  }

  /** A session the journal can hold revives to itself exactly when it is restorable; otherwise the revival is refused. */
  lemma RoundTrip(gate: Gate, s: Session)
    requires Inv(s)
    ensures ReviveOf(gate, Export(s)) == Ok(s) <==> Restorable(gate, s)
    ensures ReviveOf(gate, Export(s)).Err? <==> !Restorable(gate, s)
  {
    hide Sound, Rebuilds, ShapeCode, Restorable, OutboxOf, Resend, Base, EffectMap, ReceiptMap, JournalState, RecordOf, MetadataCode, Numbered, Identified, Indexed, IdsCode;
    SoundParts(s);
    ShapeIff(gate, s);
    ExportParts(s);
    var x := Export(s);
    if ShapeCode(gate, x).None? {
      var record := RecordOf(x, JournalState(x.sessionId, x.epoch, x.events).value);
      assert Reproduces(s, record);
      assert record.(requests := s.requests) == s;
      assert ReviveOf(gate, x) == Ok(s);
    } else {
      assert ReviveOf(gate, x).Err?;
    }
  }

  // ---- revive, then export -------------------------------------------------------------------------------------

  lemma {:induction false} ResendAddressed(s: Session, reqs: seq<Request>)
    requires Resend(s, reqs).Ok?
    ensures forall i :: 0 <= i < |reqs| ==> reqs[i].sessionId == s.sessionId
    ensures Resend(s, reqs) == Rerun(s, reqs)
  {
    hide CommitTo;
    if |reqs| > 0 { ResendAddressed(s, reqs[..|reqs| - 1]); }
  }

  lemma RerunInit(s: Session, reqs: seq<Request>)
    requires |reqs| > 0 && Rerun(s, reqs).Ok?
    ensures Rerun(s, reqs[..|reqs| - 1]).Ok? && CommitTo(Rerun(s, reqs[..|reqs| - 1]).value, reqs[|reqs| - 1]).Ok?
    ensures Rerun(s, reqs) == Ok(CommitTo(Rerun(s, reqs[..|reqs| - 1]).value, reqs[|reqs| - 1]).value.0)
  {
    hide CommitTo;
  }

  predicate Stores(s: Session, base: Session, reqs: seq<Request>) {
    Requests(s.requests) == reqs && s.sessionId == base.sessionId && s.protocol == base.protocol
  }

  /** Requests for one session, no id twice. */
  ghost predicate OneEach(sessionId: Id, reqs: seq<Request>) {
    && (forall i :: 0 <= i < |reqs| ==> reqs[i].sessionId == sessionId)
    && (forall i, j :: 0 <= i < j < |reqs| ==> reqs[i].requestId != reqs[j].requestId)
  }

  lemma OneEachLast(sessionId: Id, reqs: seq<Request>)
    requires OneEach(sessionId, reqs) && |reqs| > 0
    ensures OneEach(sessionId, reqs[..|reqs| - 1]) && reqs[|reqs| - 1].sessionId == sessionId
    ensures forall r :: r in reqs[..|reqs| - 1] ==> r.requestId != reqs[|reqs| - 1].requestId
  {}

  /** A strict run of requests with distinct ids keeps the invariant and stores exactly those requests. */
  lemma {:induction false} RerunStores(s: Session, reqs: seq<Request>)
    requires s.requests == [] && Rerun(s, reqs).Ok? && OneEach(s.sessionId, reqs)
    requires Inv(s)
    ensures Inv(Rerun(s, reqs).value)
    ensures Stores(Rerun(s, reqs).value, s, reqs)
  {
    hide Inv;
    if |reqs| > 0 {
      var init, req := reqs[..|reqs| - 1], reqs[|reqs| - 1];
      OneEachLast(s.sessionId, reqs);
      RerunInit(s, reqs);
      hide Rerun, CommitTo, OneEach;
      RerunStores(s, init);
      StoresNext(Rerun(s, init).value, s, init, req);
      CommitKeepsInv(Rerun(s, init).value, req);
      assert init + [req] == reqs;
    }
  }

  lemma StoresNext(t: Session, base: Session, reqs: seq<Request>, req: Request)
    requires Stores(t, base, reqs) && CommitTo(t, req).Ok? && req.sessionId == base.sessionId
    requires forall r :: r in reqs ==> r.requestId != req.requestId
    ensures Stores(CommitTo(t, req).value.0, base, reqs + [req])
  {
    hide CommitTo;
    NotStored(t, reqs, req);
    FreshStored(t, req);
  }

  lemma NotStored(s: Session, reqs: seq<Request>, req: Request)
    requires Requests(s.requests) == reqs && forall r :: r in reqs ==> r.requestId != req.requestId
    ensures FindEntry(s.requests, req.requestId).None?
  {
    FindEntryIn(s.requests, req.requestId);
    forall e | e in s.requests ensures e.request.requestId != req.requestId {
      var i :| 0 <= i < |s.requests| && s.requests[i] == e;
      assert reqs[i] == e.request;
    }
  }

  lemma FreshStored(s: Session, req: Request)
    requires FindEntry(s.requests, req.requestId).None? && CommitTo(s, req).Ok?
    ensures CommitTo(s, req).value.0.requests == s.requests + [Entry(req.(sessionId := s.sessionId), OutcomeOf(s, req))]
    ensures CommitTo(s, req).value.0.sessionId == s.sessionId && CommitTo(s, req).value.0.protocol == s.protocol
  {
    hide Refusal, ProtocolsMatch, FindEntry, NewReceipts, Bind, OutcomeOf;
  }

  lemma {:induction false} EffectMapIs(effects: seq<Effect>, e: Effect)
    requires IdsCode(EffectIds(effects)).None?
    ensures e in effects <==> e.effectId in EffectMap(effects) && EffectMap(effects)[e.effectId] == e
    ensures e.effectId in EffectMap(effects) <==> e.effectId in EffectIds(effects)
  {
    if |effects| > 0 {
      var init, last := effects[..|effects| - 1], effects[|effects| - 1];
      assert EffectIds(effects) == EffectIds(init) + [last.effectId];
      assert EffectIds(effects)[..|init|] == EffectIds(init);
      assert effects == init + [last];
      EffectMapIs(init, e);
      EffectMapIs(init, last);
    }
  }

  lemma {:induction false} ReceiptMapIs(receipts: seq<Receipt>, r: Receipt)
    requires IdsCode(ReceiptIds(receipts)).None?
    ensures r in receipts <==> r.receiptId in ReceiptMap(receipts) && ReceiptMap(receipts)[r.receiptId] == r
    ensures r.receiptId in ReceiptMap(receipts) <==> r.receiptId in ReceiptIds(receipts)
  {
    if |receipts| > 0 {
      var init, last := receipts[..|receipts| - 1], receipts[|receipts| - 1];
      assert ReceiptIds(receipts) == ReceiptIds(init) + [last.receiptId];
      assert ReceiptIds(receipts)[..|init|] == ReceiptIds(init);
      assert receipts == init + [last];
      ReceiptMapIs(init, r);
      ReceiptMapIs(init, last);
    }
  }

  /** Two lists without repeats and with the same members are permutations of each other. */
  lemma {:induction false} Permuted<T>(a: seq<T>, b: seq<T>)
    requires forall i, j :: 0 <= i < j < |a| ==> a[i] != a[j]
    requires forall i, j :: 0 <= i < j < |b| ==> b[i] != b[j]
    requires forall x :: x in a <==> x in b
    ensures multiset(a) == multiset(b)
  {
    forall x ensures multiset(a)[x] == multiset(b)[x] {
      CountOne(a, x);
      CountOne(b, x);
    }
  }

  lemma {:induction false} CountOne<T>(a: seq<T>, x: T)
    requires forall i, j :: 0 <= i < j < |a| ==> a[i] != a[j]
    ensures multiset(a)[x] == if x in a then 1 else 0
  {
    if |a| > 0 {
      assert a == a[..|a| - 1] + [a[|a| - 1]];
      CountOne(a[..|a| - 1], x);
    }
  }

  lemma DistinctEffects(a: seq<Effect>)
    requires IdsCode(EffectIds(a)).None?
    ensures forall i, j :: 0 <= i < j < |a| ==> a[i] != a[j]
  {
    Unrepeated(EffectIds(a));
    forall i, j | 0 <= i < j < |a| ensures a[i] != a[j] { assert EffectIds(a)[i] != EffectIds(a)[j]; }
  }

  lemma SameEffects(a: seq<Effect>, b: seq<Effect>)
    requires IdsCode(EffectIds(a)).None? && IdsCode(EffectIds(b)).None? && EffectMap(a) == EffectMap(b)
    ensures multiset(a) == multiset(b)
    ensures forall e :: e in a <==> e in b
  {
    forall e ensures e in a <==> e in b {
      EffectMapIs(a, e);
      EffectMapIs(b, e);
    }
    DistinctEffects(a);
    DistinctEffects(b);
    Permuted(a, b);
  }

  lemma DistinctReceipts(a: seq<Receipt>)
    requires IdsCode(ReceiptIds(a)).None?
    ensures forall i, j :: 0 <= i < j < |a| ==> a[i] != a[j]
  {
    Unrepeated(ReceiptIds(a));
    forall i, j | 0 <= i < j < |a| ensures a[i] != a[j] { assert ReceiptIds(a)[i] != ReceiptIds(a)[j]; }
  }

  lemma SameReceipts(a: seq<Receipt>, b: seq<Receipt>)
    requires IdsCode(ReceiptIds(a)).None? && IdsCode(ReceiptIds(b)).None? && ReceiptMap(a) == ReceiptMap(b)
    ensures multiset(a) == multiset(b)
  {
    forall r ensures r in a <==> r in b {
      ReceiptMapIs(a, r);
      ReceiptMapIs(b, r);
    }
    DistinctReceipts(a);
    DistinctReceipts(b);
    Permuted(a, b);
  }

  lemma Unrepeated(ids: seq<Id>)
    requires IdsCode(ids).None?
    ensures forall i, j :: 0 <= i < j < |ids| ==> ids[i] != ids[j]
  {
    hide IdsCode;
    forall i, j | 0 <= i < j < |ids| ensures ids[i] != ids[j] {
      IdsDistinct(ids, j);
      assert ids[..j][i] == ids[i];
    }
  }

  lemma {:induction false} BindIs(effects: seq<Effect>, e: Effect)
    requires IdsCode(Keys(effects)).None? && e in effects
    ensures e.idempotencyKey in Bind(map[], effects) && Bind(map[], effects)[e.idempotencyKey] == e.effectId
  {
    var init, last := effects[..|effects| - 1], effects[|effects| - 1];
    assert effects == init + [last];
    assert Keys(effects) == Keys(init) + [last.idempotencyKey] && Keys(effects)[..|init|] == Keys(init);
    if e in init {
      BindIs(init, e);
      var i :| 0 <= i < |init| && init[i] == e;
      assert Keys(init)[i] == e.idempotencyKey;
    }
  }

  lemma {:induction false} BoundFrom(effects: seq<Effect>, key: Id) returns (e: Effect)
    requires key in Bind(map[], effects)
    ensures e in effects && e.idempotencyKey == key && e.effectId == Bind(map[], effects)[key]
  {
    var init, last := effects[..|effects| - 1], effects[|effects| - 1];
    assert effects == init + [last];
    if last.idempotencyKey == key { e := last; } else { e := BoundFrom(init, key); }
  }

  /** The key index does not depend on the order of the effects. */
  lemma SameBind(a: seq<Effect>, b: seq<Effect>)
    requires IdsCode(Keys(a)).None? && IdsCode(Keys(b)).None? && forall e :: e in a <==> e in b
    ensures Bind(map[], a) == Bind(map[], b)
  {
    hide IdsCode, Bind;
    forall key | key in Bind(map[], a) ensures key in Bind(map[], b) && Bind(map[], b)[key] == Bind(map[], a)[key] {
      var e := BoundFrom(a, key);
      BindIs(b, e);
    }
    forall key | key in Bind(map[], b) ensures key in Bind(map[], a) {
      var e := BoundFrom(b, key);
      BindIs(a, e);
    }
  }

  /** The parts of an accepted revival. */
  lemma Accepted(gate: Gate, x: Exported)
    requires ReviveOf(gate, x).Ok?
    ensures ShapeCode(gate, x).None? && JournalState(x.sessionId, x.epoch, x.events).Ok? && Resend(Base(x), x.requests).Ok?
    ensures var record, indexed := RecordOf(x, JournalState(x.sessionId, x.epoch, x.events).value), Resend(Base(x), x.requests).value;
      Reproduces(indexed, record) && ReviveOf(gate, x) == Ok(record.(requests := indexed.requests))
  {
    hide ShapeCode, JournalState, RecordOf, OutboxOf, Resend, Base, Reproduces;
  }

  lemma ShapeParts(gate: Gate, x: Exported)
    requires ShapeCode(gate, x).None?
    ensures IdsCode(EffectIds(x.effects)).None? && IdsCode(Keys(x.effects)).None? && IdsCode(ReceiptIds(x.receipts)).None?
    ensures IdsCode(RequestIds(x.requests)).None?
  {
    hide IdsCode, ValidId, AllValid;
  }

  /** Up to the order in which effects and receipts are listed, the two sessions are the same. */
  ghost predicate SameUpToOrder(r: Session, i: Session) {
    && r == i.(effects := r.effects, receipts := r.receipts)
    && multiset(r.effects) == multiset(i.effects) && multiset(r.receipts) == multiset(i.receipts)
  }

  /** Resent to an empty session, the exported requests are exactly what the reached session stores. */
  lemma ResentRun(x: Exported)
    requires Resend(Base(x), x.requests).Ok? && IdsCode(RequestIds(x.requests)).None?
    ensures Rerun(Base(x), x.requests) == Resend(Base(x), x.requests)
    ensures Inv(Resend(Base(x), x.requests).value) && Stores(Resend(Base(x), x.requests).value, Base(x), x.requests)
  {
    hide Inv, IdsCode, Resend, Rerun, Stores;
    ResendAddressed(Base(x), x.requests);
    Unrepeated(RequestIds(x.requests));
    assert forall i, j :: 0 <= i < j < |x.requests| ==> RequestIds(x.requests)[i] != RequestIds(x.requests)[j];
    EmptyInv(x.sessionId, InitialEpoch(x.events, x.epoch), x.protocol);
    RerunStores(Base(x), x.requests);
  }

  lemma SameRecord(x: Exported, i: Session)
    requires JournalState(x.sessionId, x.epoch, x.events).Ok?
    requires IdsCode(EffectIds(x.effects)).None? && IdsCode(Keys(x.effects)).None? && IdsCode(ReceiptIds(x.receipts)).None?
    requires Stores(i, Base(x), x.requests)
    requires Reproduces(i, RecordOf(x, JournalState(x.sessionId, x.epoch, x.events).value))
    requires Sound(i)
    ensures SameUpToOrder(RecordOf(x, JournalState(x.sessionId, x.epoch, x.events).value).(requests := i.requests), i)
  {
    SoundParts(i);
    JournalEnd(i);
    hide Sound, IdsCode, EffectMap, ReceiptMap, JournalState, Bind, Indexed, DistinctIds;
    EventSet(i.events, i.eventIds);
    SameEffects(x.effects, i.effects);
    SameReceipts(x.receipts, i.receipts);
    SameBind(x.effects, i.effects);
  }

  lemma JournalEnd(s: Session)
    requires Sound(s)
    ensures JournalState(s.sessionId, s.epoch, s.events).Ok?
    ensures JournalState(s.sessionId, s.epoch, s.events).value.lastSequence == if |s.events| == 0 then None else Some(|s.events| - 1)
  {
    hide Numbered, Projects, Identified, IntendedAll, Evidenced, Indexed, Journalled, JournalState;
  }

  /**
   * An accepted export is the state its own requests lead to, up to the order of the content lists,
   * and nothing of it is lost: exporting the revived session gives the same export back.
   */
  lemma Faithful(gate: Gate, x: Exported)
    requires ReviveOf(gate, x).Ok?
    ensures Rerun(Base(x), x.requests).Ok? && Inv(Rerun(Base(x), x.requests).value)
    ensures SameUpToOrder(ReviveOf(gate, x).value, Rerun(Base(x), x.requests).value)
    ensures Export(ReviveOf(gate, x).value) == x
  {
    hide Sound, Rebuilds, IdsCode, ShapeCode, ReviveOf, JournalState, Resend, Rerun, Reproduces, SameUpToOrder;
    Accepted(gate, x);
    ShapeParts(gate, x);
    ResentRun(x);
    var i := Resend(Base(x), x.requests).value;
    SameRecord(x, i);
    MetadataSame(gate, x);
  }

  lemma MetadataSame(gate: Gate, x: Exported)
    requires ReviveOf(gate, x).Ok?
    ensures RecordOf(x, JournalState(x.sessionId, x.epoch, x.events).value).revision == x.revision
  {
    hide ShapeCode, JournalState, OutboxOf, Resend, Base, Reproduces, Bind;
  }

  // ---- a revived session is as sound as any other ----------------------------------------------------------------

  lemma SameMembers<T>(a: seq<T>, b: seq<T>, x: T)
    requires multiset(a) == multiset(b)
    ensures x in a <==> x in b
  {
    assert x in a <==> x in multiset(a);
    assert x in b <==> x in multiset(b);
  }

  lemma EvidencePermutes(events: seq<Event>, a: seq<Receipt>, b: seq<Receipt>)
    requires multiset(a) == multiset(b) && EvidenceOk(events, a) && IdsCode(ReceiptIds(b)).None?
    ensures EvidenceOk(events, b)
  {
    hide IdsCode, FindReceipt;
    forall r ensures r in a <==> r in b { SameMembers(a, b, r); }
    forall i | 0 <= i < |events| ensures Holds(b, events[i]) {
      assert Holds(a, events[i]);
      if IsReceiptEvent(events[i].kind) {
        FindReceiptIn(a, events[i].payload.objectRef.value.id);
        FindReceiptIn(b, events[i].payload.objectRef.value.id);
      }
    }
  }

  lemma OrderIdentified(i: Session, r: Session)
    requires Identified(i) && SameUpToOrder(r, i)
    requires IdsCode(EffectIds(r.effects)).None? && IdsCode(Keys(r.effects)).None?
    ensures Identified(r)
  {
    hide IdsCode, Bind;
    forall e ensures e in r.effects <==> e in i.effects { SameMembers(r.effects, i.effects, e); }
    SameBind(r.effects, i.effects);
  }

  lemma OrderIntended(i: Session, r: Session)
    requires IntendedAll(i) && SameUpToOrder(r, i)
    ensures IntendedAll(r)
  {
    hide Intends;
    forall e | e in r.effects ensures exists k :: 0 <= k < |r.events| && Intends(r.events[k], e.effectId) {
      SameMembers(r.effects, i.effects, e);
    }
  }

  lemma OrderSame(i: Session, r: Session)
    requires SameUpToOrder(r, i)
    ensures Numbered(i) ==> Numbered(r)
    ensures Replays(i) ==> Replays(r)
    ensures r.events == i.events && r.requests == i.requests
  {
    hide DistinctIds, ReplaysTo;
  }

  /** The order of the content lists does not matter to soundness. */
  lemma OrderSound(i: Session, r: Session)
    requires Sound(i) && SameUpToOrder(r, i)
    requires IdsCode(EffectIds(r.effects)).None? && IdsCode(Keys(r.effects)).None? && IdsCode(ReceiptIds(r.receipts)).None?
    requires OutboxOf(r.events, r.effects, r.receipts).Ok?
    ensures Sound(r)
  {
    hide IdsCode, OutboxOf, Numbered, Replays, Identified, IntendedAll, EvidenceOk, Indexed, Journalled;
    OrderSame(i, r);
    OrderIdentified(i, r);
    OrderIntended(i, r);
    EvidencePermutes(i.events, i.receipts, r.receipts);
    SameIndex(i, r);
  }

  lemma SameIndex(i: Session, r: Session)
    requires Indexed(i) && r == i.(effects := r.effects, receipts := r.receipts)
    ensures Indexed(r)
  {
    forall k | 0 <= k < |r.requests| ensures EntryAt(r, k) { assert EntryAt(i, k); }
  }

  lemma ReviveProjects(gate: Gate, x: Exported)
    requires ReviveOf(gate, x).Ok?
    ensures OutboxOf(x.events, x.effects, x.receipts).Ok?
  {
    hide ShapeCode, JournalState, RecordOf, OutboxOf, Resend, Base, Reproduces;
  }

  lemma ReviveSound(gate: Gate, x: Exported)
    requires ReviveOf(gate, x).Ok?
    ensures Sound(ReviveOf(gate, x).value)
  {
    hide Sound, Rebuilds, IdsCode, ShapeCode, ReviveOf, Rerun, SameUpToOrder, OutboxOf;
    Accepted(gate, x);
    ShapeParts(gate, x);
    ReviveProjects(gate, x);
    Faithful(gate, x);
    OrderSound(Rerun(Base(x), x.requests).value, ReviveOf(gate, x).value);
  }
}
