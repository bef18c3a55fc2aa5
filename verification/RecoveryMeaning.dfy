/** Which exports are revived: exactly the well-formed ones that say what their own requests lead to. */
module RecoveryMeaning {
  import opened Options
  import opened JournalTypes
  import opened Replay
  import opened Commit
  import opened CommitMeaning
  import opened SessionRecords
  import opened Sessions
  import opened Recovery

  // ---- the order of the content lists does not matter --------------------------------------------------------------------

  lemma SameFound(a: seq<Receipt>, b: seq<Receipt>, id: Id)
    requires IdsCode(ReceiptIds(a)).None? && IdsCode(ReceiptIds(b)).None? && forall r :: r in a <==> r in b
    ensures FindReceipt(a, id) == FindReceipt(b, id)
  {
    hide IdsCode, FindReceipt;
    FindReceiptIn(a, id);
    FindReceiptIn(b, id);
    if FindReceipt(a, id).Some? {
      var r := FindReceipt(a, id).value;
      var i :| 0 <= i < |b| && b[i] == r;
      FoundOnce(b, i);
    }
  }

  lemma SameHas(a: seq<Effect>, b: seq<Effect>, id: Id)
    requires forall e :: e in a <==> e in b
    ensures HasEffect(a, id) <==> HasEffect(b, id)
  {
    if HasEffect(a, id) {
      var i :| 0 <= i < |a| && a[i].effectId == id;
      assert a[i] in b;
    }
    if HasEffect(b, id) {
      var i :| 0 <= i < |b| && b[i].effectId == id;
      assert b[i] in a;
    }
  }

  lemma {:induction false} SameOutbox(events: seq<Event>, a: seq<Effect>, b: seq<Effect>, r: seq<Receipt>, t: seq<Receipt>)
    requires IdsCode(ReceiptIds(r)).None? && IdsCode(ReceiptIds(t)).None?
    requires (forall e :: e in a <==> e in b) && (forall x :: x in r <==> x in t)
    ensures OutboxOf(events, a, r) == OutboxOf(events, b, t)
  {
    hide IdsCode, FindReceipt, HasEffect;
    if |events| > 0 {
      SameOutbox(events[..|events| - 1], a, b, r, t);
      var e := events[|events| - 1];
      if e.payload.effectId.Some? { SameHas(a, b, e.payload.effectId.value); }
      if e.payload.objectRef.Some? { SameFound(r, t, e.payload.objectRef.value.id); }
    }
  }

  lemma SameEffectMap(a: seq<Effect>, b: seq<Effect>)
    requires IdsCode(EffectIds(a)).None? && IdsCode(EffectIds(b)).None? && forall e :: e in a <==> e in b
    ensures EffectMap(a) == EffectMap(b)
  {
    hide IdsCode, EffectMap;
    forall id | id in EffectMap(a) ensures id in EffectMap(b) && EffectMap(b)[id] == EffectMap(a)[id] {
      var e := EffectFrom(a, id);
      EffectMapIs(b, e);
    }
    forall id | id in EffectMap(b) ensures id in EffectMap(a) {
      var e := EffectFrom(b, id);
      EffectMapIs(a, e);
    }
  }

  lemma {:induction false} EffectFrom(a: seq<Effect>, id: Id) returns (e: Effect)
    requires id in EffectMap(a)
    ensures e in a && e.effectId == id && EffectMap(a)[id] == e
  {
    var n := |a| - 1;
    if a[n].effectId == id { e := a[n]; } else { e := EffectFrom(a[..n], id); }
  }

  lemma SameReceiptMap(a: seq<Receipt>, b: seq<Receipt>)
    requires IdsCode(ReceiptIds(a)).None? && IdsCode(ReceiptIds(b)).None? && forall r :: r in a <==> r in b
    ensures ReceiptMap(a) == ReceiptMap(b)
  {
    hide IdsCode, ReceiptMap;
    forall id | id in ReceiptMap(a) ensures id in ReceiptMap(b) && ReceiptMap(b)[id] == ReceiptMap(a)[id] {
      var r := ReceiptFrom(a, id);
      ReceiptMapIs(b, r);
    }
    forall id | id in ReceiptMap(b) ensures id in ReceiptMap(a) {
      var r := ReceiptFrom(b, id);
      ReceiptMapIs(a, r);
    }
  }

  lemma {:induction false} ReceiptFrom(a: seq<Receipt>, id: Id) returns (r: Receipt)
    requires id in ReceiptMap(a)
    ensures r in a && r.receiptId == id && ReceiptMap(a)[id] == r
  {
    var n := |a| - 1;
    if a[n].receiptId == id { r := a[n]; } else { r := ReceiptFrom(a[..n], id); }
  }

  // ---- what is accepted --------------------------------------------------------------------------------------------------------

  /** The identity and the revisions of a request, as the codec demands them. */
  predicate RequestsFormed(reqs: seq<Request>) {
    forall i :: 0 <= i < |reqs| ==>
      && ValidId(reqs[i].requestId) && 0 <= reqs[i].expectedRevision <= MAX_SAFE_INTEGER
      && 1 <= reqs[i].epoch <= MAX_SAFE_INTEGER
  }

  /** The export is formed as the codec demands: numbers in range, ids by the grammar and each once. */
  predicate WellFormed(gate: Gate, x: Exported) {
    && 1 <= x.epoch <= MAX_SAFE_INTEGER && 0 <= x.revision <= MAX_SAFE_INTEGER && ValidId(x.sessionId) && gate(x.protocol).None?
    && !SomeBadId(EffectIds(x.effects)) && !SomeBadId(Keys(x.effects)) && !SomeBadId(ReceiptIds(x.receipts)) && !SomeBadId(EventIdsOf(x.events))
    && RequestsFormed(x.requests) && !SomeBadId(RequestIds(x.requests))
  }

  lemma FormedIff(reqs: seq<Request>)
    ensures RequestsFormed(reqs) <==> AllValid(reqs)
  {
    hide ValidId;
  }

  lemma WellFormedIff(gate: Gate, x: Exported)
    ensures WellFormed(gate, x) <==> ShapeCode(gate, x).None?
  {
    hide IdsCode, SomeBadId, ValidId, AllValid, RequestsFormed;
    FormedIff(x.requests);
    SomeBadIdIff(EffectIds(x.effects));
    SomeBadIdIff(Keys(x.effects));
    SomeBadIdIff(ReceiptIds(x.receipts));
    SomeBadIdIff(EventIdsOf(x.events));
    SomeBadIdIff(RequestIds(x.requests));
  }

  /** The session says what the export says, the order of effects and receipts aside. */
  ghost predicate SaysTheSame(s: Session, x: Exported) {
    && s.events == x.events && s.epoch == x.epoch && s.revision == x.revision
    && (forall e :: e in s.effects <==> e in x.effects) && (forall r :: r in s.receipts <==> r in x.receipts)
  }

  /** The exported requests, all of this session, lead an empty session there, without a refusal. */
  ghost predicate Authentic(x: Exported) {
    && (forall i :: 0 <= i < |x.requests| ==> x.requests[i].sessionId == x.sessionId)
    && Rerun(Base(x), x.requests).Ok? && SaysTheSame(Rerun(Base(x), x.requests).value, x)
  }

  lemma AuthenticReproduces(x: Exported, s: Session)
    requires Inv(s) && s.sessionId == x.sessionId && SaysTheSame(s, x)
    requires IdsCode(EffectIds(x.effects)).None? && IdsCode(ReceiptIds(x.receipts)).None?
    ensures OutboxOf(x.events, x.effects, x.receipts).Ok?
    ensures EffectMap(s.effects) == EffectMap(x.effects) && ReceiptMap(s.receipts) == ReceiptMap(x.receipts)
    ensures JournalState(x.sessionId, x.epoch, x.events).Ok? && MetadataCode(x, JournalState(x.sessionId, x.epoch, x.events)).None?
  {
    Recovery.SoundParts(s);
    SameOutbox(s.events, s.effects, x.effects, s.receipts, x.receipts);
    SameEffectMap(s.effects, x.effects);
    SameReceiptMap(s.receipts, x.receipts);
    hide IdsCode, EffectMap, ReceiptMap, OutboxOf, Numbered, Identified, IntendedAll, Evidenced, Indexed, Journalled, Rebuilds, JournalState;
  }

  lemma AuthenticRevives(gate: Gate, x: Exported)
    requires WellFormed(gate, x) && Authentic(x)
    ensures ReviveOf(gate, x).Ok?
  {
    WellFormedIff(gate, x);
    ShapeParts(gate, x);
    ResendIsRerun(Base(x), x.requests);
    ResentRun(x);
    var i := Rerun(Base(x), x.requests).value;
    AuthenticReproduces(x, i);
    hide WellFormed, ShapeCode, Rerun, Resend, Inv, OutboxOf, JournalState, EffectMap, ReceiptMap, IdsCode;
  }

  /**
   * An export is revived exactly when it is well formed and its own requests, sent again to an empty session, lead to
   * what it says. Replaying its journal and projecting its outbox refuse nothing beyond that.
   */
  lemma ReviveIff(gate: Gate, x: Exported)
    ensures ReviveOf(gate, x).Ok? <==> WellFormed(gate, x) && Authentic(x)
  {
    if ReviveOf(gate, x).Ok? {
      Recovery.Accepted(gate, x);
      WellFormedIff(gate, x);
      Faithful(gate, x);
      ResendAddressed(Base(x), x.requests);
      SaysWhatItExports(ReviveOf(gate, x).value, Rerun(Base(x), x.requests).value, x);
    }
    hide WellFormed, ReviveOf, Rerun, ShapeCode, Resend, Reproduces, SaysTheSame, Export;
    if WellFormed(gate, x) && Authentic(x) { AuthenticRevives(gate, x); }
  }

  lemma SaysWhatItExports(r: Session, i: Session, x: Exported)
    requires SameUpToOrder(r, i) && Export(r) == x
    ensures SaysTheSame(i, x)
  {
    forall e ensures e in i.effects <==> e in x.effects { SameMembers(r.effects, i.effects, e); }
    forall t ensures t in i.receipts <==> t in x.receipts { SameMembers(r.receipts, i.receipts, t); }
  }
}
