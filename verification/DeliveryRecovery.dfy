/** When a delivery can be exported and revived again: the request ids the store derives have to fit the Id grammar too. */
module DeliveryRecovery {
  import opened Options
  import opened JournalTypes
  import opened Replay
  import opened Commit
  import opened Sessions
  import opened Recovery
  import opened Delivery

  lemma PrefixedId(prefix: string, id: Id)
    requires ValidId(prefix + "x")
    ensures ValidId(id) ==> (ValidId(prefix + id) <==> |prefix| + |id| <= 128)
  {
    var all := prefix + id;
    assert forall i :: 0 <= i < |prefix| ==> all[i] == (prefix + "x")[i];
    assert forall i :: |prefix| <= i < |all| ==> all[i] == id[i - |prefix|];
    if |prefix| > 0 { assert all[0] == (prefix + "x")[0]; }
  }

  lemma DispatchId(id: Id)
    ensures ValidId(id) ==> (ValidId("dispatch:" + id) <==> |id| <= 119)
  {
    assert "dispatch:" + "x" == "dispatch:x" && ValidId("dispatch:x");
    PrefixedId("dispatch:", id);
  }

  lemma ReceiptRequestId(id: Id)
    ensures ValidId(id) ==> (ValidId("receipt:" + id) <==> |id| <= 120)
  {
    assert "receipt:" + "x" == "receipt:x" && ValidId("receipt:x");
    PrefixedId("receipt:", id);
  }

  /** Adding one event and one request keeps a session restorable exactly when their ids are valid and the revision stays safe. */
  lemma OneMoreRestorable(gate: Gate, s: Session, req: Request)
    requires Restorable(gate, s) && |req.drafts| == 1 && !ChangesEpoch(req.drafts) && req.epoch == s.epoch
    ensures Restorable(gate, Apply(s, req)) <==>
            ValidId(req.drafts[0].eventId) && ValidId(req.requestId) && s.revision < MAX_SAFE_INTEGER
  {
    hide ValidId, NewReceipts, Bind, ChangesEpoch;
    var t := Apply(s, req);
    assert t.events[|s.events|] == EventOf(s, req.drafts[0], 0);
    assert t.requests[|s.requests|].request.requestId == req.requestId;
    assert forall i :: 0 <= i < |s.events| ==> t.events[i] == s.events[i];
    assert forall i :: 0 <= i < |s.requests| ==> t.requests[i] == s.requests[i];
  }

  lemma OneMoreRevives(gate: Gate, s: Session, req: Request)
    requires Restorable(gate, s) && |req.drafts| == 1 && !ChangesEpoch(req.drafts) && req.epoch == s.epoch
    requires CommitTo(s, req) == Ok((Apply(s, req), OutcomeOf(s, req))) && Inv(s)
    ensures ReviveOf(gate, Export(Apply(s, req))) == Ok(Apply(s, req)) <==>
            ValidId(req.drafts[0].eventId) && ValidId(req.requestId) && s.revision < MAX_SAFE_INTEGER
  {
    hide Inv, ReviveOf, Restorable, ValidId, CommitTo, Apply, ChangesEpoch;
    CommitKeepsInv(s, req);
    RoundTrip(gate, Apply(s, req));
    OneMoreRestorable(gate, s, req);
  }

  /**
   * A dispatch the store accepts leaves a restorable session restorable exactly when the claim id is valid and at
   * most 119 characters long: its request id carries nine more.
   */
  lemma DispatchRestorable(gate: Gate, s: Session, input: DispatchInput)
    requires Inv(s) && Restorable(gate, s) && Dispatchable(s, input)
    ensures DispatchOf(s, input).Ok?
    ensures var t := DispatchOf(s, input).value.0;
      ReviveOf(gate, Export(t)) == Ok(t) <==> ValidId(input.claimId) && |input.claimId| <= 119 && s.revision < MAX_SAFE_INTEGER
  {
    hide Sound, Rebuilds, ReviveOf, Restorable, ValidId, OutboxOf, CommitTo, FindEntry, Apply, DispatchOf, ContentOf, OutcomeOf, Export;
    var req := DispatchRequest(s, input, ContentOf(s, input.effectId).binding);
    DispatchIff(s, input);
    DispatchCommits(s, input);
    OneMoreRevives(gate, s, req);
    DispatchId(input.claimId);
  }

  /**
   * A receipt the store accepts has a valid id; the session stays restorable exactly when that id is at most 120
   * characters long. A receipt id of 121 to 128 characters is committed, and the session can never be revived again.
   */
  lemma ReceiptRestorable(gate: Gate, s: Session, input: ReceiptInput)
    requires Inv(s) && Restorable(gate, s) && Receivable(s, input)
    ensures ApplyReceiptOf(s, input).Ok? && ValidId(input.receipt.receiptId)
    ensures var t := ApplyReceiptOf(s, input).value.0;
      ReviveOf(gate, Export(t)) == Ok(t) <==> |input.receipt.receiptId| <= 120 && s.revision < MAX_SAFE_INTEGER
  {
    hide Sound, Rebuilds, ReviveOf, Restorable, ValidId, OutboxOf, CommitTo, FindEntry, FindReceipt, Apply, ApplyReceiptOf, OutcomeOf, Export, Stale;
    var effect := FindEffect(s.effects, input.receipt.effectId).value;
    var req := ReceiptRequest(s, input, effect);
    ReceiptIff(s, input);
    ReceiptCommits(s, input, effect);
    OneMoreRevives(gate, s, req);
    ReceiptRequestId(input.receipt.receiptId);
  }

  /** A session that holds a request id outside the grammar is never restorable again. */
  lemma StrandedForGood(gate: Gate, s: Session, i: nat, later: seq<Request>)
    requires Inv(s) && i < |s.requests| && !ValidId(s.requests[i].request.requestId)
    ensures ReviveOf(gate, Export(RunAll(s, later))).Err?
  {
    RunKeepsInv(s, later);
    RunExtends(s, later);
    var t := RunAll(s, later);
    assert t.requests[i] == s.requests[i];
    RoundTrip(gate, t);
    hide Inv, ReviveOf, RunAll;
  }

  // ---- a session that is stranded this way -------------------------------------------------------------------------

  const BINDING := Binding("n", 1, 1, "")
  const EFFECT := Effect("e", "k", "p", BINDING, "")
  const INTENDS := Draft("p", "i", None, None, "s", 1, "i", EffectIntended, Payload(Some(BINDING), None, None, None, Some("e"), ""), "internal")
  const FIRST := Request("s", "r", 0, 1, [INTENDS], [EFFECT], [])
  const CLAIM := DispatchInput("e", "c", 1, 1)

  function Opened(): Session { NewSession("s", 1, "p") }

  lemma ShortIds()
    ensures ValidId("s") && ValidId("e") && ValidId("k") && ValidId("i") && ValidId("c") && ValidId("r") && ValidId("dispatch:c")
  {}

  lemma FirstReplays()
    ensures SimulatedReplay(Opened(), FIRST).Ok?
  {
    var s := Opened();
    var more, state := NewEvents(s, [INTENDS]), EmptyReplayState("s", 1);
    assert more == [EventOf(s, INTENDS, 0)];
    ReplaysOne("s", state, EventOf(s, INTENDS, 0));
  }

  lemma FirstProjects()
    ensures SimulatedOutbox(Opened(), FIRST) == Ok(Outbox(["e"], map["e" := OutboxEntry(Intended, None)], []))
  {
    var s := Opened();
    var more, effects := NewEvents(s, [INTENDS]), [] + [EFFECT];
    var e := EventOf(s, INTENDS, 0);
    assert more == [e] && [] + more == [e] && [e][..0] == [];
    assert effects[0].effectId == "e" && HasEffect(effects, "e");
    assert NewReceipts(s, []) == [];
    var o: Outbox := Outbox([], map[], []);
    assert OutboxOf([e][..0], effects, []) == Ok(o);
    assert OutboxStep(o, e, effects, []) == Ok(Outbox([] + ["e"], map[]["e" := OutboxEntry(Intended, None)], []));
    assert [] + ["e"] == ["e"];
    assert OutboxOf([e], effects, []) == OutboxStep(o, e, effects, []);
    assert s.events + more == [e] && s.effects + FIRST.effects == effects && s.receipts + NewReceipts(s, []) == [];
  }

  lemma FirstIdentified()
    ensures DraftCode(Opened(), [INTENDS]).None?
    ensures EffectsCode(Opened(), [INTENDS], [EFFECT]).None?
    ensures ReceiptsCode(Opened(), [INTENDS], []).None?
  {
    var s, drafts, effects := Opened(), [INTENDS], [EFFECT];
    assert drafts[..0] == [] && effects[..0] == [];
    assert EffectIds(effects) == ["e"] && Keys(effects) == ["k"];
    OneId("e");
    OneId("k");
    assert IntendedCount(drafts, "e") == IntendedCount(drafts[..0], "e") + 1;
    assert EffectCode(s, drafts, effects[..0]).None?;
    assert EffectCode(s, drafts, effects).None?;
    assert effects[0].effectId == "e" && IntentionsCovered(drafts, effects);
    assert !NamelessIntention(drafts);
    assert ReceiptIds([]) == [];
  }

  lemma OneId(id: Id)
    requires ValidId(id)
    ensures IdsCode([id]).None?
  {
    assert [id][..0] == [];
  }

  lemma FirstCommits()
    ensures CommitTo(Opened(), FIRST) == Ok((Apply(Opened(), FIRST), OutcomeOf(Opened(), FIRST))) && Inv(Apply(Opened(), FIRST))
  {
    FirstReplays();
    FirstProjects();
    FirstIdentified();
    EmptyInv("s", 1, "p");
    hide SimulatedReplay, SimulatedOutbox, DraftCode, EffectsCode, ReceiptsCode, Inv, Apply;
    CommitKeepsInv(Opened(), FIRST);
  }

  /** The session after the first request: one effect, intended, bound to the current epoch. */
  lemma FirstState()
    ensures var s := Apply(Opened(), FIRST);
      && s.sessionId == "s" && s.protocol == "p" && s.epoch == 1 && s.revision == 1 && s.effects == [EFFECT] && s.receipts == []
      && s.eventIds == {"i"} && s.events == [EventOf(Opened(), INTENDS, 0)]
      && |s.requests| == 1 && s.requests[0].request == FIRST
      && Projection(s) == Ok(Outbox(["e"], map["e" := OutboxEntry(Intended, None)], []))
  {
    FirstProjects();
    AppliedProjects(Opened(), FIRST);
    hide OutboxOf, SimulatedOutbox, Bind;
    var s := Apply(Opened(), FIRST);
    assert DraftIds([INTENDS]) == ["i"] && NewEvents(Opened(), [INTENDS]) == [EventOf(Opened(), INTENDS, 0)];
    assert NewReceipts(Opened(), []) == [];
    assert "i" in DraftIds([INTENDS]);
  }

  lemma NoEntry(requests: seq<Entry>, id: Id)
    requires forall i :: 0 <= i < |requests| ==> requests[i].request.requestId != id
    ensures FindEntry(requests, id).None?
  {
    FindEntryIn(requests, id);
    hide FindEntry;
  }

  lemma ThenDispatches()
    ensures var s := Apply(Opened(), FIRST); Inv(s) && Dispatchable(s, CLAIM) && ContentOf(s, "e") == EFFECT
  {
    FirstCommits();
    FirstState();
    hide Inv, OutboxOf, Apply, FindEntry, ContentOf;
    var s := Apply(Opened(), FIRST);
    assert ContentOf(s, "e") in s.effects;
    NoEntry(s.requests, "dispatch:" + "c");
  }

  function One(): Session { Apply(Opened(), FIRST) }
  function SecondRequest(): Request { DispatchRequest(One(), CLAIM, BINDING) }
  function Two(): Session { Apply(One(), SecondRequest()) }

  /** What a request with one draft and no content adds to a session. */
  lemma Grown(s: Session, req: Request)
    requires |req.drafts| == 1 && req.effects == [] && req.receipts == [] && !ChangesEpoch(req.drafts)
    ensures var t := Apply(s, req);
      && t.sessionId == s.sessionId && t.protocol == s.protocol && t.epoch == s.epoch && t.revision == s.revision + 1
      && t.effects == s.effects && t.receipts == s.receipts && t.eventIds == s.eventIds + {req.drafts[0].eventId}
      && t.events == s.events + [EventOf(s, req.drafts[0], 0)]
      && t.requests == s.requests + [Entry(req.(sessionId := s.sessionId), OutcomeOf(s, req))]
  {
    hide ChangesEpoch, Bind;
    assert NewEvents(s, req.drafts) == [EventOf(s, req.drafts[0], 0)];
    assert DraftIds(req.drafts) == [req.drafts[0].eventId];
    assert NewReceipts(s, []) == [];
  }

  /** A session with one dispatched effect, at the revision the receipt will be sent at. */
  predicate Waiting(t: Session) {
    && t.sessionId == "s" && t.protocol == "p" && t.epoch == 1 && t.revision == 2 && t.effects == [EFFECT] && t.receipts == []
    && t.eventIds == {"i", "c"} && |t.events| == 2 && t.events[0].eventId == "i" && t.events[1].eventId == "c"
    && |t.requests| == 2 && t.requests[0].request.requestId == "r" && t.requests[1].request.requestId == "dispatch:c"
    && t.requests[0].request.epoch == 1 && t.requests[1].request.epoch == 1
  }

  lemma TwoWaits()
    ensures Waiting(Two())
  {
    hide Apply, Projection, NewEvents, DraftIds;
    FirstState();
    Grown(One(), SecondRequest());
    assert "dispatch:" + "c" == "dispatch:c";
  }

  lemma OneReady()
    ensures Inv(One()) && Dispatchable(One(), CLAIM) && DispatchRequest(One(), CLAIM, ContentOf(One(), "e").binding) == SecondRequest()
    ensures Projection(One()) == Ok(Outbox(["e"], map["e" := OutboxEntry(Intended, None)], []))
  {
    ThenDispatches();
    FirstState();
    hide Inv, Dispatchable, ContentOf, Apply, OutboxOf, DispatchRequest;
  }

  lemma TwoAwaits()
    ensures Projection(Two()) == Ok(Outbox(["e"], map["e" := OutboxEntry(Dispatched, None)], []))
  {
    hide Inv, Projection, Apply, Dispatchable, ContentOf, One, SecondRequest, DispatchRequest;
    OneReady();
    DispatchedReads(One(), CLAIM);
    var o := Outbox(["e"], map["e" := OutboxEntry(Intended, None)], []);
    assert Projection(One()).value == o;
    assert o.entries[CLAIM.effectId := OutboxEntry(Dispatched, None)] == map["e" := OutboxEntry(Dispatched, None)];
  }

  lemma WaitingRestorable(gate: Gate, t: Session)
    requires gate("p").None? && Waiting(t)
    ensures Restorable(gate, t)
  {
    ShortIds();
    hide ValidId;
  }

  lemma SecondCommits()
    ensures CommitTo(One(), SecondRequest()) == Ok((Two(), OutcomeOf(One(), SecondRequest()))) && Inv(Two())
  {
    OneReady();
    DispatchCommits(One(), CLAIM);
    hide Inv, CommitTo, Apply, Dispatchable, ContentOf, One, SecondRequest, DispatchRequest, OutcomeOf;
    CommitKeepsInv(One(), SecondRequest());
  }

  lemma RunTwo(s: Session, a: Request, t: Session, b: Request, u: Session)
    requires CommitTo(s, a).Ok? && CommitTo(s, a).value.0 == t && CommitTo(t, b).Ok? && CommitTo(t, b).value.0 == u
    ensures RunAll(s, [a, b]) == u
  {
    hide CommitTo;
    assert [a, b][..1] == [a] && [a][..0] == [];
    assert RunAll(s, []) == s;
    assert RunAll(s, [a]) == t;
  }

  lemma TwoReached()
    ensures RunAll(Opened(), [FIRST, SecondRequest()]) == Two() && Inv(Two())
  {
    FirstCommits();
    SecondCommits();
    hide Inv, CommitTo, Apply, SecondRequest, OutcomeOf, Two;
    RunTwo(Opened(), FIRST, One(), SecondRequest(), Two());
  }

  function LastReceipt(id: Id): ReceiptInput {
    ReceiptInput(Receipt(id, "e", "p", BINDING, FailedStatus, ["seen"], ""), ObjectRef(id, ""), 2, 1)
  }

  lemma WaitingReceives(t: Session, id: Id)
    requires Waiting(t) && Projection(t) == Ok(Outbox(["e"], map["e" := OutboxEntry(Dispatched, None)], []))
    requires ValidId(id) && |id| > 120
    ensures Receivable(t, LastReceipt(id))
  {
    NoEntry(t.requests, "receipt:" + id);
    assert t.effects[0].effectId == "e";
    FindEffectIn(t.effects, "e");
    hide OutboxOf, FindEntry, ValidId, FindEffect;
  }

  /** The case is real: two ordinary requests lead to a restorable session that accepts any valid receipt id of 121 characters or more. */
  lemma StrandingReachable(gate: Gate, id: Id)
    requires gate("p").None? && ValidId(id) && |id| > 120
    ensures var s := RunAll(Opened(), [FIRST, SecondRequest()]); Restorable(gate, s) && Receivable(s, LastReceipt(id)) && Inv(s)
  {
    hide Two, Inv, Restorable, Receivable, RunAll, SecondRequest, ValidId, Waiting, Projection, LastReceipt;
    TwoReached();
    TwoWaits();
    TwoAwaits();
    WaitingRestorable(gate, Two());
    WaitingReceives(Two(), id);
  }
}
