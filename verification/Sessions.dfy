/** What every reachable session keeps, whatever requests it is sent. */
module Sessions {
  import opened Options
  import opened JournalTypes
  import opened Replay
  import opened Commit

  /** Sends the requests one after the other; refused and repeated ones leave the session as it is. */
  function RunAll(s: Session, reqs: seq<Request>): Session {
    if |reqs| == 0 then s
    else
      var before := RunAll(s, reqs[..|reqs| - 1]);
      match CommitTo(before, reqs[|reqs| - 1])
      case Err(_) => before
      case Ok(next) => next.0
  }

  /** Sends the requests strictly: the first refusal ends the run. */
  function Rerun(s: Session, reqs: seq<Request>): Result<Session> {
    if |reqs| == 0 then Ok(s)
    else
      match Rerun(s, reqs[..|reqs| - 1])
      case Err(code) => Err(code)
      case Ok(before) =>
        match CommitTo(before, reqs[|reqs| - 1])
        case Err(code) => Err(code)
        case Ok(next) => Ok(next.0)
  }

  function Requests(entries: seq<Entry>): (reqs: seq<Request>)
    ensures |reqs| == |entries| && forall i :: 0 <= i < |reqs| ==> reqs[i] == entries[i].request
  { seq(|entries|, i requires 0 <= i < |entries| => entries[i].request) }

  /** The epoch before the first event, as the journal itself tells it. */
  function InitialEpoch(events: seq<Event>, epoch: int): int { if |events| == 0 then epoch else FirstEpoch(events[0]) }

  // ---- the invariant, clause by clause --------------------------------------------------------------

  /** `ids` are the ids of the events, none of which repeats. */
  ghost predicate DistinctIds(events: seq<Event>, ids: set<Id>) {
    && (forall i :: 0 <= i < |events| ==> events[i].eventId in ids)
    && (forall i, j :: 0 <= i < j < |events| ==> events[i].eventId != events[j].eventId)
    && (forall id :: id in ids ==> exists i :: 0 <= i < |events| && events[i].eventId == id)
  }

  /** Sequences count from 0 without a gap, the revision counts the requests, event ids never repeat. */
  ghost predicate Numbered(s: Session) {
    && s.lastSequence == |s.events| - 1
    && s.revision == |s.requests|
    && (forall i :: 0 <= i < |s.events| ==> s.events[i].sequence == i)
    && DistinctIds(s.events, s.eventIds)
  }

  /** The journal replays, to a state that agrees with the record. */
  ghost predicate Replays(s: Session) { ReplaysTo(s.sessionId, s.epoch, s.revision, s.events) }

  ghost predicate ReplaysTo(sessionId: Id, epoch: int, revision: int, events: seq<Event>) {
    var r := JournalState(sessionId, epoch, events);
    && r.Ok? && r.value.sessionId == sessionId && r.value.revision == revision && r.value.epoch == epoch
    && r.value.lastSequence == if |events| == 0 then None else Some(|events| - 1)
  }

  /** The outbox projects, so the delivery history of every effect is consistent. */
  ghost predicate Projects(s: Session) { OutboxOf(s.events, s.effects, s.receipts).Ok? }

  /** Effect ids and delivery keys are valid and unique, and the key index is exactly theirs. */
  ghost predicate Identified(s: Session) {
    && IdsCode(EffectIds(s.effects)).None?
    && IdsCode(Keys(s.effects)).None?
    && s.idempotency == Bind(map[], s.effects)
  }

  /** Every effect was intended by an event of the journal. */
  ghost predicate IntendedAll(s: Session) {
    forall e :: e in s.effects ==> exists i :: 0 <= i < |s.events| && Intends(s.events[i], e.effectId)
  }

  predicate NamesReceipt(e: Event, id: Id) { IsReceiptEvent(e.kind) && e.payload.objectRef.Some? && e.payload.objectRef.value.id == id }

  ghost predicate Named(events: seq<Event>, receipts: seq<Receipt>) {
    forall r :: r in receipts ==> exists i :: 0 <= i < |events| && NamesReceipt(events[i], r.receiptId)
  }

  predicate Holds(receipts: seq<Receipt>, e: Event) {
    IsReceiptEvent(e.kind) ==> e.payload.objectRef.Some? && FindReceipt(receipts, e.payload.objectRef.value.id).Some?
  }

  /** Receipts are unique, each is named by an event, and each receipt event names a committed one. */
  ghost predicate Evidenced(s: Session) { EvidenceOk(s.events, s.receipts) }

  ghost predicate EvidenceOk(events: seq<Event>, receipts: seq<Receipt>) {
    && IdsCode(ReceiptIds(receipts)).None?
    && Named(events, receipts)
    && (forall i :: 0 <= i < |events| ==> Holds(receipts, events[i]))
  }

  /** The index holds one entry per request id, the `i`-th written at revision `i`. */
  ghost predicate Indexed(s: Session) {
    && (forall i, j :: 0 <= i < j < |s.requests| ==> s.requests[i].request.requestId != s.requests[j].request.requestId)
    && (forall i :: 0 <= i < |s.requests| ==> EntryAt(s, i))
    && (|s.events| == 0 <==> |s.requests| == 0)
  }

  predicate EntryAt(s: Session, i: nat)
    requires i < |s.requests|
  {
    && s.requests[i].request.expectedRevision == i && s.requests[i].request.sessionId == s.sessionId
    && s.requests[i].outcome.revision == i + 1 && s.requests[i].outcome.disposition == Committed
  }

  /** The stored requests rebuild the session from an empty one. */
  ghost predicate Rebuilds(s: Session) {
    Rerun(NewSession(s.sessionId, InitialEpoch(s.events, s.epoch), s.protocol), Requests(s.requests)) == Ok(s)
  }

  /** The event says what the draft said. */
  predicate From(e: Event, d: Draft) {
    && e.protocol == d.protocol && e.eventId == d.eventId && e.sessionId == d.sessionId && e.epoch == d.epoch
    && e.causedBy == d.causedBy && e.kind == d.kind && e.payload == d.payload && e.visibility == d.visibility
  }

  /** How many drafts the first `k` requests bring. */
  function DraftsBefore(requests: seq<Entry>, k: nat): nat
    requires k <= |requests|
  {
    if k == 0 then 0 else DraftsBefore(requests, k - 1) + |requests[k - 1].request.drafts|
  }

  /** The `i`-th draft of the `k`-th request is in the journal, at its turn and with the number of its request. */
  predicate Entered(events: seq<Event>, requests: seq<Entry>, k: nat, i: nat)
    requires k < |requests| && i < |requests[k].request.drafts|
  {
    var j := DraftsBefore(requests, k) + i;
    j < |events| && From(events[j], requests[k].request.drafts[i]) && events[j].sequence == j && events[j].revision == k + 1
  }

  /** The journal is the drafts of the stored requests, one request after another. */
  ghost predicate Journalled(events: seq<Event>, requests: seq<Entry>) {
    && |events| == DraftsBefore(requests, |requests|)
    && forall k, i :: 0 <= k < |requests| && 0 <= i < |requests[k].request.drafts| ==> Entered(events, requests, k, i)
  }

  lemma {:induction false} DraftsBeforeGrows(requests: seq<Entry>, more: seq<Entry>, k: nat)
    requires k <= |requests|
    ensures DraftsBefore(requests + more, k) == DraftsBefore(requests, k)
  {
    if k > 0 { DraftsBeforeGrows(requests, more, k - 1); }
  }

  lemma DraftFound(events: seq<Event>, requests: seq<Entry>, e: Entry, d: Draft) returns (j: nat)
    requires Journalled(events, requests) && e in requests && d in e.request.drafts
    ensures j < |events| && From(events[j], d)
  {
    var k :| 0 <= k < |requests| && requests[k] == e;
    var i :| 0 <= i < |e.request.drafts| && e.request.drafts[i] == d;
    assert Entered(events, requests, k, i);
    j := DraftsBefore(requests, k) + i;
  }

  /** Everything every session keeps, restored ones included. */
  ghost predicate Sound(s: Session) {
    && Numbered(s) && Replays(s) && Projects(s) && Identified(s) && IntendedAll(s) && Evidenced(s) && Indexed(s)
    && Journalled(s.events, s.requests)
  }

  ghost predicate Inv(s: Session) { Sound(s) && Rebuilds(s) }

  // ---- preservation ----------------------------------------------------------------------------------

  ghost predicate Fresh(s: Session, req: Request) {
    |req.drafts| > 0 && ProtocolsMatch(s.protocol, req) && FindEntry(s.requests, req.requestId).None? && Refusal(s, req).None?
  }

  /** The parts of an accepted fresh request. */
  lemma FreshParts(s: Session, req: Request)
    requires Fresh(s, req)
    ensures req.expectedRevision == s.revision && EpochsAgree(req) && (ChangesEpoch(req.drafts) || req.epoch == s.epoch)
    ensures Produced(s).Ok? && DraftCode(s, req.drafts).None? && EffectsCode(s, req.drafts, req.effects).None?
    ensures ReceiptsCode(s, req.drafts, req.receipts).None? && SimulatedReplay(s, req).Ok? && SimulatedOutbox(s, req).Ok?
  {
    hide Produced, DraftCode, EffectsCode, ReceiptsCode, SimulatedReplay, SimulatedOutbox, EpochsAgree, ChangesEpoch, ProtocolsMatch, FindEntry;
  }

  lemma {:induction false} DraftsNew(s: Session, drafts: seq<Draft>, i: nat)
    requires DraftCode(s, drafts).None? && i < |drafts|
    ensures drafts[i].sessionId == s.sessionId && drafts[i].eventId !in s.eventIds
    ensures forall k :: 0 <= k < i ==> drafts[k].eventId != drafts[i].eventId
    decreases |drafts|
  {
    if i < |drafts| - 1 {
      DraftsNew(s, drafts[..|drafts| - 1], i);
      assert forall k :: 0 <= k < |drafts| - 1 ==> drafts[..|drafts| - 1][k] == drafts[k];
    }
  }

  lemma IdsGrow(a: seq<Event>, ids: set<Id>, b: seq<Event>, more: set<Id>)
    requires DistinctIds(a, ids) && DistinctIds(b, more) && ids !! more
    ensures DistinctIds(a + b, ids + more)
  {
    forall id | id in ids + more ensures exists i :: 0 <= i < |a + b| && (a + b)[i].eventId == id {
      if id in ids {
        var i :| 0 <= i < |a| && a[i].eventId == id;
        assert (a + b)[i].eventId == id;
      } else {
        var i :| 0 <= i < |b| && b[i].eventId == id;
        assert (a + b)[|a| + i].eventId == id;
      }
    }
  }

  lemma BatchIds(s: Session, drafts: seq<Draft>)
    requires DraftCode(s, drafts).None?
    ensures DistinctIds(NewEvents(s, drafts), set id | id in DraftIds(drafts))
    ensures s.eventIds !! (set id | id in DraftIds(drafts))
  {
    hide DraftCode;
    forall i | 0 <= i < |drafts|
      ensures drafts[i].eventId !in s.eventIds && forall k :: 0 <= k < i ==> drafts[k].eventId != drafts[i].eventId
    {
      DraftsNew(s, drafts, i);
    }
    forall id | id in DraftIds(drafts) ensures exists i :: 0 <= i < |drafts| && NewEvents(s, drafts)[i].eventId == id {
      var i :| 0 <= i < |drafts| && DraftIds(drafts)[i] == id;
      assert NewEvents(s, drafts)[i] == EventOf(s, drafts[i], i);
    }
  }

  lemma KeepsNumbered(s: Session, req: Request)
    requires DraftCode(s, req.drafts).None? && Numbered(s)
    ensures Numbered(Apply(s, req))
  {
    BatchIds(s, req.drafts);
    IdsGrow(s.events, s.eventIds, NewEvents(s, req.drafts), set id | id in DraftIds(req.drafts));
    hide DraftCode, DistinctIds, NewReceipts, Bind;
  }

  lemma FoldLast(sessionId: Id, c: Cursor, events: seq<Event>)
    requires |events| > 0 && Fold(sessionId, c, events).Ok?
    ensures Fold(sessionId, c, events).value.revision == events[|events| - 1].revision
    ensures Fold(sessionId, c, events).value.epoch == events[|events| - 1].epoch
  {}

  /** The start epoch only has to fit the first event; from there on it makes no difference. */
  lemma {:induction false} FoldEpochStart(sessionId: Id, c: Cursor, events: seq<Event>, epoch: int)
    requires |events| > 0 && Fold(sessionId, c, events[..1]).Ok?
    requires if events[0].kind == EpochChanged then epoch < events[0].epoch else epoch == events[0].epoch
    ensures Fold(sessionId, c.(epoch := epoch), events) == Fold(sessionId, c, events)
  {
    if |events| == 1 {
      assert events[..1] == events && events[..0] == [];
    } else {
      assert events[..|events| - 1][..1] == events[..1];
      FoldEpochStart(sessionId, c, events[..|events| - 1], epoch);
    }
  }

  lemma FoldPrefixOk(sessionId: Id, c: Cursor, events: seq<Event>, k: nat)
    requires k <= |events| && Fold(sessionId, c, events).Ok?
    ensures Fold(sessionId, c, events[..k]).Ok?
  {
    if Fold(sessionId, c, events[..k]).Err? { Stuck(sessionId, c, events, k); }
  }

  /** A first batch replays from scratch to what it was simulated to. */
  lemma FirstBatchReplays(sessionId: Id, epoch: int, events: seq<Event>)
    requires |events| > 0 && events[0].sessionId == sessionId
    requires ReplayOf(events, Some(EmptyReplayState(sessionId, epoch))).Ok?
    ensures ReplayOf(events, None) == ReplayOf(events, Some(EmptyReplayState(sessionId, epoch)))
    ensures FirstEpoch(events[0]) == epoch || events[0].kind == EpochChanged
    ensures events[0].kind == EpochChanged ==> epoch < events[0].epoch
  {
    var c := Start(events, Some(EmptyReplayState(sessionId, epoch)));
    FoldPrefixOk(sessionId, c, events, 1);
    assert events[..1][..0] == [] && events[..1][0] == events[0];
    assert Step(sessionId, c, events[0]).Ok?;
    FoldEpochStart(sessionId, c, events, FirstEpoch(events[0]));
  }

  /** The journal with the new events replays to what the batch was simulated to. */
  lemma ReplaysAsSimulated(sessionId: Id, epoch: int, revision: int, events: seq<Event>, more: seq<Event>)
    requires |more| > 0 && more[0].sessionId == sessionId && ReplaysTo(sessionId, epoch, revision, events)
    requires ReplayOf(more, Some(JournalState(sessionId, epoch, events).value)).Ok?
    ensures ReplayOf(events + more, None) == ReplayOf(more, Some(JournalState(sessionId, epoch, events).value))
  {
    if |events| == 0 {
      assert events + more == more;
      FirstBatchReplays(sessionId, epoch, more);
    } else {
      ReplayResumes(events, more);
    }
  }

  /** Where a simulated batch ends. */
  lemma SimulatedEnd(state: ReplayState, more: seq<Event>)
    requires |more| > 0 && ReplayOf(more, Some(state)).Ok?
    requires state.lastSequence.Some? ==> state.lastSequence.value >= 0
    ensures var r := ReplayOf(more, Some(state)).value;
      && r.sessionId == state.sessionId && r.revision == more[|more| - 1].revision && r.epoch == more[|more| - 1].epoch
      && r.lastSequence == Some((if state.lastSequence.Some? then state.lastSequence.value else -1) + |more|)
  {
    FoldLast(state.sessionId, Start(more, Some(state)), more);
    FoldContiguous(state.sessionId, Start(more, Some(state)), more);
    hide Fold;
  }

  lemma ReplaysGrow(sessionId: Id, epoch: int, revision: int, events: seq<Event>, more: seq<Event>, epoch': int)
    requires |more| > 0 && more[0].sessionId == sessionId && more[|more| - 1].epoch == epoch'
    requires more[|more| - 1].revision == revision + 1 && ReplaysTo(sessionId, epoch, revision, events)
    requires ReplayOf(more, Some(JournalState(sessionId, epoch, events).value)).Ok?
    ensures ReplaysTo(sessionId, epoch', revision + 1, events + more)
  {
    hide ReplayOf;
    ReplaysAsSimulated(sessionId, epoch, revision, events, more);
    SimulatedEnd(JournalState(sessionId, epoch, events).value, more);
  }

  lemma KeepsReplays(s: Session, req: Request)
    requires Fresh(s, req) && Replays(s)
    ensures Replays(Apply(s, req))
  {
    FreshParts(s, req);
    DraftsNew(s, req.drafts, 0);
    hide Fresh, Refusal, FindEntry, ProtocolsMatch, DraftCode, EffectsCode, ReceiptsCode, SimulatedOutbox, NewReceipts, Bind, ReplayOf,
      ReplaysTo, JournalState;
    var more, last := NewEvents(s, req.drafts), |req.drafts| - 1;
    assert more[last] == EventOf(s, req.drafts[last], last) && req.drafts[last].epoch == req.epoch;
    assert more[0] == EventOf(s, req.drafts[0], 0);
    ReplaysGrow(s.sessionId, s.epoch, s.revision, s.events, more, req.epoch);
  }

  lemma {:induction false} IdsAppend(a: seq<Id>, b: seq<Id>)
    requires IdsCode(a).None? && IdsCode(b).None? && forall x :: x in b ==> x !in a
    ensures IdsCode(a + b).None?
  {
    if |b| == 0 {
      assert a + b == a;
    } else {
      var n := |b| - 1;
      assert (a + b)[..|a + b| - 1] == a + b[..n];
      assert b[n] in b;
      IdsAppend(a, b[..n]);
    }
  }

  lemma {:induction false} BindAppend(m: map<Id, Id>, a: seq<Effect>, b: seq<Effect>)
    ensures Bind(m, a + b) == Bind(Bind(m, a), b)
  {
    if |b| == 0 {
      assert a + b == a;
    } else {
      assert (a + b)[..|a + b| - 1] == a + b[..|b| - 1];
      BindAppend(m, a, b[..|b| - 1]);
    }
  }

  lemma {:induction false} BindKeys(effects: seq<Effect>, key: Id)
    ensures key in Bind(map[], effects) <==> key in Keys(effects)
    ensures key in Bind(map[], effects) ==> HasEffect(effects, Bind(map[], effects)[key])
  {
    if |effects| > 0 {
      var init, last := effects[..|effects| - 1], effects[|effects| - 1];
      BindKeys(init, key);
      assert Keys(effects) == Keys(init) + [last.idempotencyKey];
      assert effects[|effects| - 1].effectId == last.effectId;
      if key in Bind(map[], init) {
        var i :| 0 <= i < |init| && init[i].effectId == Bind(map[], init)[key];
        assert effects[i] == init[i];
      }
    }
  }

  lemma {:induction false} EffectsNew(s: Session, drafts: seq<Draft>, effects: seq<Effect>, e: Effect)
    requires EffectCode(s, drafts, effects).None? && e in effects
    ensures !HasEffect(s.effects, e.effectId) && IntendedCount(drafts, e.effectId) == 1
    ensures e.idempotencyKey in s.idempotency ==> s.idempotency[e.idempotencyKey] == e.effectId
    decreases |effects|
  {
    hide HasEffect, IntendedCount;
    if e != effects[|effects| - 1] {
      EffectsNew(s, drafts, effects[..|effects| - 1], e);
    }
  }

  lemma EffectsParts(s: Session, drafts: seq<Draft>, effects: seq<Effect>)
    requires EffectsCode(s, drafts, effects).None?
    ensures IdsCode(EffectIds(effects)).None? && IdsCode(Keys(effects)).None? && EffectCode(s, drafts, effects).None?
    ensures IntentionsCovered(drafts, effects)
  {
    hide IdsCode, EffectCode, IntentionsCovered;
  }

  lemma KeepsIdentified(s: Session, req: Request)
    requires EffectsCode(s, req.drafts, req.effects).None? && Identified(s)
    ensures Identified(Apply(s, req))
  {
    hide IdsCode, EffectsCode, EffectCode, NewReceipts, Bind, NewEvents, HasEffect, IntentionsCovered;
    EffectsParts(s, req.drafts, req.effects);
    var a, b := s.effects, req.effects;
    assert EffectIds(a + b) == EffectIds(a) + EffectIds(b);
    assert Keys(a + b) == Keys(a) + Keys(b);
    forall i | 0 <= i < |b| ensures b[i].effectId !in EffectIds(a) && b[i].idempotencyKey !in Keys(a) {
      EffectsNew(s, req.drafts, b, b[i]);
      BindKeys(a, b[i].idempotencyKey);
      IdsHave(a, b[i].effectId);
    }
    IdsAppend(EffectIds(a), EffectIds(b));
    IdsAppend(Keys(a), Keys(b));
    BindAppend(map[], a, b);
  }

  lemma IdsHave(effects: seq<Effect>, id: Id)
    ensures id in EffectIds(effects) <==> HasEffect(effects, id)
  {
    if HasEffect(effects, id) {
      var i :| 0 <= i < |effects| && effects[i].effectId == id;
      assert EffectIds(effects)[i] == id;
    }
  }

  lemma {:induction false} CountFinds(drafts: seq<Draft>, id: Id)
    requires IntendedCount(drafts, id) > 0
    ensures exists i :: 0 <= i < |drafts| && IntendsDraft(drafts[i], id)
  {
    if !IntendsDraft(drafts[|drafts| - 1], id) {
      CountFinds(drafts[..|drafts| - 1], id);
      var i :| 0 <= i < |drafts| - 1 && IntendsDraft(drafts[..|drafts| - 1][i], id);
      assert IntendsDraft(drafts[i], id);
    }
  }

  lemma KeepsIntended(s: Session, req: Request)
    requires EffectsCode(s, req.drafts, req.effects).None? && IntendedAll(s)
    ensures IntendedAll(Apply(s, req))
  {
    hide IdsCode, EffectsCode, EffectCode, NewReceipts, Bind, IntendedCount, IntentionsCovered;
    EffectsParts(s, req.drafts, req.effects);
    var t := Apply(s, req);
    forall e | e in t.effects ensures exists i :: 0 <= i < |t.events| && Intends(t.events[i], e.effectId) {
      if e in s.effects {
        var i :| 0 <= i < |s.events| && Intends(s.events[i], e.effectId);
        assert t.events[i] == s.events[i];
      } else {
        EffectsNew(s, req.drafts, req.effects, e);
        CountFinds(req.drafts, e.effectId);
        var i :| 0 <= i < |req.drafts| && IntendsDraft(req.drafts[i], e.effectId);
        assert t.events[|s.events| + i] == EventOf(s, req.drafts[i], i);
      }
    }
  }

  lemma ReceiptsParts(s: Session, drafts: seq<Draft>, receipts: seq<Receipt>)
    requires ReceiptsCode(s, drafts, receipts).None?
    ensures IdsCode(ReceiptIds(receipts)).None? && !NamelessReceipt(drafts) && ReceiptCode(s, drafts, receipts).None?
    ensures ReferencesCovered(s, drafts, receipts)
  {
    hide IdsCode, NamelessReceipt, ReceiptCode, ReferencesCovered;
  }

  lemma {:induction false} NewReceiptsAre(s: Session, drafts: seq<Draft>, receipts: seq<Receipt>)
    requires ReceiptCode(s, drafts, receipts).None?
    ensures forall r :: r in NewReceipts(s, receipts) ==> r in receipts && References(drafts, r.receiptId) && FindReceipt(s.receipts, r.receiptId).None?
    ensures forall r :: r in receipts ==> r in NewReceipts(s, receipts) || FindReceipt(s.receipts, r.receiptId).Some?
  {
    hide References, FindReceipt;
    if |receipts| > 0 {
      NewReceiptsAre(s, drafts, receipts[..|receipts| - 1]);
      assert receipts == receipts[..|receipts| - 1] + [receipts[|receipts| - 1]];
    }
  }

  lemma IdsLast(ids: seq<Id>)
    requires |ids| > 0 && IdsCode(ids).None?
    ensures IdsCode(ids[..|ids| - 1]).None? && IdsCode([ids[|ids| - 1]]).None?
  {
    assert [ids[|ids| - 1]][..0] == [];
  }

  lemma {:induction false} NewReceiptIds(s: Session, receipts: seq<Receipt>)
    requires IdsCode(ReceiptIds(receipts)).None?
    ensures IdsCode(ReceiptIds(NewReceipts(s, receipts))).None?
    ensures forall id :: id in ReceiptIds(NewReceipts(s, receipts)) ==> id in ReceiptIds(receipts)
  {
    hide FindReceipt, ValidId, IdsCode;
    var ids := ReceiptIds(receipts);
    if |receipts| > 0 {
      var init, last := receipts[..|receipts| - 1], receipts[|receipts| - 1];
      assert ids[..|init|] == ReceiptIds(init) && ids == ReceiptIds(init) + [last.receiptId];
      IdsDistinct(ids, |init|);
      IdsLast(ids);
      NewReceiptIds(s, init);
      var more := NewReceipts(s, init);
      if FindReceipt(s.receipts, last.receiptId).None? {
        assert NewReceipts(s, receipts) == more + [last];
        assert ReceiptIds(more + [last]) == ReceiptIds(more) + [last.receiptId];
        IdsAppend(ReceiptIds(more), [last.receiptId]);
      } else {
        assert NewReceipts(s, receipts) == more;
      }
    } else {
      assert ids == ReceiptIds(NewReceipts(s, receipts));
    }
  }

  lemma {:induction false} FindReceiptGrows(a: seq<Receipt>, b: seq<Receipt>, id: Id)
    ensures FindReceipt(a + b, id).Some? <==> FindReceipt(a, id).Some? || FindReceipt(b, id).Some?
  {
    FindReceiptIn(a, id);
    FindReceiptIn(b, id);
    FindReceiptIn(a + b, id);
  }

  lemma NamedGrows(events: seq<Event>, receipts: seq<Receipt>, s: Session, drafts: seq<Draft>, more: seq<Receipt>)
    requires Named(events, receipts) && forall r :: r in more ==> References(drafts, r.receiptId)
    ensures Named(events + NewEvents(s, drafts), receipts + more)
  {
    var all := events + NewEvents(s, drafts);
    forall r | r in receipts + more ensures exists i :: 0 <= i < |all| && NamesReceipt(all[i], r.receiptId) {
      if r in receipts {
        var i :| 0 <= i < |events| && NamesReceipt(events[i], r.receiptId);
        assert all[i] == events[i];
      } else {
        var i :| 0 <= i < |drafts| && IsReceiptEvent(drafts[i].kind) && drafts[i].payload.objectRef.Some?
          && drafts[i].payload.objectRef.value.id == r.receiptId;
        assert all[|events| + i] == EventOf(s, drafts[i], i);
      }
    }
  }

  /** A receipt event of the batch names a receipt that is committed with it or was before. */
  lemma DraftHolds(s: Session, req: Request, i: nat)
    requires i < |req.drafts| && !NamelessReceipt(req.drafts) && ReferencesCovered(s, req.drafts, req.receipts)
    requires forall r :: r in req.receipts ==> r in NewReceipts(s, req.receipts) || FindReceipt(s.receipts, r.receiptId).Some?
    ensures Holds(s.receipts + NewReceipts(s, req.receipts), EventOf(s, req.drafts[i], i))
  {
    hide FindReceipt, NewReceipts;
    var d, more := req.drafts[i], NewReceipts(s, req.receipts);
    if IsReceiptEvent(d.kind) {
      var id := d.payload.objectRef.value.id;
      FindReceiptGrows(s.receipts, more, id);
      FindReceiptIn(req.receipts, id);
      FindReceiptIn(more, id);
    }
  }

  lemma HoldsGrow(receipts: seq<Receipt>, more: seq<Receipt>, e: Event)
    requires Holds(receipts, e)
    ensures Holds(receipts + more, e)
  {
    if IsReceiptEvent(e.kind) { FindReceiptGrows(receipts, more, e.payload.objectRef.value.id); }
  }

  lemma AllHeld(s: Session, req: Request, events: seq<Event>, receipts: seq<Receipt>)
    requires ReceiptsCode(s, req.drafts, req.receipts).None?
    requires forall i :: 0 <= i < |events| ==> Holds(receipts, events[i])
    requires receipts == s.receipts
    ensures forall e :: e in events + NewEvents(s, req.drafts) ==> Holds(receipts + NewReceipts(s, req.receipts), e)
  {
    ReceiptsParts(s, req.drafts, req.receipts);
    NewReceiptsAre(s, req.drafts, req.receipts);
    hide ReceiptsCode, ReceiptCode, NewReceipts, FindReceipt, NamelessReceipt, ReferencesCovered, References, Holds;
    var more, all := NewReceipts(s, req.receipts), events + NewEvents(s, req.drafts);
    forall e | e in all ensures Holds(receipts + more, e) {
      var i :| 0 <= i < |all| && all[i] == e;
      if i < |events| {
        HoldsGrow(receipts, more, events[i]);
      } else {
        DraftHolds(s, req, i - |events|);
      }
    }
  }

  lemma EvidenceGrows(s: Session, req: Request)
    requires ReceiptsCode(s, req.drafts, req.receipts).None? && EvidenceOk(s.events, s.receipts)
    ensures EvidenceOk(s.events + NewEvents(s, req.drafts), s.receipts + NewReceipts(s, req.receipts))
  {
    ReceiptsParts(s, req.drafts, req.receipts);
    NewReceiptsAre(s, req.drafts, req.receipts);
    NewReceiptIds(s, req.receipts);
    AllHeld(s, req, s.events, s.receipts);
    hide ReceiptsCode, ReceiptCode, NewReceipts, IdsCode, Named, FindReceipt, NamelessReceipt, ReferencesCovered, References, Holds;
    var more := NewReceipts(s, req.receipts);
    EvidencedIds(s.receipts, more);
    NamedGrows(s.events, s.receipts, s, req.drafts, more);
  }

  lemma KeepsEvidenced(s: Session, req: Request)
    requires ReceiptsCode(s, req.drafts, req.receipts).None? && Evidenced(s)
    ensures Evidenced(Apply(s, req))
  {
    hide EvidenceOk, ReceiptsCode, NewReceipts, Bind;
    EvidenceGrows(s, req);
  }

  lemma EvidencedIds(a: seq<Receipt>, b: seq<Receipt>)
    requires IdsCode(ReceiptIds(a)).None? && IdsCode(ReceiptIds(b)).None?
    requires forall r :: r in b ==> FindReceipt(a, r.receiptId).None?
    ensures IdsCode(ReceiptIds(a + b)).None?
  {
    hide IdsCode;
    assert ReceiptIds(a + b) == ReceiptIds(a) + ReceiptIds(b);
    forall id | id in ReceiptIds(b) ensures id !in ReceiptIds(a) {
      var i :| 0 <= i < |b| && ReceiptIds(b)[i] == id;
      assert b[i] in b;
      FindReceiptIn(a, id);
      assert forall j :: 0 <= j < |a| ==> a[j] in a;
    }
    IdsAppend(ReceiptIds(a), ReceiptIds(b));
  }

  lemma KeepsIndexed(s: Session, req: Request)
    requires |req.drafts| > 0 && req.expectedRevision == s.revision == |s.requests|
    requires FindEntry(s.requests, req.requestId).None? && Indexed(s)
    ensures Indexed(Apply(s, req))
  {
    FindEntryIn(s.requests, req.requestId);
    hide NewReceipts, Bind, FindEntry;
    var t, n := Apply(s, req), |s.requests|;
    assert forall i :: 0 <= i < n ==> s.requests[i] in s.requests && t.requests[i] == s.requests[i];
    forall i | 0 <= i <= n ensures EntryAt(t, i) {
      if i < n { assert EntryAt(s, i); }
    }
  }

  /** A first batch is accepted, with the same result, whatever earlier epoch the empty session starts from. */
  lemma FirstCommit(s: Session, t: Session, req: Request)
    requires Fresh(s, req) && s == NewSession(s.sessionId, s.epoch, s.protocol)
    requires t == NewSession(s.sessionId, InitialEpoch(NewEvents(s, req.drafts), s.epoch), s.protocol)
    ensures Fresh(t, req)
    ensures Apply(t, req) == Apply(s, req)
  {
    FreshParts(s, req);
    DraftsNew(s, req.drafts, 0);
    var more := NewEvents(s, req.drafts);
    assert more[0] == EventOf(s, req.drafts[0], 0);
    FirstBatchReplays(s.sessionId, s.epoch, more);
    if t.epoch == s.epoch {
      assert t == s;
    } else {
      assert t == s.(epoch := req.drafts[0].epoch - 1);
      hide Fresh, Apply;
      SameStart(s, t, req);
    }
  }

  lemma SameStart(s: Session, t: Session, req: Request)
    requires Fresh(s, req) && s == NewSession(s.sessionId, s.epoch, s.protocol)
    requires req.drafts[0].kind == EpochChanged && t == s.(epoch := req.drafts[0].epoch - 1)
    ensures Fresh(t, req) && Apply(t, req) == Apply(s, req)
  {
    FreshParts(s, req);
    DraftsNew(s, req.drafts, 0);
    assert ChangesEpoch(req.drafts);
    var more := NewEvents(s, req.drafts);
    assert NewEvents(t, req.drafts) == more;
    FirstBatchReplays(s.sessionId, s.epoch, more);
    StartsAlike(s.sessionId, s.epoch, t.epoch, more);
    CodesAlike(s, t, req);
    hide SimulatedOutbox, DraftCode, EffectsCode, ReceiptsCode, ReplayOf;
  }

  lemma StartsAlike(sessionId: Id, epoch: int, other: int, events: seq<Event>)
    requires |events| > 0 && events[0].sessionId == sessionId && events[0].kind == EpochChanged && other < events[0].epoch
    requires ReplayOf(events, Some(EmptyReplayState(sessionId, epoch))).Ok?
    ensures ReplayOf(events, Some(EmptyReplayState(sessionId, other))) == ReplayOf(events, Some(EmptyReplayState(sessionId, epoch)))
  {
    var c := Start(events, Some(EmptyReplayState(sessionId, epoch)));
    FoldPrefixOk(sessionId, c, events, 1);
    FoldEpochStart(sessionId, c, events, other);
  }

  /** None of the identity checks looks at the epoch. */
  lemma {:induction false} CodesAlike(s: Session, t: Session, req: Request)
    requires t == s.(epoch := t.epoch)
    ensures DraftCode(t, req.drafts) == DraftCode(s, req.drafts)
    ensures EffectsCode(t, req.drafts, req.effects) == EffectsCode(s, req.drafts, req.effects)
    ensures ReceiptsCode(t, req.drafts, req.receipts) == ReceiptsCode(s, req.drafts, req.receipts)
    ensures SimulatedOutbox(t, req) == SimulatedOutbox(s, req) && NewReceipts(t, req.receipts) == NewReceipts(s, req.receipts)
  {
    DraftAlike(s, t, req.drafts);
    EffectAlike(s, t, req.drafts, req.effects);
    ReceiptAlike(s, t, req.drafts, req.receipts);
    assert NewEvents(t, req.drafts) == NewEvents(s, req.drafts);
  }

  lemma {:induction false} DraftAlike(s: Session, t: Session, drafts: seq<Draft>)
    requires t == s.(epoch := t.epoch)
    ensures DraftCode(t, drafts) == DraftCode(s, drafts)
  { if |drafts| > 0 { DraftAlike(s, t, drafts[..|drafts| - 1]); } }

  lemma {:induction false} EffectAlike(s: Session, t: Session, drafts: seq<Draft>, effects: seq<Effect>)
    requires t == s.(epoch := t.epoch)
    ensures EffectCode(t, drafts, effects) == EffectCode(s, drafts, effects)
  { if |effects| > 0 { EffectAlike(s, t, drafts, effects[..|effects| - 1]); } }

  lemma {:induction false} ReceiptAlike(s: Session, t: Session, drafts: seq<Draft>, receipts: seq<Receipt>)
    requires t == s.(epoch := t.epoch)
    ensures ReceiptCode(t, drafts, receipts) == ReceiptCode(s, drafts, receipts) && NewReceipts(t, receipts) == NewReceipts(s, receipts)
  { if |receipts| > 0 { ReceiptAlike(s, t, drafts, receipts[..|receipts| - 1]); } }

  /** Whether a request is accepted and what it does never depends on the session id it is addressed with. */
  lemma SameAddressed(s: Session, req: Request)
    requires Fresh(s, req)
    ensures CommitTo(s, req.(sessionId := s.sessionId)) == Ok((Apply(s, req), OutcomeOf(s, req)))
  {
    var r := req.(sessionId := s.sessionId);
    SameRefusal(s, req);
    FreshNonempty(s, req);
    hide Refusal, FindEntry, NewReceipts, Bind, NewEvents, Fresh, EntryAt;
    assert Apply(s, r) == Apply(s, req);
    assert ProtocolsMatch(s.protocol, r) by { FreshProtocols(s, req); }
  }

  lemma FreshProtocols(s: Session, req: Request)
    requires Fresh(s, req)
    ensures ProtocolsMatch(s.protocol, req) && Refusal(s, req).None?
  {
    hide ProtocolsMatch, Refusal;
  }

  lemma SameRefusal(s: Session, req: Request)
    requires Fresh(s, req)
    ensures Refusal(s, req.(sessionId := s.sessionId)) == None
  {
    FreshParts(s, req);
    hide SimulatedReplay, SimulatedOutbox, DraftCode, EffectsCode, ReceiptsCode, Produced, ChangesEpoch, Fresh;
    SameSimulated(s, req);
  }

  lemma SameSimulated(s: Session, req: Request)
    ensures SimulatedReplay(s, req.(sessionId := s.sessionId)) == SimulatedReplay(s, req)
    ensures SimulatedOutbox(s, req.(sessionId := s.sessionId)) == SimulatedOutbox(s, req)
  {
    hide ReplayOf, OutboxOf, NewEvents, NewReceipts, Produced;
  }

  lemma RerunMore(base: Session, reqs: seq<Request>, s: Session, req: Request)
    requires Rerun(base, reqs) == Ok(s) && CommitTo(s, req).Ok?
    ensures Rerun(base, reqs + [req]) == Ok(CommitTo(s, req).value.0)
  {
    assert (reqs + [req])[..|reqs|] == reqs;
    hide CommitTo;
  }

  lemma KeepsRebuilds(s: Session, req: Request)
    requires Fresh(s, req) && Indexed(s) && Rebuilds(s)
    ensures Rebuilds(Apply(s, req))
  {
    hide Fresh, CommitTo, Indexed;
    var t, r := Apply(s, req), req.(sessionId := s.sessionId);
    var base := NewSession(t.sessionId, InitialEpoch(t.events, t.epoch), t.protocol);
    assert Requests(t.requests) == Requests(s.requests) + [r];
    if |s.events| > 0 {
      SameAddressed(s, req);
      assert t.events[0] == s.events[0];
      RerunMore(base, Requests(s.requests), s, r);
    } else {
      EmptyIndexed(s);
      assert s == NewSession(s.sessionId, s.epoch, s.protocol);
      FreshNonempty(s, req);
      assert t.events == NewEvents(s, req.drafts);
      FirstCommit(s, base, req);
      SameAddressed(base, req);
      assert Requests(s.requests) == [];
      RerunMore(base, [], base, r);
    }
  }

  lemma EmptyIndexed(s: Session)
    requires Indexed(s)
    ensures |s.events| == 0 ==> |s.requests| == 0
  {}

  lemma FreshNonempty(s: Session, req: Request)
    requires Fresh(s, req)
    ensures |req.drafts| > 0 && FindEntry(s.requests, req.requestId).None? && req.expectedRevision == s.revision
  {
    hide Produced, DraftCode, EffectsCode, ReceiptsCode, SimulatedReplay, SimulatedOutbox, EpochsAgree, ChangesEpoch, ProtocolsMatch, FindEntry;
  }

  lemma KeepsProjects(s: Session, req: Request)
    requires Fresh(s, req)
    ensures Projects(Apply(s, req))
  {
    FreshParts(s, req);
    hide OutboxOf, NewReceipts, NewEvents, Bind;
  }

  lemma RevisionCounts(s: Session)
    requires Numbered(s)
    ensures s.revision == |s.requests|
  {}

  lemma EnteredStays(events: seq<Event>, requests: seq<Entry>, more: seq<Event>, entry: Entry, k: nat, i: nat)
    requires k < |requests| && i < |requests[k].request.drafts| && Entered(events, requests, k, i)
    ensures Entered(events + more, requests + [entry], k, i)
  {
    hide From;
    DraftsBeforeGrows(requests, [entry], k);
  }

  lemma JournalledGrows(events: seq<Event>, requests: seq<Entry>, more: seq<Event>, entry: Entry)
    requires Journalled(events, requests) && |more| == |entry.request.drafts|
    requires forall i :: 0 <= i < |more| ==>
      From(more[i], entry.request.drafts[i]) && more[i].sequence == |events| + i && more[i].revision == |requests| + 1
    ensures Journalled(events + more, requests + [entry])
  {
    hide From;
    var n, all := |requests|, requests + [entry];
    DraftsBeforeGrows(requests, [entry], n);
    assert DraftsBefore(all, n + 1) == DraftsBefore(all, n) + |more|;
    forall k, i | 0 <= k <= n && 0 <= i < |all[k].request.drafts| ensures Entered(events + more, all, k, i) {
      if k < n {
        assert Entered(events, requests, k, i);
        EnteredStays(events, requests, more, entry, k, i);
      } else {
        assert (events + more)[|events| + i] == more[i];
      }
    }
  }

  lemma KeepsJournalled(s: Session, req: Request)
    requires Journalled(s.events, s.requests) && Numbered(s) && DraftCode(s, req.drafts).None?
    ensures Journalled(Apply(s, req).events, Apply(s, req).requests)
  {
    var entry := Entry(req.(sessionId := s.sessionId), OutcomeOf(s, req));
    forall i | 0 <= i < |req.drafts| ensures req.drafts[i].sessionId == s.sessionId { DraftsNew(s, req.drafts, i); }
    hide NewReceipts, Bind, Journalled, OutcomeOf, DistinctIds, DraftCode;
    JournalledGrows(s.events, s.requests, NewEvents(s, req.drafts), entry);
  }

  /** An accepted fresh request keeps every clause of the invariant. */
  lemma ApplyKeepsSound(s: Session, req: Request)
    requires Fresh(s, req) && Sound(s)
    ensures Sound(Apply(s, req))
  {
    hide Fresh, Numbered, Replays, Projects, Identified, IntendedAll, Evidenced, Indexed, Journalled, Apply;
    FreshParts(s, req);
    FreshNonempty(s, req);
    RevisionCounts(s);
    KeepsNumbered(s, req);
    KeepsReplays(s, req);
    KeepsProjects(s, req);
    KeepsIdentified(s, req);
    KeepsIntended(s, req);
    KeepsEvidenced(s, req);
    KeepsIndexed(s, req);
    KeepsJournalled(s, req);
  }

  lemma SoundIndexed(s: Session)
    requires Sound(s)
    ensures Indexed(s)
  {
    hide Indexed, Numbered, Replays, Projects, Identified, IntendedAll, Evidenced, Journalled;
  }

  /** What an accepted request did: nothing if it was stored before, else it is fresh and was applied. */
  lemma CommitCases(s: Session, req: Request)
    requires CommitTo(s, req).Ok?
    ensures FindEntry(s.requests, req.requestId).None? ==> Fresh(s, req) && CommitTo(s, req) == Ok((Apply(s, req), OutcomeOf(s, req)))
    ensures FindEntry(s.requests, req.requestId).Some? ==>
      var e := FindEntry(s.requests, req.requestId).value;
      e.request == req.(sessionId := s.sessionId) && CommitTo(s, req) == Ok((s, e.outcome.(disposition := Duplicate)))
  {
    hide Refusal, ProtocolsMatch, FindEntry, Apply, OutcomeOf;
  }

  /** Whatever the answer, the invariant is kept; a refusal or a repetition changes nothing. */
  lemma CommitKeepsSound(s: Session, req: Request)
    requires Sound(s) && CommitTo(s, req).Ok?
    ensures Sound(CommitTo(s, req).value.0)
  {
    CommitCases(s, req);
    hide Sound, Fresh, FindEntry, Apply, CommitTo;
    if FindEntry(s.requests, req.requestId).None? { ApplyKeepsSound(s, req); }
  }

  lemma CommitKeepsInv(s: Session, req: Request)
    requires Inv(s) && CommitTo(s, req).Ok?
    ensures Inv(CommitTo(s, req).value.0)
  {
    CommitCases(s, req);
    hide Sound, Rebuilds, Fresh, FindEntry, Apply, CommitTo, Indexed;
    CommitKeepsSound(s, req);
    SoundIndexed(s);
    if FindEntry(s.requests, req.requestId).None? { KeepsRebuilds(s, req); }
  }

  lemma EmptyInv(sessionId: Id, epoch: int, protocol: string)
    ensures Inv(NewSession(sessionId, epoch, protocol))
  {}

  lemma {:induction false} RunKeepsSound(s: Session, reqs: seq<Request>)
    requires Sound(s)
    ensures Sound(RunAll(s, reqs))
  {
    if |reqs| > 0 {
      RunKeepsSound(s, reqs[..|reqs| - 1]);
      hide Sound, CommitTo;
      var t := RunAll(s, reqs[..|reqs| - 1]);
      if CommitTo(t, reqs[|reqs| - 1]).Ok? { CommitKeepsSound(t, reqs[|reqs| - 1]); }
    }
  }

  lemma {:induction false} RunKeepsInv(s: Session, reqs: seq<Request>)
    requires Inv(s)
    ensures Inv(RunAll(s, reqs))
  {
    if |reqs| > 0 {
      RunKeepsInv(s, reqs[..|reqs| - 1]);
      hide Inv, CommitTo;
      var t := RunAll(s, reqs[..|reqs| - 1]);
      if CommitTo(t, reqs[|reqs| - 1]).Ok? { CommitKeepsInv(t, reqs[|reqs| - 1]); }
    }
  }

  /** Every session reached from an empty one by any requests, accepted or not, satisfies the invariant. */
  lemma RunInv(sessionId: Id, epoch: int, protocol: string, reqs: seq<Request>)
    ensures Inv(RunAll(NewSession(sessionId, epoch, protocol), reqs))
  {
    EmptyInv(sessionId, epoch, protocol);
    RunKeepsInv(NewSession(sessionId, epoch, protocol), reqs);
  }

  /** What an accepted request carried and was checked for. */
  lemma CommitSends(s: Session, req: Request)
    requires CommitTo(s, req).Ok?
    ensures |req.drafts| > 0 && ProtocolsMatch(s.protocol, req)
    ensures CommitTo(s, req).value.0.sessionId == s.sessionId && CommitTo(s, req).value.0.protocol == s.protocol
  {
    hide ProtocolsMatch, Refusal, FindEntry, NewReceipts, Bind;
  }

  // ---- what the invariant says to a reader ---------------------------------------------------------------

  ghost predicate Extends(s: Session, t: Session) {
    && t.sessionId == s.sessionId && t.protocol == s.protocol && s.events <= t.events && s.effects <= t.effects
    && s.receipts <= t.receipts && s.requests <= t.requests && s.revision <= t.revision
  }

  /** A run only ever appends: what was committed stays, in place. */
  lemma {:induction false} RunExtends(s: Session, reqs: seq<Request>)
    ensures Extends(s, RunAll(s, reqs))
  {
    if |reqs| > 0 {
      var t := RunAll(s, reqs[..|reqs| - 1]);
      RunExtends(s, reqs[..|reqs| - 1]);
      hide Refusal, ProtocolsMatch, FindEntry, NewReceipts, Bind;
    }
  }

  lemma {:induction false} FindEntryAt(requests: seq<Entry>, i: nat)
    requires i < |requests| && forall j, k :: 0 <= j < k < |requests| ==> requests[j].request.requestId != requests[k].request.requestId
    ensures FindEntry(requests, requests[i].request.requestId) == Some(requests[i])
  {
    if i < |requests| - 1 { FindEntryAt(requests[..|requests| - 1], i); }
  }

  /** The entry an accepted request is remembered by. */
  lemma Remembered(s: Session, req: Request)
    requires CommitTo(s, req).Ok?
    ensures var t := CommitTo(s, req).value.0;
      exists e :: e in t.requests && e.request == req.(sessionId := s.sessionId)
        && e.outcome.(disposition := Duplicate) == CommitTo(s, req).value.1.(disposition := Duplicate)
  {
    hide Refusal, ProtocolsMatch, NewReceipts, Bind, NewEvents, FindEntry;
    FindEntryIn(s.requests, req.requestId);
    if FindEntry(s.requests, req.requestId).Some? {
      var e := FindEntry(s.requests, req.requestId).value;
      assert e in s.requests;
    } else {
      var e := Entry(req.(sessionId := s.sessionId), OutcomeOf(s, req));
      assert e in Apply(s, req).requests;
    }
  }

  lemma Resent(u: Session, req: Request, e: Entry)
    requires |req.drafts| > 0 && ProtocolsMatch(u.protocol, req) && Indexed(u)
    requires e in u.requests && e.request == req.(sessionId := u.sessionId)
    ensures CommitTo(u, req) == Ok((u, e.outcome.(disposition := Duplicate)))
  {
    var i :| 0 <= i < |u.requests| && u.requests[i] == e;
    FindEntryAt(u.requests, i);
    hide Indexed, Refusal, FindEntry, ProtocolsMatch;
  }

  /** Sending a committed request again answers with the stored outcome and changes nothing, however much later. */
  lemma Idempotent(s: Session, req: Request, later: seq<Request>)
    requires Sound(s) && CommitTo(s, req).Ok?
    ensures var u := RunAll(CommitTo(s, req).value.0, later);
      CommitTo(u, req) == Ok((u, CommitTo(s, req).value.1.(disposition := Duplicate)))
  {
    hide Sound, RunAll, CommitTo, ProtocolsMatch, Indexed;
    var t := CommitTo(s, req).value.0;
    Remembered(s, req);
    var e :| e in t.requests && e.request == req.(sessionId := s.sessionId)
      && e.outcome.(disposition := Duplicate) == CommitTo(s, req).value.1.(disposition := Duplicate);
    CommitKeepsSound(s, req);
    CommitSends(s, req);
    RunExtends(t, later);
    RunKeepsSound(t, later);
    var u := RunAll(t, later);
    SoundIndexed(u);
    assert e in u.requests;
    Resent(u, req, e);
  }

  /** Effects and `effect.intended` events pair off one to one. */
  lemma IntentionsPair(s: Session, id: Id)
    requires Sound(s)
    ensures HasEffect(s.effects, id) <==> exists i :: 0 <= i < |s.events| && Intends(s.events[i], id)
    ensures forall i, j :: 0 <= i < j < |s.events| && Intends(s.events[i], id) ==> !Intends(s.events[j], id)
  {
    hide Numbered, Replays, Identified, Evidenced, Indexed, Journalled, Intends, OutboxOf;
    IntentionHistory(s.events, s.effects, s.receipts, id);
    DispatchHistory(s.events, s.effects, s.receipts, id);
    if HasEffect(s.effects, id) {
      var i :| 0 <= i < |s.effects| && s.effects[i].effectId == id;
      assert s.effects[i] in s.effects;
    }
  }

  /** No two effects share an id or a delivery key. */
  lemma EffectsApart(s: Session, i: nat, j: nat)
    requires Sound(s) && i < j < |s.effects|
    ensures s.effects[i].effectId != s.effects[j].effectId && s.effects[i].idempotencyKey != s.effects[j].idempotencyKey
  {
    hide Numbered, Replays, Projects, Evidenced, Indexed, Journalled, IntendedAll, IdsCode, Bind;
    IdsDistinct(EffectIds(s.effects), j);
    IdsDistinct(Keys(s.effects), j);
    assert EffectIds(s.effects)[..j][i] == s.effects[i].effectId;
    assert Keys(s.effects)[..j][i] == s.effects[i].idempotencyKey;
  }
}
