/** What a session holds, said by the requests that were accepted: its events, effects, receipts and stored outcomes. */
module Journals {
  import opened Options
  import opened JournalTypes
  import opened Commit
  import opened Sessions

  // ---- events -----------------------------------------------------------------------------------------------------------

  /**
   * The journal of every reachable session is the drafts of its stored requests, one request after another: draft `i` of
   * request `k` is the event whose sequence is its turn and whose revision is the number of its request plus one.
   */
  lemma JournalIsDrafts(sessionId: Id, epoch: int, protocol: string, reqs: seq<Request>, k: nat, i: nat)
    requires var s := RunAll(NewSession(sessionId, epoch, protocol), reqs); k < |s.requests| && i < |s.requests[k].request.drafts|
    ensures var s := RunAll(NewSession(sessionId, epoch, protocol), reqs);
      var j, d := DraftsBefore(s.requests, k) + i, s.requests[k].request.drafts[i];
      && j < |s.events| && |s.events| == DraftsBefore(s.requests, |s.requests|)
      && s.events[j] == Event(d.protocol, d.eventId, j, d.sessionId, k + 1, d.epoch, d.causedBy, d.kind, d.payload, d.visibility)
  {
    var s := RunAll(NewSession(sessionId, epoch, protocol), reqs);
    RunInv(sessionId, epoch, protocol, reqs);
    hide Inv, RunAll, DraftsBefore;
    InvJournalled(s);
    assert Entered(s.events, s.requests, k, i);
  }

  lemma InvJournalled(s: Session)
    requires Inv(s)
    ensures Sound(s) && Journalled(s.events, s.requests)
  {
    hide Numbered, Replays, Projects, Identified, IntendedAll, Evidenced, Indexed, Rebuilds, Journalled;
  }

  /** Every event is one draft's. */
  lemma {:induction false} TurnOf(requests: seq<Entry>, n: nat, j: nat) returns (k: nat, i: nat)
    requires n <= |requests| && j < DraftsBefore(requests, n)
    ensures k < n && i < |requests[k].request.drafts| && j == DraftsBefore(requests, k) + i
  {
    if j < DraftsBefore(requests, n - 1) {
      k, i := TurnOf(requests, n - 1, j);
    } else {
      k, i := n - 1, j - DraftsBefore(requests, n - 1);
    }
  }

  // ---- effects, receipts and outcomes ----------------------------------------------------------------------------------

  function EffectsOf(requests: seq<Entry>): seq<Effect> {
    if |requests| == 0 then [] else EffectsOf(requests[..|requests| - 1]) + requests[|requests| - 1].request.effects
  }

  ghost predicate CarriedBy(requests: seq<Entry>, r: Receipt) { exists k :: 0 <= k < |requests| && r in requests[k].request.receipts }

  /** What a stored outcome answers: the request's own ids, in order, at the number it was committed as. */
  predicate Answers(e: Entry, sessionId: Id, k: nat) {
    && e.outcome.disposition == Committed && e.outcome.sessionId == sessionId && e.outcome.revision == k + 1
    && |e.outcome.eventIds| == |e.request.drafts| && |e.outcome.effectIds| == |e.request.effects|
    && (forall i :: 0 <= i < |e.request.drafts| ==> e.outcome.eventIds[i] == e.request.drafts[i].eventId)
    && (forall i :: 0 <= i < |e.request.effects| ==> e.outcome.effectIds[i] == e.request.effects[i].effectId)
  }

  ghost predicate Contents(s: Session) {
    && s.effects == EffectsOf(s.requests)
    && (forall r :: r in s.receipts <==> CarriedBy(s.requests, r))
    && (forall k :: 0 <= k < |s.requests| ==> Answers(s.requests[k], s.sessionId, k))
  }

  /** The new receipts of a batch are those whose id is not stored, in their order. */
  lemma {:induction false} NewReceiptsPick(s: Session, receipts: seq<Receipt>, k: nat)
    requires k < |receipts|
    ensures FindReceipt(s.receipts, receipts[k].receiptId).None? ==>
      var at := |NewReceipts(s, receipts[..k])|;
      at < |NewReceipts(s, receipts)| && NewReceipts(s, receipts)[at] == receipts[k]
    ensures FindReceipt(s.receipts, receipts[k].receiptId).Some? ==> |NewReceipts(s, receipts[..k + 1])| == |NewReceipts(s, receipts[..k])|
  {
    hide FindReceipt;
    assert receipts[..k + 1][..k] == receipts[..k];
    if k < |receipts| - 1 {
      NewReceiptsPick(s, receipts[..|receipts| - 1], k);
      assert receipts[..|receipts| - 1][..k] == receipts[..k];
    } else {
      assert receipts[..k + 1] == receipts;
    }
  }

  lemma {:induction false} NewReceiptIff(s: Session, drafts: seq<Draft>, receipts: seq<Receipt>, r: Receipt)
    requires ReceiptCode(s, drafts, receipts).None?
    ensures r in NewReceipts(s, receipts) ==> r in receipts
    ensures r in receipts ==> r in NewReceipts(s, receipts) || r in s.receipts
  {
    if |receipts| > 0 {
      var init, last := receipts[..|receipts| - 1], receipts[|receipts| - 1];
      NewReceiptIff(s, drafts, init, r);
      FindReceiptIn(s.receipts, last.receiptId);
      assert receipts == init + [last];
      hide FindReceipt, References;
    }
  }

  lemma CarriedGrows(requests: seq<Entry>, e: Entry, r: Receipt)
    ensures CarriedBy(requests + [e], r) <==> CarriedBy(requests, r) || r in e.request.receipts
  {
    var all := requests + [e];
    if r in e.request.receipts { assert r in all[|requests|].request.receipts; }
    if CarriedBy(requests, r) {
      var k :| 0 <= k < |requests| && r in requests[k].request.receipts;
      assert r in all[k].request.receipts;
    }
  }

  lemma ReceiptsCarried(s: Session, req: Request, e: Entry, r: Receipt)
    requires (r in s.receipts <==> CarriedBy(s.requests, r)) && ReceiptCode(s, req.drafts, req.receipts).None?
    requires e.request.receipts == req.receipts
    ensures r in s.receipts + NewReceipts(s, req.receipts) <==> CarriedBy(s.requests + [e], r)
  {
    NewReceiptIff(s, req.drafts, req.receipts, r);
    CarriedGrows(s.requests, e, r);
    hide CarriedBy, NewReceipts, ReceiptCode;
  }

  lemma NewAnswers(s: Session, req: Request)
    requires s.revision >= 0
    ensures Answers(Entry(req.(sessionId := s.sessionId), OutcomeOf(s, req)), s.sessionId, s.revision)
  {}

  lemma ApplyKeepsContents(s: Session, req: Request)
    requires Contents(s) && ReceiptCode(s, req.drafts, req.receipts).None? && s.revision == |s.requests|
    ensures Contents(Apply(s, req))
  {
    hide ReceiptCode, Bind, NewEvents, CarriedBy, NewReceipts, ChangesEpoch, OutcomeOf, Answers;
    var t, e := Apply(s, req), Entry(req.(sessionId := s.sessionId), OutcomeOf(s, req));
    assert t.requests == s.requests + [e] && t.requests[..|t.requests| - 1] == s.requests;
    forall r ensures r in t.receipts <==> CarriedBy(t.requests, r) { ReceiptsCarried(s, req, e, r); }
    NewAnswers(s, req);
  }

  lemma FreshReceipts(s: Session, req: Request)
    requires Fresh(s, req)
    ensures ReceiptCode(s, req.drafts, req.receipts).None?
  {
    FreshParts(s, req);
    ReceiptsParts(s, req.drafts, req.receipts);
    hide Fresh, DraftCode, EffectsCode, ReceiptsCode, ReceiptCode, SimulatedReplay, SimulatedOutbox, Produced;
  }

  lemma CommitKeepsContents(s: Session, req: Request)
    requires Contents(s) && Sound(s) && CommitTo(s, req).Ok?
    ensures Contents(CommitTo(s, req).value.0)
  {
    CommitCases(s, req);
    RevisionOf(s);
    hide Contents, Sound, CommitTo, Fresh, FindEntry, Apply;
    if FindEntry(s.requests, req.requestId).None? {
      FreshReceipts(s, req);
      ApplyKeepsContents(s, req);
    }
  }

  lemma RevisionOf(s: Session)
    requires Sound(s)
    ensures s.revision == |s.requests|
  {
    hide Replays, Projects, Identified, IntendedAll, Evidenced, Indexed, Journalled, DistinctIds;
  }

  /**
   * Every reachable session holds exactly the effects of its stored requests, in their order, exactly the receipts they
   * carry, and for each request an outcome that lists its own events and effects.
   */
  lemma {:induction false} RunContents(sessionId: Id, epoch: int, protocol: string, reqs: seq<Request>)
    ensures Contents(RunAll(NewSession(sessionId, epoch, protocol), reqs))
  {
    var start := NewSession(sessionId, epoch, protocol);
    if |reqs| > 0 {
      var n := |reqs| - 1;
      RunContents(sessionId, epoch, protocol, reqs[..n]);
      RunInv(sessionId, epoch, protocol, reqs[..n]);
      var before := RunAll(start, reqs[..n]);
      InvJournalled(before);
      hide Contents, Inv, Sound, CommitTo;
      if CommitTo(before, reqs[n]).Ok? { CommitKeepsContents(before, reqs[n]); }
    }
  }
}
