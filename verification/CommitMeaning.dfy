/** When a request is accepted and what it is refused with, element by element. */
module CommitMeaning {
  import opened Options
  import opened JournalTypes
  import opened Replay
  import opened ReplayMeaning
  import opened Commit
  import opened Sessions
  import OutboxMeaning

  // ---- identities -----------------------------------------------------------------------------------------------------------

  predicate RepeatedAt(ids: seq<Id>, i: nat)
    requires i < |ids|
  {
    exists k :: 0 <= k < i && ids[k] == ids[i]
  }

  predicate BadId(ids: seq<Id>, i: nat)
    requires i < |ids|
  {
    !ValidId(ids[i]) || RepeatedAt(ids, i)
  }

  lemma BadIdBefore(ids: seq<Id>, n: nat, i: nat)
    requires i < n <= |ids|
    ensures BadId(ids[..n], i) <==> BadId(ids, i)
  {
    hide ValidId;
    assert forall k :: 0 <= k < i ==> ids[..n][k] == ids[k];
  }

  lemma IdsLast(ids: seq<Id>)
    requires |ids| > 0
    ensures var n := |ids| - 1;
      IdsCode(ids) == Then(IdsCode(ids[..n]), if !BadId(ids, n) then None else Some(if !ValidId(ids[n]) then SchemaInvalid else IdempotencyCollision))
  {
    hide ValidId;
    assert RepeatedAt(ids, |ids| - 1) <==> ids[|ids| - 1] in ids[..|ids| - 1];
  }

  predicate FirstBadId(ids: seq<Id>, i: nat)
    requires i < |ids|
  {
    BadId(ids, i) && forall k :: 0 <= k < i ==> !BadId(ids, k)
  }

  lemma FirstBadBefore(ids: seq<Id>, n: nat, i: nat)
    requires i < n <= |ids|
    ensures FirstBadId(ids[..n], i) <==> FirstBadId(ids, i)
  {
    forall k | 0 <= k <= i ensures BadId(ids[..n], k) <==> BadId(ids, k) { BadIdBefore(ids, n, k); }
    hide BadId;
  }

  /** The first id that breaks the grammar or repeats decides. */
  lemma {:induction false} IdsFirst(ids: seq<Id>)
    ensures IdsCode(ids).None? <==> forall i :: 0 <= i < |ids| ==> !BadId(ids, i)
    ensures forall i :: 0 <= i < |ids| && FirstBadId(ids, i) ==> IdsCode(ids) == Some(if !ValidId(ids[i]) then SchemaInvalid else IdempotencyCollision)
  {
    if |ids| > 0 {
      var n := |ids| - 1;
      IdsFirst(ids[..n]);
      IdsLast(ids);
      hide BadId, IdsCode, ValidId;
      forall i | 0 <= i < n ensures BadId(ids, i) <==> BadId(ids[..n], i) { BadIdBefore(ids, n, i); }
      forall i | 0 <= i < |ids| && FirstBadId(ids, i)
        ensures IdsCode(ids) == Some(if !ValidId(ids[i]) then SchemaInvalid else IdempotencyCollision)
      {
        if i < n {
          FirstBadBefore(ids, n, i);
          assert ids[..n][i] == ids[i];
        }
      }
    }
  }

  // ---- drafts ----------------------------------------------------------------------------------------------------------------

  predicate ReusedId(s: Session, drafts: seq<Draft>, i: nat)
    requires i < |drafts|
  {
    drafts[i].eventId in s.eventIds || exists k :: 0 <= k < i && drafts[k].eventId == drafts[i].eventId
  }

  predicate Placed(d: Draft) { d.sequence.Some? || d.revision.Some? }

  predicate BadDraft(s: Session, drafts: seq<Draft>, i: nat)
    requires i < |drafts|
  {
    drafts[i].sessionId != s.sessionId || Placed(drafts[i]) || ReusedId(s, drafts, i)
  }

  lemma BadDraftBefore(s: Session, drafts: seq<Draft>, n: nat, i: nat)
    requires i < n <= |drafts|
    ensures BadDraft(s, drafts[..n], i) <==> BadDraft(s, drafts, i)
  {
    assert forall k :: 0 <= k < i ==> drafts[..n][k] == drafts[k];
  }

  function DraftFault(s: Session, d: Draft): Code {
    if d.sessionId != s.sessionId then InvariantViolation else if Placed(d) then SchemaInvalid else IdempotencyCollision
  }

  lemma DraftsLast(s: Session, drafts: seq<Draft>)
    requires |drafts| > 0
    ensures var n := |drafts| - 1;
      DraftCode(s, drafts) == Then(DraftCode(s, drafts[..n]), if !BadDraft(s, drafts, n) then None else Some(DraftFault(s, drafts[n])))
  {}

  /** The first draft of another session, with a place of its own or with a used id decides. */
  lemma {:induction false} DraftsFirst(s: Session, drafts: seq<Draft>)
    ensures DraftCode(s, drafts).None? <==> forall i :: 0 <= i < |drafts| ==> !BadDraft(s, drafts, i)
    ensures forall i :: 0 <= i < |drafts| && BadDraft(s, drafts, i) && (forall k :: 0 <= k < i ==> !BadDraft(s, drafts, k)) ==>
      DraftCode(s, drafts) == Some(if drafts[i].sessionId != s.sessionId then InvariantViolation
                                   else if Placed(drafts[i]) then SchemaInvalid else IdempotencyCollision)
  {
    if |drafts| > 0 {
      var n := |drafts| - 1;
      DraftsFirst(s, drafts[..n]);
      DraftsLast(s, drafts);
      hide BadDraft, DraftCode, Placed;
      forall i | 0 <= i < n ensures BadDraft(s, drafts, i) <==> BadDraft(s, drafts[..n], i) { BadDraftBefore(s, drafts, n, i); }
    }
  }

  // ---- effects ---------------------------------------------------------------------------------------------------------------

  /** Exactly one draft intends the effect. */
  ghost predicate IntendedOnce(drafts: seq<Draft>, id: Id) {
    exists i :: 0 <= i < |drafts| && IntendsDraft(drafts[i], id) && forall j :: 0 <= j < |drafts| && j != i ==> !IntendsDraft(drafts[j], id)
  }

  predicate NeverIntended(drafts: seq<Draft>, id: Id) { forall i :: 0 <= i < |drafts| ==> !IntendsDraft(drafts[i], id) }

  lemma {:induction false} CountNone(drafts: seq<Draft>, id: Id)
    ensures IntendedCount(drafts, id) == 0 <==> NeverIntended(drafts, id)
  {
    hide IntendsDraft;
    if |drafts| > 0 {
      var n := |drafts| - 1;
      CountNone(drafts[..n], id);
      assert forall i :: 0 <= i < n ==> drafts[..n][i] == drafts[i];
    }
  }

  lemma OnceMore(drafts: seq<Draft>, id: Id)
    requires |drafts| > 0
    ensures var n := |drafts| - 1;
      IntendedOnce(drafts, id) <==> if IntendsDraft(drafts[n], id) then NeverIntended(drafts[..n], id) else IntendedOnce(drafts[..n], id)
  {
    hide IntendsDraft;
    var n := |drafts| - 1;
    var init := drafts[..n];
    assert forall i :: 0 <= i < n ==> init[i] == drafts[i];
    if IntendedOnce(init, id) && !IntendsDraft(drafts[n], id) {
      var i :| 0 <= i < n && IntendsDraft(init[i], id) && forall j :: 0 <= j < n && j != i ==> !IntendsDraft(init[j], id);
      assert IntendsDraft(drafts[i], id);
    }
    if IntendedOnce(drafts, id) {
      var i :| 0 <= i < |drafts| && IntendsDraft(drafts[i], id) && forall j :: 0 <= j < |drafts| && j != i ==> !IntendsDraft(drafts[j], id);
      if i < n { assert IntendsDraft(init[i], id); }
    }
  }

  lemma {:induction false} CountOnce(drafts: seq<Draft>, id: Id)
    ensures IntendedCount(drafts, id) == 1 <==> IntendedOnce(drafts, id)
  {
    if |drafts| > 0 {
      var n := |drafts| - 1;
      CountOnce(drafts[..n], id);
      CountNone(drafts[..n], id);
      OnceMore(drafts, id);
      hide IntendsDraft, IntendedOnce, NeverIntended;
    }
  }

  /** The delivery key belongs to another committed effect. */
  predicate KeyTaken(effects: seq<Effect>, e: Effect) {
    exists i :: 0 <= i < |effects| && effects[i].idempotencyKey == e.idempotencyKey && effects[i].effectId != e.effectId
  }

  ghost predicate BadEffect(s: Session, drafts: seq<Draft>, e: Effect) {
    HasEffect(s.effects, e.effectId) || !IntendedOnce(drafts, e.effectId) || KeyTaken(s.effects, e)
  }

  lemma {:induction false} BindHolds(effects: seq<Effect>, i: nat)
    requires i < |effects| && IdsCode(Keys(effects)).None?
    ensures effects[i].idempotencyKey in Bind(map[], effects) && Bind(map[], effects)[effects[i].idempotencyKey] == effects[i].effectId
    decreases |effects|
  {
    var n := |effects| - 1;
    assert Keys(effects)[..n] == Keys(effects[..n]);
    if i < n {
      BindHolds(effects[..n], i);
      IdsDistinct(Keys(effects), n);
      assert Keys(effects)[..n][i] == effects[i].idempotencyKey;
    }
  }

  lemma {:induction false} BindGives(effects: seq<Effect>, key: Id) returns (i: nat)
    requires key in Bind(map[], effects)
    ensures i < |effects| && effects[i].idempotencyKey == key && Bind(map[], effects)[key] == effects[i].effectId
  {
    var n := |effects| - 1;
    if effects[n].idempotencyKey == key { i := n; } else { i := BindGives(effects[..n], key); }
  }

  lemma KeyTakenIff(s: Session, e: Effect)
    requires Identified(s)
    ensures e.idempotencyKey in s.idempotency && s.idempotency[e.idempotencyKey] != e.effectId <==> KeyTaken(s.effects, e)
  {
    hide IdsCode, Bind;
    if e.idempotencyKey in s.idempotency {
      var i := BindGives(s.effects, e.idempotencyKey);
      if KeyTaken(s.effects, e) {
        var k :| 0 <= k < |s.effects| && s.effects[k].idempotencyKey == e.idempotencyKey && s.effects[k].effectId != e.effectId;
        BindHolds(s.effects, k);
      }
    } else if KeyTaken(s.effects, e) {
      var k :| 0 <= k < |s.effects| && s.effects[k].idempotencyKey == e.idempotencyKey && s.effects[k].effectId != e.effectId;
      BindHolds(s.effects, k);
    }
  }

  ghost function EffectFault(s: Session, drafts: seq<Draft>, e: Effect): Code {
    if HasEffect(s.effects, e.effectId) then IdempotencyCollision
    else if !IntendedOnce(drafts, e.effectId) then InvariantViolation else IdempotencyCollision
  }

  lemma EffectsLast(s: Session, drafts: seq<Draft>, effects: seq<Effect>)
    requires Identified(s) && |effects| > 0
    ensures var n := |effects| - 1;
      EffectCode(s, drafts, effects) ==
        Then(EffectCode(s, drafts, effects[..n]), if !BadEffect(s, drafts, effects[n]) then None else Some(EffectFault(s, drafts, effects[n])))
  {
    var n := |effects| - 1;
    CountOnce(drafts, effects[n].effectId);
    KeyTakenIff(s, effects[n]);
    hide HasEffect, IntendedOnce, KeyTaken, Identified, IntendedCount;
  }

  /** The first effect that is committed already, is not intended exactly once, or has another's key decides. */
  lemma {:induction false} EffectsFirst(s: Session, drafts: seq<Draft>, effects: seq<Effect>)
    requires Identified(s)
    ensures EffectCode(s, drafts, effects).None? <==> forall i :: 0 <= i < |effects| ==> !BadEffect(s, drafts, effects[i])
    ensures forall i :: 0 <= i < |effects| && BadEffect(s, drafts, effects[i]) && (forall k :: 0 <= k < i ==> !BadEffect(s, drafts, effects[k])) ==>
      EffectCode(s, drafts, effects) == Some(if HasEffect(s.effects, effects[i].effectId) then IdempotencyCollision
                                             else if !IntendedOnce(drafts, effects[i].effectId) then InvariantViolation else IdempotencyCollision)
  {
    hide BadEffect, HasEffect, IntendedOnce, Identified;
    if |effects| > 0 {
      var n := |effects| - 1;
      EffectsFirst(s, drafts, effects[..n]);
      EffectsLast(s, drafts, effects);
      assert forall k :: 0 <= k < n ==> effects[..n][k] == effects[k];
      hide EffectCode;
    }
  }

  // ---- receipts --------------------------------------------------------------------------------------------------------------

  /** Another content is stored under the id. */
  predicate Contradicts(receipts: seq<Receipt>, r: Receipt) { exists i :: 0 <= i < |receipts| && receipts[i].receiptId == r.receiptId && receipts[i] != r }

  predicate BadReceipt(s: Session, drafts: seq<Draft>, r: Receipt) { Contradicts(s.receipts, r) || (r !in s.receipts && !References(drafts, r.receiptId)) }

  lemma {:induction false} FoundOnce(receipts: seq<Receipt>, i: nat)
    requires i < |receipts| && IdsCode(ReceiptIds(receipts)).None?
    ensures FindReceipt(receipts, receipts[i].receiptId) == Some(receipts[i])
    decreases |receipts|
  {
    var n := |receipts| - 1;
    assert ReceiptIds(receipts)[..n] == ReceiptIds(receipts[..n]);
    if i < n {
      FoundOnce(receipts[..n], i);
      IdsDistinct(ReceiptIds(receipts), n);
      assert ReceiptIds(receipts)[..n][i] == receipts[i].receiptId;
    }
  }

  lemma StoredIff(receipts: seq<Receipt>, r: Receipt)
    requires IdsCode(ReceiptIds(receipts)).None?
    ensures FindReceipt(receipts, r.receiptId) == Some(r) <==> r in receipts
    ensures FindReceipt(receipts, r.receiptId).Some? && FindReceipt(receipts, r.receiptId).value != r <==> Contradicts(receipts, r)
  {
    hide IdsCode, FindReceipt;
    FindReceiptIn(receipts, r.receiptId);
    if r in receipts {
      var i :| 0 <= i < |receipts| && receipts[i] == r;
      FoundOnce(receipts, i);
    }
    if Contradicts(receipts, r) {
      var i :| 0 <= i < |receipts| && receipts[i].receiptId == r.receiptId && receipts[i] != r;
      FoundOnce(receipts, i);
    }
  }

  lemma ReceiptsLast(s: Session, drafts: seq<Draft>, receipts: seq<Receipt>)
    requires IdsCode(ReceiptIds(s.receipts)).None? && |receipts| > 0
    ensures var n := |receipts| - 1;
      ReceiptCode(s, drafts, receipts) ==
        Then(ReceiptCode(s, drafts, receipts[..n]),
             if !BadReceipt(s, drafts, receipts[n]) then None
             else Some(if Contradicts(s.receipts, receipts[n]) then IdempotencyCollision else InvariantViolation))
  {
    StoredIff(s.receipts, receipts[|receipts| - 1]);
    hide FindReceipt, Contradicts, References, IdsCode;
  }

  /** The first receipt that contradicts a stored one, or is new and named by no event of the request, decides. */
  lemma {:induction false} ReceiptsFirst(s: Session, drafts: seq<Draft>, receipts: seq<Receipt>)
    requires IdsCode(ReceiptIds(s.receipts)).None?
    ensures ReceiptCode(s, drafts, receipts).None? <==> forall i :: 0 <= i < |receipts| ==> !BadReceipt(s, drafts, receipts[i])
    ensures forall i :: 0 <= i < |receipts| && BadReceipt(s, drafts, receipts[i]) && (forall k :: 0 <= k < i ==> !BadReceipt(s, drafts, receipts[k])) ==>
      ReceiptCode(s, drafts, receipts) == Some(if Contradicts(s.receipts, receipts[i]) then IdempotencyCollision else InvariantViolation)
  {
    hide BadReceipt, Contradicts, IdsCode;
    if |receipts| > 0 {
      var n := |receipts| - 1;
      ReceiptsFirst(s, drafts, receipts[..n]);
      ReceiptsLast(s, drafts, receipts);
      assert forall k :: 0 <= k < n ==> receipts[..n][k] == receipts[k];
      hide ReceiptCode;
    }
  }

  // ---- the whole request -----------------------------------------------------------------------------------------------------

  predicate SomeBadId(ids: seq<Id>) { exists i :: 0 <= i < |ids| && BadId(ids, i) }

  predicate OtherProtocol(s: Session, req: Request) {
    || (exists i :: 0 <= i < |req.drafts| && req.drafts[i].protocol != s.protocol)
    || (exists i :: 0 <= i < |req.effects| && req.effects[i].protocol != s.protocol)
    || (exists i :: 0 <= i < |req.receipts| && req.receipts[i].protocol != s.protocol)
  }

  /** An intention, a receipt event, without the id it is about. */
  predicate NamelessAt(drafts: seq<Draft>) { exists i :: 0 <= i < |drafts| && drafts[i].kind == EffectIntended && drafts[i].payload.effectId.None? }
  predicate UnreferencedAt(drafts: seq<Draft>) {
    exists i :: 0 <= i < |drafts| && drafts[i].kind in {ReceiptApplied, ReceiptArchived} && drafts[i].payload.objectRef.None?
  }

  /** An intention without its effect, a receipt event without its receipt. */
  predicate Uncovered(req: Request) {
    exists i :: 0 <= i < |req.drafts| && req.drafts[i].kind == EffectIntended && req.drafts[i].payload.effectId.Some?
      && !HasEffect(req.effects, req.drafts[i].payload.effectId.value)
  }

  predicate Unbacked(s: Session, req: Request) {
    exists i :: 0 <= i < |req.drafts| && req.drafts[i].kind in {ReceiptApplied, ReceiptArchived} && req.drafts[i].payload.objectRef.Some?
      && FindReceipt(req.receipts, req.drafts[i].payload.objectRef.value.id).None?
      && FindReceipt(s.receipts, req.drafts[i].payload.objectRef.value.id).None?
  }

  /** Some new event does not fit where the journal ends. */
  ghost predicate Unfit(s: Session, req: Request)
    requires Produced(s).Ok?
  {
    var more, state := NewEvents(s, req.drafts), Produced(s).value;
    exists i :: 0 <= i < |more| && !Fits(state.sessionId, Start(more, Some(state)), more, i)
  }

  /** Some event of the journal with them is no delivery that may come then. */
  ghost predicate Undeliverable(s: Session, req: Request) {
    var events, effects, receipts := s.events + NewEvents(s, req.drafts), s.effects + req.effects, s.receipts + NewReceipts(s, req.receipts);
    exists i :: 0 <= i < |events| && !OutboxMeaning.Fitting(events, effects, receipts, i)
  }

  predicate AnyBadDraft(s: Session, drafts: seq<Draft>) { exists i :: 0 <= i < |drafts| && BadDraft(s, drafts, i) }
  ghost predicate AnyBadEffect(s: Session, req: Request) { exists i :: 0 <= i < |req.effects| && BadEffect(s, req.drafts, req.effects[i]) }
  predicate AnyBadReceipt(s: Session, req: Request) { exists i :: 0 <= i < |req.receipts| && BadReceipt(s, req.drafts, req.receipts[i]) }

  lemma SomeBadIdIff(ids: seq<Id>)
    ensures SomeBadId(ids) <==> IdsCode(ids).Some?
  {
    IdsFirst(ids);
    hide BadId, IdsCode;
  }

  /** The effects of a request: their ids, their keys, nameless intentions, each effect, intentions without effect. */
  lemma EffectsOrder(s: Session, req: Request)
    requires Identified(s)
    ensures EffectsCode(s, req.drafts, req.effects) ==
      if SomeBadId(EffectIds(req.effects)) then IdsCode(EffectIds(req.effects))
      else if SomeBadId(Keys(req.effects)) then IdsCode(Keys(req.effects))
      else if NamelessAt(req.drafts) then Some(SchemaInvalid)
      else if AnyBadEffect(s, req) then EffectCode(s, req.drafts, req.effects)
      else if Uncovered(req) then Some(InvariantViolation) else None
    ensures AnyBadEffect(s, req) ==> EffectCode(s, req.drafts, req.effects).Some?
    ensures SomeBadId(EffectIds(req.effects)) ==> IdsCode(EffectIds(req.effects)).Some?
    ensures SomeBadId(Keys(req.effects)) ==> IdsCode(Keys(req.effects)).Some?
  {
    SomeBadIdIff(EffectIds(req.effects));
    SomeBadIdIff(Keys(req.effects));
    EffectsFirst(s, req.drafts, req.effects);
    assert Uncovered(req) <==> !IntentionsCovered(req.drafts, req.effects);
    hide IdsCode, SomeBadId, EffectCode, BadEffect, HasEffect, Identified, IntentionsCovered, Uncovered;
  }

  /** The receipts of a request: their ids, receipt events without an id, each receipt, receipt events without a receipt. */
  lemma ReceiptsOrder(s: Session, req: Request)
    requires IdsCode(ReceiptIds(s.receipts)).None?
    ensures ReceiptsCode(s, req.drafts, req.receipts) ==
      if SomeBadId(ReceiptIds(req.receipts)) then IdsCode(ReceiptIds(req.receipts))
      else if UnreferencedAt(req.drafts) then Some(SchemaInvalid)
      else if AnyBadReceipt(s, req) then ReceiptCode(s, req.drafts, req.receipts)
      else if Unbacked(s, req) then Some(InvariantViolation) else None
    ensures AnyBadReceipt(s, req) ==> ReceiptCode(s, req.drafts, req.receipts).Some?
    ensures SomeBadId(ReceiptIds(req.receipts)) ==> IdsCode(ReceiptIds(req.receipts)).Some?
  {
    SomeBadIdIff(ReceiptIds(req.receipts));
    ReceiptsFirst(s, req.drafts, req.receipts);
    assert Unbacked(s, req) <==> !ReferencesCovered(s, req.drafts, req.receipts) by { hide FindReceipt; }
    hide IdsCode, SomeBadId, ReceiptCode, BadReceipt, ReferencesCovered, Unbacked, FindReceipt;
  }

  lemma ReplayOrder(s: Session, req: Request)
    requires Produced(s).Ok?
    ensures SimulatedReplay(s, req).Err? <==> Unfit(s, req)
  {
    hide Produced, Fits, Start, ReplayOf;
    ReplayMeans(NewEvents(s, req.drafts), Some(Produced(s).value));
  }

  lemma OutboxOrder(s: Session, req: Request)
    ensures SimulatedOutbox(s, req).Err? <==> Undeliverable(s, req)
  {
    hide NewEvents, NewReceipts;
    OutboxMeaning.OutboxMeans(s.events + NewEvents(s, req.drafts), s.effects + req.effects, s.receipts + NewReceipts(s, req.receipts));
  }

  lemma SoundParts(s: Session)
    requires Sound(s)
    ensures Identified(s) && IdsCode(ReceiptIds(s.receipts)).None? && Produced(s).Ok?
  {
    hide Numbered, Projects, Identified, IntendedAll, Indexed, Journalled, Named, Holds, IdsCode, JournalState;
  }

  /**
   * What a request that was not stored before is refused with, for every sound session: the first of these conditions
   * that fails, in this order; with none of them failing it is accepted.
   */
  lemma CommitOrder(s: Session, req: Request)
    requires Sound(s) && FindEntry(s.requests, req.requestId).None?
    ensures Produced(s).Ok?
    ensures var r, drafts := CommitTo(s, req), req.drafts;
      if |drafts| == 0 then r == Err(SchemaInvalid)
      else if OtherProtocol(s, req) then r == Err(ProtocolUnsupported)
      else if req.expectedRevision != s.revision then r == Err(RevisionConflict)
      else if req.epoch != s.epoch && (forall i :: 0 <= i < |drafts| ==> drafts[i].kind != EpochChanged) then r == Err(RevisionConflict)
      else if exists i :: 0 <= i < |drafts| && drafts[i].epoch != req.epoch then r == Err(InvariantViolation)
      else if AnyBadDraft(s, drafts) then r.Err? && DraftCode(s, drafts) == Some(r.code)
      else if EffectsCode(s, drafts, req.effects).Some? then r.Err? && EffectsCode(s, drafts, req.effects) == Some(r.code)
      else if ReceiptsCode(s, drafts, req.receipts).Some? then r.Err? && ReceiptsCode(s, drafts, req.receipts) == Some(r.code)
      else if Unfit(s, req) then r.Err? && SimulatedReplay(s, req) == Err(r.code)
      else if Undeliverable(s, req) then r.Err? && SimulatedOutbox(s, req) == Err(r.code)
      else r.Ok?
  {
    SoundParts(s);
    DraftsFirst(s, req.drafts);
    ReplayOrder(s, req);
    OutboxOrder(s, req);
    ProtocolsIff(s, req);
    EpochsIff(req);
    hide Sound, FindEntry, DraftCode, EffectsCode, ReceiptsCode, SimulatedReplay, SimulatedOutbox, Produced, BadDraft, OtherProtocol, ProtocolsMatch,
      Unfit, Undeliverable, Apply, OutcomeOf, ChangesEpoch, EpochsAgree, Identified, IdsCode;
  }

  lemma ProtocolsIff(s: Session, req: Request)
    ensures ProtocolsMatch(s.protocol, req) <==> !OtherProtocol(s, req)
  {}

  lemma EpochsIff(req: Request)
    ensures ChangesEpoch(req.drafts) <==> !forall i :: 0 <= i < |req.drafts| ==> req.drafts[i].kind != EpochChanged
    ensures EpochsAgree(req) <==> !exists i :: 0 <= i < |req.drafts| && req.drafts[i].epoch != req.epoch
  {}

  /** A request that was stored before is answered from the store when its content is the same, and refused when it is not. */
  lemma StoredRequest(s: Session, req: Request)
    requires FindEntry(s.requests, req.requestId).Some? && |req.drafts| > 0 && !OtherProtocol(s, req)
    ensures var e := FindEntry(s.requests, req.requestId).value;
      CommitTo(s, req) == if e.request == req.(sessionId := s.sessionId)
                          then Ok((s, Outcome(Duplicate, e.outcome.sessionId, e.outcome.revision, e.outcome.eventIds, e.outcome.effectIds)))
                          else Err(IdempotencyCollision)
  {
    ProtocolsIff(s, req);
    hide FindEntry, OtherProtocol, ProtocolsMatch;
  }

  /** Only the first event of an accepted request changes the epoch, and only upwards. */
  lemma EpochMovesFirst(s: Session, req: Request, i: nat)
    requires Sound(s) && FindEntry(s.requests, req.requestId).None? && CommitTo(s, req).Ok? && i < |req.drafts|
    ensures req.drafts[i].kind == EpochChanged ==> i == 0 && s.epoch < req.epoch
    ensures req.drafts[0].kind != EpochChanged ==> req.epoch == s.epoch
  {
    CommitOrder(s, req);
    FirstFits(s, req, i);
    FirstFits(s, req, 0);
    hide Sound, CommitTo, Unfit, Undeliverable, OtherProtocol, AnyBadDraft, EffectsCode, ReceiptsCode, FindEntry, NewEvents;
  }

  lemma FirstFits(s: Session, req: Request, i: nat)
    requires Sound(s) && i < |req.drafts| && !Unfit(s, req) && forall k :: 0 <= k < |req.drafts| ==> req.drafts[k].epoch == req.epoch
    requires Produced(s).Ok?
    ensures if req.drafts[i].kind == EpochChanged then (if i == 0 then s.epoch else req.epoch) < req.epoch
            else req.epoch == if i == 0 then s.epoch else req.epoch
  {
    var more, state := NewEvents(s, req.drafts), Produced(s).value;
    assert state.epoch == s.epoch by {
      hide Numbered, Projects, Identified, IntendedAll, Evidenced, Indexed, Journalled, JournalState;
    }
    assert Fits(state.sessionId, Start(more, Some(state)), more, i) by { hide Fits, Sound, Produced; }
    assert more[i].kind == req.drafts[i].kind && more[i].epoch == req.epoch && (i > 0 ==> more[i - 1].epoch == req.epoch);
    hide Sound, GoesOn, Produced;
  }
}
