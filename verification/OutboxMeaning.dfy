/** When a journal's deliveries are consistent, and how each effect then reads, said of the events themselves. */
module OutboxMeaning {
  import opened Options
  import opened JournalTypes
  import opened Replay

  /** The event says something of how the effect stands. */
  predicate Touches(e: Event, id: Id) {
    e.payload.effectId == Some(id) && (e.kind == EffectIntended || e.kind == EffectDispatched || e.kind == ReceiptApplied)
  }

  /** The last of the first `n` events to do so. */
  predicate LastTouch(events: seq<Event>, n: nat, id: Id, i: int)
    requires n <= |events|
  {
    0 <= i < n && Touches(events[i], id) && forall j :: i < j < n ==> !Touches(events[j], id)
  }

  predicate Untouched(events: seq<Event>, n: nat, id: Id)
    requires n <= |events|
  {
    forall j :: 0 <= j < n ==> !Touches(events[j], id)
  }

  /** How the effect reads after that event: a receipt settles it, unless it reports `unknown`. */
  predicate ReadsAs(e: Event, receipts: seq<Receipt>, entry: OutboxEntry) {
    && (e.kind == EffectIntended ==> entry == OutboxEntry(Intended, None))
    && (e.kind == EffectDispatched ==> entry == OutboxEntry(Dispatched, None))
    && (e.kind == ReceiptApplied ==>
          e.payload.objectRef.Some? && FindReceipt(receipts, e.payload.objectRef.value.id).Some?
          && var status := FindReceipt(receipts, e.payload.objectRef.value.id).value.status;
             entry == if status == UnknownStatus then OutboxEntry(Uncertain, None) else OutboxEntry(Resolved, Some(status)))
  }

  predicate Reads(events: seq<Event>, n: nat, receipts: seq<Receipt>, id: Id, entry: Option<OutboxEntry>)
    requires n <= |events|
  {
    && (Untouched(events, n, id) <==> entry.None?)
    && (forall i :: 0 <= i < n && LastTouch(events, n, id, i) ==> entry.Some? && ReadsAs(events[i], receipts, entry.value))
  }

  /** The event comes when it may: intended once, with its content; dispatched right after; reported on when intended, by a stored receipt. */
  predicate Fitting(events: seq<Event>, effects: seq<Effect>, receipts: seq<Receipt>, i: nat)
    requires i < |events|
  {
    var e := events[i];
    match e.kind
    case EffectIntended => e.payload.effectId.Some? && Untouched(events, i, e.payload.effectId.value) && HasEffect(effects, e.payload.effectId.value)
    case EffectDispatched =>
      e.payload.effectId.Some? && exists j :: 0 <= j < i && LastTouch(events, i, e.payload.effectId.value, j) && events[j].kind == EffectIntended
    case ReceiptApplied =>
      e.payload.effectId.Some? && e.payload.objectRef.Some? && !Untouched(events, i, e.payload.effectId.value)
      && FindReceipt(receipts, e.payload.objectRef.value.id).Some?
    case ReceiptArchived => e.payload.objectRef.Some?
    case _ => true
  }

  /** How many of the first `n` events are of this kind. */
  function Count(events: seq<Event>, kind: EventKind, n: nat): nat
    requires n <= |events|
  {
    if n == 0 then 0 else Count(events, kind, n - 1) + if events[n - 1].kind == kind then 1 else 0
  }

  /** The effects in the order they were intended in, and the archived receipts in theirs. */
  predicate Listed(events: seq<Event>, n: nat, o: Outbox)
    requires n <= |events|
  {
    && |o.order| == Count(events, EffectIntended, n) && |o.archived| == Count(events, ReceiptArchived, n)
    && (forall i :: 0 <= i < n && events[i].kind == EffectIntended ==>
          Count(events, EffectIntended, i) < |o.order| && events[i].payload.effectId == Some(o.order[Count(events, EffectIntended, i)]))
    && (forall i :: 0 <= i < n && events[i].kind == ReceiptArchived ==>
          Count(events, ReceiptArchived, i) < |o.archived|
          && events[i].payload.objectRef.Some? && events[i].payload.objectRef.value.id == o.archived[Count(events, ReceiptArchived, i)])
  }

  function EntryIn(o: Outbox, id: Id): Option<OutboxEntry> { if id in o.entries then Some(o.entries[id]) else None }

  ghost predicate Derived(events: seq<Event>, receipts: seq<Receipt>, n: nat, o: Outbox)
    requires n <= |events|
  {
    Listed(events, n, o) && forall id :: Reads(events, n, receipts, id, EntryIn(o, id))
  }

  lemma ReadsTouched(events: seq<Event>, n: nat, receipts: seq<Receipt>, id: Id, next: Option<OutboxEntry>)
    requires n < |events| && Touches(events[n], id) && next.Some? && ReadsAs(events[n], receipts, next.value)
    ensures Reads(events, n + 1, receipts, id, next)
  {
    hide ReadsAs;
    var m := n + 1;
    assert !Untouched(events, m, id);
    assert forall i :: 0 <= i < m && LastTouch(events, m, id, i) ==> i == n;
  }

  lemma ReadsUntouched(events: seq<Event>, n: nat, receipts: seq<Receipt>, id: Id, entry: Option<OutboxEntry>)
    requires n < |events| && !Touches(events[n], id) && Reads(events, n, receipts, id, entry)
    ensures Reads(events, n + 1, receipts, id, entry)
  {
    hide ReadsAs;
    var m := n + 1;
    assert Untouched(events, m, id) <==> Untouched(events, n, id) by { hide Touches; }
    assert forall i :: 0 <= i < m && LastTouch(events, m, id, i) ==> i < n && LastTouch(events, n, id, i) by { hide Touches; }
    hide Touches;
  }

  lemma ReadsStep(events: seq<Event>, n: nat, receipts: seq<Receipt>, id: Id, entry: Option<OutboxEntry>, next: Option<OutboxEntry>)
    requires n < |events| && Reads(events, n, receipts, id, entry)
    requires if Touches(events[n], id) then next.Some? && ReadsAs(events[n], receipts, next.value) else next == entry
    ensures Reads(events, n + 1, receipts, id, next)
  {
    if Touches(events[n], id) { ReadsTouched(events, n, receipts, id, next); } else { ReadsUntouched(events, n, receipts, id, entry); }
    hide Reads, ReadsAs, Touches;
  }

  lemma {:induction false} TouchedOrNot(events: seq<Event>, n: nat, id: Id)
    requires n <= |events|
    ensures Untouched(events, n, id) <==> !exists i :: 0 <= i < n && LastTouch(events, n, id, i)
  {
    hide Touches;
    if n > 0 {
      TouchedOrNot(events, n - 1, id);
      var m := n - 1;
      if Touches(events[m], id) {
        assert LastTouch(events, n, id, m);
      } else if !Untouched(events, m, id) {
        var i :| 0 <= i < m && LastTouch(events, m, id, i);
        assert LastTouch(events, n, id, i);
      }
    }
  }

  /** Whether an effect is still as intended is decided by the last event about it. */
  lemma IntendedIff(events: seq<Event>, n: nat, receipts: seq<Receipt>, id: Id, entry: Option<OutboxEntry>)
    requires n <= |events| && Reads(events, n, receipts, id, entry)
    ensures entry.Some? && entry.value.state == Intended <==> exists j :: 0 <= j < n && LastTouch(events, n, id, j) && events[j].kind == EffectIntended
  {
    TouchedOrNot(events, n, id);
    if entry.Some? {
      var j :| 0 <= j < n && LastTouch(events, n, id, j);
      assert ReadsAs(events[j], receipts, entry.value);
      assert forall k :: 0 <= k < n && LastTouch(events, n, id, k) ==> k == j;
      hide FindReceipt, LastTouch;
    }
  }

  /** One more event: the step is taken exactly when it fits. */
  lemma StepFits(events: seq<Event>, n: nat, effects: seq<Effect>, receipts: seq<Receipt>, o: Outbox)
    requires n < |events| && Derived(events, receipts, n, o)
    ensures OutboxStep(o, events[n], effects, receipts).Ok? <==> Fitting(events, effects, receipts, n)
  {
    var e := events[n];
    if e.payload.effectId.Some? {
      var id := e.payload.effectId.value;
      assert Reads(events, n, receipts, id, EntryIn(o, id));
      IntendedIff(events, n, receipts, id, EntryIn(o, id));
    }
    hide Listed, LastTouch, ReadsAs, FindReceipt, HasEffect;
  }

  /** And reads every effect as the events do. */
  lemma StepReads(events: seq<Event>, n: nat, effects: seq<Effect>, receipts: seq<Receipt>, o: Outbox, id: Id)
    requires n < |events| && Derived(events, receipts, n, o) && OutboxStep(o, events[n], effects, receipts).Ok?
    ensures Reads(events, n + 1, receipts, id, EntryIn(OutboxStep(o, events[n], effects, receipts).value, id))
  {
    assert Reads(events, n, receipts, id, EntryIn(o, id));
    hide Listed, FindReceipt, HasEffect, Reads;
    ReadsStep(events, n, receipts, id, EntryIn(o, id), EntryIn(OutboxStep(o, events[n], effects, receipts).value, id));
  }

  lemma StepLists(events: seq<Event>, n: nat, effects: seq<Effect>, receipts: seq<Receipt>, o: Outbox)
    requires n < |events| && Listed(events, n, o) && OutboxStep(o, events[n], effects, receipts).Ok?
    ensures Listed(events, n + 1, OutboxStep(o, events[n], effects, receipts).value)
  {
    hide FindReceipt, HasEffect;
  }

  lemma {:induction false} CountSame(events: seq<Event>, kind: EventKind, n: nat, k: nat)
    requires k <= n <= |events|
    ensures Count(events[..n], kind, k) == Count(events, kind, k)
  {
    if k > 0 { CountSame(events, kind, n, k - 1); }
  }

  lemma DerivedPrefix(events: seq<Event>, receipts: seq<Receipt>, n: nat, o: Outbox)
    requires n <= |events|
    ensures Derived(events[..n], receipts, n, o) <==> Derived(events, receipts, n, o)
  {
    assert forall i :: 0 <= i < n ==> events[..n][i] == events[i];
    forall k, kind | 0 <= k <= n ensures Count(events[..n], kind, k) == Count(events, kind, k) { CountSame(events, kind, n, k); }
    hide Touches, ReadsAs;
    forall id ensures Reads(events[..n], n, receipts, id, EntryIn(o, id)) <==> Reads(events, n, receipts, id, EntryIn(o, id)) {
      assert forall i :: 0 <= i < n ==> (LastTouch(events[..n], n, id, i) <==> LastTouch(events, n, id, i));
    }
    assert Listed(events[..n], n, o) <==> Listed(events, n, o);
  }

  lemma FittingPrefix(events: seq<Event>, effects: seq<Effect>, receipts: seq<Receipt>, n: nat, i: nat)
    requires i < n <= |events|
    ensures Fitting(events[..n], effects, receipts, i) <==> Fitting(events, effects, receipts, i)
  {
    hide Touches, FindReceipt, HasEffect;
    assert forall k :: 0 <= k < n ==> events[..n][k] == events[k];
    if events[i].payload.effectId.Some? {
      var id := events[i].payload.effectId.value;
      assert forall j :: 0 <= j < i ==> (LastTouch(events[..n], i, id, j) <==> LastTouch(events, i, id, j));
    }
  }

  /**
   * A journal projects exactly when every event comes when it may; then every effect reads as the last event about it
   * says, the effects stand in the order they were intended in, and the archived receipts in theirs.
   */
  lemma {:induction false} OutboxMeans(events: seq<Event>, effects: seq<Effect>, receipts: seq<Receipt>)
    ensures OutboxOf(events, effects, receipts).Ok? <==> forall i :: 0 <= i < |events| ==> Fitting(events, effects, receipts, i)
    ensures OutboxOf(events, effects, receipts).Ok? ==> Derived(events, receipts, |events|, OutboxOf(events, effects, receipts).value)
  {
    if |events| > 0 {
      var n := |events| - 1;
      OutboxMeans(events[..n], effects, receipts);
      AllFitting(events, effects, receipts);
      var before := OutboxOf(events[..n], effects, receipts);
      hide Fitting, OutboxStep, Derived;
      if before.Ok? {
        DerivedPrefix(events, receipts, n, before.value);
        StepFits(events, n, effects, receipts, before.value);
        StepDerives(events, n, effects, receipts, before.value);
      }
    }
  }

  lemma StepDerives(events: seq<Event>, n: nat, effects: seq<Effect>, receipts: seq<Receipt>, o: Outbox)
    requires n < |events| && Derived(events, receipts, n, o)
    ensures OutboxStep(o, events[n], effects, receipts).Ok? ==> Derived(events, receipts, n + 1, OutboxStep(o, events[n], effects, receipts).value)
  {
    hide OutboxStep, Listed, Reads;
    if OutboxStep(o, events[n], effects, receipts).Ok? {
      StepLists(events, n, effects, receipts, o);
      forall id ensures Reads(events, n + 1, receipts, id, EntryIn(OutboxStep(o, events[n], effects, receipts).value, id)) {
        StepReads(events, n, effects, receipts, o, id);
      }
    }
  }

  lemma AllFitting(events: seq<Event>, effects: seq<Effect>, receipts: seq<Receipt>)
    requires |events| > 0
    ensures var n := |events| - 1;
      (forall i :: 0 <= i < |events| ==> Fitting(events, effects, receipts, i)) <==>
        Fitting(events, effects, receipts, n) && forall i :: 0 <= i < |events[..n]| ==> Fitting(events[..n], effects, receipts, i)
  {
    hide Fitting;
    var n := |events| - 1;
    forall i | 0 <= i < n ensures Fitting(events[..n], effects, receipts, i) <==> Fitting(events, effects, receipts, i) {
      FittingPrefix(events, effects, receipts, n, i);
    }
  }

  /** What the first event out of place is refused with. */
  lemma Misfit(events: seq<Event>, effects: seq<Effect>, receipts: seq<Receipt>, n: nat)
    requires n < |events| && !Fitting(events, effects, receipts, n) && forall i :: 0 <= i < n ==> Fitting(events, effects, receipts, i)
    ensures var e, r := events[n], OutboxOf(events, effects, receipts);
      && r.Err?
      && (e.kind == ReceiptArchived || e.payload.effectId.None? || (e.kind == ReceiptApplied && e.payload.objectRef.None?) ==> r.code == SchemaInvalid)
      && (e.kind == EffectIntended && e.payload.effectId.Some? ==>
            r.code == if Untouched(events, n, e.payload.effectId.value) then ArtifactUnavailable else InvariantViolation)
      && (e.kind == EffectDispatched && e.payload.effectId.Some? ==> r.code == InvariantViolation)
      && (e.kind == ReceiptApplied && e.payload.effectId.Some? && e.payload.objectRef.Some? ==>
            r.code == if Untouched(events, n, e.payload.effectId.value) then InvariantViolation else ArtifactUnavailable)
  {
    forall i | 0 <= i < n ensures Fitting(events[..n], effects, receipts, i) { FittingPrefix(events, effects, receipts, n, i); }
    OutboxMeans(events[..n], effects, receipts);
    var o := OutboxOf(events[..n], effects, receipts).value;
    DerivedPrefix(events, receipts, n, o);
    assert events[..n + 1][..n] == events[..n] && events[..n + 1][n] == events[n];
    StepCode(events, n, effects, receipts, o);
    hide Fitting, Derived, OutboxStep, Untouched;
    assert OutboxOf(events[..n + 1], effects, receipts) == OutboxStep(o, events[n], effects, receipts);
    OutboxStuck(events, n + 1, effects, receipts);
  }

  lemma StepCode(events: seq<Event>, n: nat, effects: seq<Effect>, receipts: seq<Receipt>, o: Outbox)
    requires n < |events| && Derived(events, receipts, n, o) && !Fitting(events, effects, receipts, n)
    ensures var e, r := events[n], OutboxStep(o, events[n], effects, receipts);
      && r.Err?
      && (e.kind == ReceiptArchived || e.payload.effectId.None? || (e.kind == ReceiptApplied && e.payload.objectRef.None?) ==> r.code == SchemaInvalid)
      && (e.kind == EffectIntended && e.payload.effectId.Some? ==>
            r.code == if Untouched(events, n, e.payload.effectId.value) then ArtifactUnavailable else InvariantViolation)
      && (e.kind == EffectDispatched && e.payload.effectId.Some? ==> r.code == InvariantViolation)
      && (e.kind == ReceiptApplied && e.payload.effectId.Some? && e.payload.objectRef.Some? ==>
            r.code == if Untouched(events, n, e.payload.effectId.value) then InvariantViolation else ArtifactUnavailable)
  {
    StepFits(events, n, effects, receipts, o);
    var e := events[n];
    if e.payload.effectId.Some? { assert Reads(events, n, receipts, e.payload.effectId.value, EntryIn(o, e.payload.effectId.value)); }
    hide Listed, LastTouch, ReadsAs, FindReceipt, HasEffect, Untouched, Fitting;
  }
}
