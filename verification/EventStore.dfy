/** The in-memory event store: a map of session records, each advanced only through its own transactions. */
module EventStores {
  import opened Options
  import opened JournalTypes
  import opened Replay
  import opened Commit
  import opened SessionRecords
  import opened Sessions
  import opened Recovery
  import opened Delivery

  ghost predicate AllSound(contents: map<Id, Session>) { forall id :: id in contents ==> Sound(contents[id]) }

  lemma CommitSound(contents: map<Id, Session>, id: Id, req: Request)
    requires id in contents && CommitTo(contents[id], req).Ok?
    requires AllSound(contents)
    ensures AllSound(contents[id := CommitTo(contents[id], req).value.0])
  {
    hide CommitTo, Sound;
    CommitKeepsSound(contents[id], req);
  }

  lemma AddSound(contents: map<Id, Session>, id: Id, s: Session)
    requires AllSound(contents) && Sound(s)
    ensures AllSound(contents[id := s])
  {
    hide Sound;
  }

  class EventStore {
    var sessions: map<Id, SessionRecord>
    const gate: Gate

    function Contents(): map<Id, Session>
      reads this, sessions.Values
    {
      map id | id in sessions :: sessions[id].View()
    }

    /** Each record is filed under its own session id, so no two entries share one; and every session is sound. */
    ghost predicate Valid()
      reads this, sessions.Values
    {
      (forall id :: id in sessions ==> sessions[id].sessionId == id) && AllSound(Contents())
    }

    constructor (gate: Gate)
      ensures Valid() && Contents() == map[]
    {
      this.gate := gate;
      sessions := map[];
    }

    method CreateSession(sessionId: Id, epoch: int, protocol: string) returns (r: Result<Id>)
      requires Valid()
      modifies this`sessions
      ensures Valid() && fresh(sessions.Values - old(sessions.Values))
      ensures gate(protocol).Some? ==> r == Err(gate(protocol).value)
      ensures gate(protocol).None? && sessionId in old(sessions) ==>
        r == if old(Contents())[sessionId].epoch == epoch && old(Contents())[sessionId].protocol == protocol then Ok(sessionId) else Err(RevisionConflict)
      ensures gate(protocol).None? && sessionId !in old(sessions) ==> r == Ok(sessionId)
      ensures Contents() == if gate(protocol).None? && sessionId !in old(sessions)
                            then old(Contents())[sessionId := NewSession(sessionId, epoch, protocol)] else old(Contents())
    {
      hide Sound, AllSound, Rebuilds;
      if gate(protocol).Some? { return Err(gate(protocol).value); }
      if sessionId in sessions {
        var existing := sessions[sessionId];
        return if existing.epoch == epoch && existing.protocol == protocol then Ok(sessionId) else Err(RevisionConflict);
      }
      var session := new SessionRecord(sessionId, epoch, protocol);
      sessions := sessions[sessionId := session];
      EmptyInv(sessionId, epoch, protocol);
      AddSound(old(Contents()), sessionId, NewSession(sessionId, epoch, protocol));
      assert Contents() == old(Contents())[sessionId := NewSession(sessionId, epoch, protocol)];
      return Ok(sessionId);
    }

    method Append(req: Request) returns (r: Result<Outcome>)
      requires Valid()
      modifies sessions.Values
      ensures Valid()
      ensures req.sessionId !in sessions ==> r == Err(SchemaInvalid) && Contents() == old(Contents())
      ensures req.sessionId in sessions ==>
        match CommitTo(old(Contents())[req.sessionId], req)
        case Err(code) => r == Err(code) && Contents() == old(Contents())
        case Ok(next) => r == Ok(next.1) && Contents() == old(Contents())[req.sessionId := next.0]
    {
      hide CommitTo, Sound, AllSound;
      if req.sessionId !in sessions { return Err(SchemaInvalid); }
      assert sessions[req.sessionId] in sessions.Values;
      ghost var was := Contents();
      r := sessions[req.sessionId].CommitBatch(req);
      if r.Ok? {
        CommitSound(was, req.sessionId, req);
        assert Contents() == was[req.sessionId := CommitTo(was[req.sessionId], req).value.0];
      } else {
        assert Contents() == was;
      }
    }

    method DispatchEffect(sessionId: Id, input: DispatchInput) returns (r: Result<Outcome>)
      requires Valid()
      modifies sessions.Values
      ensures Valid()
      ensures sessionId !in sessions ==> r == Err(SchemaInvalid) && Contents() == old(Contents())
      ensures sessionId in sessions ==>
        match DispatchOf(old(Contents())[sessionId], input)
        case Err(code) => r == Err(code) && Contents() == old(Contents())
        case Ok(next) => r == Ok(next.1) && Contents() == old(Contents())[sessionId := next.0]
    {
      hide CommitTo, OutboxOf, ContentOf, Sound, AllSound;
      if sessionId !in sessions { return Err(SchemaInvalid); }
      var session := sessions[sessionId];
      assert session in sessions.Values;
      var projection := ProjectOutbox(session.events, session.effects, session.receipts);
      if projection.Err? { return Err(projection.code); }
      var entries := projection.value.entries;
      if input.effectId !in entries { return Err(SchemaInvalid); }
      if entries[input.effectId].state != Intended { return Err(ClaimConflict); }
      var effect := ContentOf(session.View(), input.effectId);
      if effect.binding.epoch != session.epoch { return Err(LeaseStale); }
      var req := DispatchRequest(session.View(), input, effect.binding);
      ghost var was := Contents();
      r := session.CommitBatch(req);
      if r.Ok? {
        CommitSound(was, sessionId, req);
        assert Contents() == was[sessionId := CommitTo(was[sessionId], req).value.0];
      } else {
        assert Contents() == was;
      }
    }

    method ApplyReceipt(sessionId: Id, input: ReceiptInput) returns (r: Result<ReceiptOutcome>)
      requires Valid()
      modifies sessions.Values
      ensures Valid()
      ensures sessionId !in sessions ==> r == Err(SchemaInvalid) && Contents() == old(Contents())
      ensures sessionId in sessions ==>
        match ApplyReceiptOf(old(Contents())[sessionId], input)
        case Err(code) => r == Err(code) && Contents() == old(Contents())
        case Ok(next) => r == Ok(next.1) && Contents() == old(Contents())[sessionId := next.0]
    {
      hide CommitTo, OutboxOf, Sound, AllSound, FindReceipt, FindEffect, Stale;
      if sessionId !in sessions { return Err(SchemaInvalid); }
      var session, receipt := sessions[sessionId], input.receipt;
      assert session in sessions.Values;
      var effect := FindEffect(session.effects, receipt.effectId);
      if effect.None? { return Err(SchemaInvalid); }
      if input.objectRef.id != receipt.receiptId { return Err(BindingMismatch); }
      var existing := FindReceipt(session.receipts, receipt.receiptId);
      if existing.Some? {
        if existing.value != receipt { return Err(IdempotencyCollision); }
        return Ok(ReceiptOutcome(Redelivered, session.revision, receipt.effectId, receipt.receiptId));
      }
      var projection := ProjectOutbox(session.events, session.effects, session.receipts);
      if projection.Err? { return Err(projection.code); }
      var entries := projection.value.entries;
      if receipt.effectId !in entries { return Err(SchemaInvalid); }
      if !Awaiting(entries[receipt.effectId].state) { return Err(ClaimConflict); }
      if receipt.status != UnknownStatus && |receipt.observability| == 0 { return Err(EffectUnknown); }
      var req := ReceiptRequest(session.View(), input, effect.value);
      ghost var was := Contents();
      var committed := session.CommitBatch(req);
      if committed.Err? {
        assert Contents() == was;
        return Err(committed.code);
      }
      CommitSound(was, sessionId, req);
      assert Contents() == was[sessionId := CommitTo(was[sessionId], req).value.0];
      var standing := if Stale(effect.value, input) then Archived else Applied;
      return Ok(ReceiptOutcome(standing, committed.value.revision, receipt.effectId, receipt.receiptId));
    }

    method ReconcileEffect(sessionId: Id, input: ReceiptInput) returns (r: Result<ReceiptOutcome>)
      requires Valid()
      modifies sessions.Values
      ensures Valid()
      ensures sessionId !in sessions ==> r == Err(SchemaInvalid) && Contents() == old(Contents())
      ensures sessionId in sessions ==>
        match ReconcileOf(old(Contents())[sessionId], input)
        case Err(code) => r == Err(code) && Contents() == old(Contents())
        case Ok(next) => r == Ok(next.1) && Contents() == old(Contents())[sessionId := next.0]
    {
      hide ApplyReceiptOf, OutboxOf, Sound, AllSound, FindReceipt;
      if sessionId !in sessions { return Err(SchemaInvalid); }
      var session, receipt := sessions[sessionId], input.receipt;
      if FindReceipt(session.receipts, receipt.receiptId).Some? {
        r := ApplyReceipt(sessionId, input);
        return;
      }
      if receipt.status == UnknownStatus || |receipt.observability| == 0 { return Err(EffectUnknown); }
      var projection := ProjectOutbox(session.events, session.effects, session.receipts);
      if projection.Err? { return Err(projection.code); }
      var entries := projection.value.entries;
      if receipt.effectId !in entries { return Err(SchemaInvalid); }
      if !Awaiting(entries[receipt.effectId].state) { return Err(ClaimConflict); }
      r := ApplyReceipt(sessionId, input);
    }

    method NextEffects(sessionId: Id) returns (r: Result<seq<Effect>>)
      requires Valid()
      ensures sessionId !in sessions ==> r == Err(SchemaInvalid)
      ensures sessionId in sessions ==> r == NextOf(Contents()[sessionId])
    {
      hide OutboxOf, ContentOf, Sound;
      if sessionId !in sessions { return Err(SchemaInvalid); }
      var session := sessions[sessionId];
      var projection := ProjectOutbox(session.events, session.effects, session.receipts);
      if projection.Err? { return Err(projection.code); }
      var order, effects := projection.value.order, [];
      OrderListed(session.events, session.effects, session.receipts);
      for i := 0 to |order|
        invariant effects == Sendable(session.View(), order[..i])
      {
        assert order[..i + 1][..i] == order[..i] && order[..i + 1][i] == order[i];
        if projection.value.entries[order[i]].state == Intended {
          var effect := ContentOf(session.View(), order[i]);
          if effect.binding.epoch == session.epoch { effects := effects + [effect]; }
        }
      }
      assert order[..|order|] == order;
      return Ok(effects);
    }

    method ExportSession(sessionId: Id) returns (r: Result<Exported>)
      requires Valid()
      ensures r == if sessionId in sessions then Ok(Export(Contents()[sessionId])) else Err(SchemaInvalid)
    {
      if sessionId !in sessions { return Err(SchemaInvalid); }
      var s := sessions[sessionId];
      return Ok(Exported(s.sessionId, s.epoch, s.protocol, s.revision, s.events, s.effects, s.receipts, Requests(s.requests)));
    }

    method RestoreSession(x: Exported) returns (r: Result<Id>)
      requires Valid()
      modifies this`sessions
      ensures Valid() && fresh(sessions.Values - old(sessions.Values))
      ensures x.sessionId in old(sessions) ==> r == Err(RevisionConflict) && Contents() == old(Contents())
      ensures x.sessionId !in old(sessions) ==>
        match ReviveOf(gate, x)
        case Err(code) => r == Err(code) && Contents() == old(Contents())
        case Ok(s) => r == Ok(x.sessionId) && Contents() == old(Contents())[x.sessionId := s]
    {
      hide ReviveOf, Sound, AllSound;
      if x.sessionId in sessions { return Err(RevisionConflict); }
      var revived := ReviveSession(gate, x);
      if revived.Err? { return Err(revived.code); }
      ReviveSound(gate, x);
      RevivedId(gate, x);
      AddSound(Contents(), x.sessionId, revived.value.View());
      ghost var was := Contents();
      sessions := sessions[x.sessionId := revived.value];
      assert Contents() == was[x.sessionId := revived.value.View()];
      return Ok(x.sessionId);
    }
  }

  lemma RevivedId(gate: Gate, x: Exported)
    requires ReviveOf(gate, x).Ok?
    ensures ReviveOf(gate, x).value.sessionId == x.sessionId
  {
    hide ReviveOf;
    Faithful(gate, x);
  }
}
