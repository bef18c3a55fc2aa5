/** Who holds the writer lock: at most one live call, whatever is interleaved and whoever dies. */
module WorkspaceLocks {
  import opened Options
  import opened Workspace

  /** Live calls are for different keys; or both repairs are made, the second of which one process can do without. */
  predicate Trusted(c: Config) { c.apart || (c.removesWhatItRead && (c.oneAtATime || c.readsLate)) }

  /** From the directory's creation to its removal. */
  predicate Holding(stage: Stage) { stage.Making? || stage.Working? || stage.QReady? }

  /** The lock as its live holder left it. */
  function LockOf(tid: Tid, seat: Seat): Lock { Held(if seat.stage.Making? then None else Some(seat.owner), tid) }

  predicate Exclusive(seats: map<Tid, Seat>, writer: Lock) {
    forall i :: i in seats && Holding(seats[i].stage) ==> writer == LockOf(i, seats[i])
  }

  /** An owner file is left by nobody but a holder, live or dead. */
  predicate Owned(seats: map<Tid, Seat>, writer: Lock) {
    writer.Held? && writer.owner.Some? && writer.holder in seats ==> Holding(seats[writer.holder].stage)
  }

  predicate Arbitrated(seats: map<Tid, Seat>, arbiter: Option<Tid>) {
    forall i :: i in seats && seats[i].arbiter ==> arbiter == Some(i)
  }

  predicate Living(seats: map<Tid, Seat>, tids: set<Tid>, dead: set<Inst>, writer: Lock) {
    (forall i :: i in seats ==> i in tids && seats[i].owner.inst !in dead) && (writer.Held? ==> writer.holder in tids)
  }

  predicate Marked(seats: map<Tid, Seat>, active: set<Owner>) {
    forall i :: i in seats && seats[i].stage.Working? && !seats[i].reconcile ==> seats[i].owner in active
  }

  predicate Apart(c: Config, seats: map<Tid, Seat>) {
    forall i, j :: i in seats && j in seats && seats[i].owner == seats[j].owner && i != j ==>
      !c.oneAtATime && !(seats[i].reconcile && seats[j].reconcile)
  }

  predicate KeysApart(c: Config, seats: map<Tid, Seat>) {
    c.apart ==> forall i, j :: i in seats && j in seats && i != j ==> seats[i].owner.key != seats[j].owner.key
  }

  /** A take-over past reading. */
  predicate Inspecting(stage: Stage) { stage.QProbe? || stage.QRemove? }

  /** With the calls apart, the lock a take-over read stays as it is, and whoever left it is gone. */
  predicate Pinned(c: Config, seats: map<Tid, Seat>, writer: Lock) {
    c.apart ==> forall i :: i in seats && Inspecting(seats[i].stage) ==>
      writer == Held(Some(seats[i].sawOwner), seats[i].sawHolder) && seats[i].sawHolder !in seats
      && seats[i].sawOwner.key == seats[i].owner.key
  }

  /** What a take-over under way knows of the holder whose owner file it read. */
  predicate TakesOver(seats: map<Tid, Seat>, seat: Seat) {
    && (seat.stage.QProbe? && seat.sawHolder in seats ==>
          var holder := seats[seat.sawHolder];
          (holder.stage.Working? || holder.stage.QReady?) && holder.owner == seat.sawOwner && holder.owner.key == seat.owner.key)
    && (seat.stage.QRemove? ==> seat.sawHolder !in seats)
  }

  predicate Inspected(seats: map<Tid, Seat>, tids: set<Tid>) {
    forall i :: i in seats && (seats[i].stage.QProbe? || seats[i].stage.QRemove?) ==>
      TakesOver(seats, seats[i]) && seats[i].sawHolder in tids
  }

  /** A reconciliation is never in a stage of `run` alone, nor the other way round. */
  predicate Proper(seats: map<Tid, Seat>) {
    forall i :: i in seats && !seats[i].reconcile ==> seats[i].stage.RLock? || seats[i].stage.Making? || seats[i].stage.Working?
  }

  predicate LocksOk(c: Config, l: Locks) {
    && Exclusive(l.seats, l.writer) && Owned(l.seats, l.writer) && Arbitrated(l.seats, l.arbiter)
    && Living(l.seats, l.tids, l.dead, l.writer) && Marked(l.seats, l.active) && Apart(c, l.seats) && Inspected(l.seats, l.tids)
    && Proper(l.seats) && KeysApart(c, l.seats) && Pinned(c, l.seats, l.writer)
  }

  /** Two live calls never hold the lock together. */
  lemma OneHolder(c: Config, l: Locks, i: Tid, j: Tid)
    requires LocksOk(c, l) && i in l.seats && j in l.seats && Holding(l.seats[i].stage) && Holding(l.seats[j].stage)
    ensures i == j
  {
    assert l.writer == LockOf(i, l.seats[i]) && l.writer == LockOf(j, l.seats[j]);
  }

  /** A take-over is only decided on when the call that left the lock is gone. */
  lemma ProbeIsRight(c: Config, l: Locks, i: Tid)
    requires Trusted(c) && LocksOk(c, l) && i in l.seats && l.seats[i].stage.QProbe? && MayTakeOver(c, l, l.seats[i])
    ensures l.seats[i].sawHolder !in l.seats
  {
    hide Exclusive, Owned, Arbitrated;
    var seat := l.seats[i];
    assert TakesOver(l.seats, seat);
  }

  // ---- one seat changes -------------------------------------------------------------------------------------------

  predicate NobodyElse(seats: map<Tid, Seat>, tid: Tid) { forall i :: i in seats && i != tid ==> !Holding(seats[i].stage) }
  predicate NobodyInspects(seats: map<Tid, Seat>, tid: Tid) { forall i :: i in seats && i != tid ==> !Inspecting(seats[i].stage) }
  predicate NoOtherArbiter(seats: map<Tid, Seat>, tid: Tid) { forall i :: i in seats && i != tid ==> !seats[i].arbiter }

  /** When nobody else holds: the lock is free, is this call's, or was left by a call that is gone. */
  lemma AloneWhen(seats: map<Tid, Seat>, writer: Lock, tid: Tid)
    requires Exclusive(seats, writer)
    requires writer.Free? || writer.holder == tid || writer.holder !in seats
    ensures NobodyElse(seats, tid)
  {}

  /** With the calls apart, nobody else is past reading while the lock is free, live, or this call's to remove. */
  lemma InspectsAlone(c: Config, seats: map<Tid, Seat>, writer: Lock, tid: Tid)
    requires c.apart && tid in seats && KeysApart(c, seats) && Pinned(c, seats, writer)
    requires writer.Free? || writer.holder == tid || Inspecting(seats[tid].stage)
    ensures NobodyInspects(seats, tid)
  {}

  lemma ArbiterAlone(seats: map<Tid, Seat>, arbiter: Option<Tid>, tid: Tid)
    requires Arbitrated(seats, arbiter) && (arbiter.None? || arbiter == Some(tid))
    ensures NoOtherArbiter(seats, tid)
  {}

  predicate PutOk(l: Locks, tid: Tid, seat: Seat, seat': Seat, writer: Lock, arbiter: Option<Tid>) {
    && seat'.owner == seat.owner && seat'.reconcile == seat.reconcile
    && (Holding(seat'.stage) ==> writer == LockOf(tid, seat'))
    && (writer != l.writer ==> NobodyElse(l.seats, tid) && (writer.Held? ==> writer.holder == tid))
    && (writer.Held? && writer.owner.Some? && writer.holder == tid ==> Holding(seat'.stage))
    && (seat'.arbiter ==> arbiter == Some(tid)) && (arbiter != l.arbiter ==> NoOtherArbiter(l.seats, tid))
    && ((seat.stage.Working? || seat.stage.QReady?) ==> (seat'.stage.Working? || seat'.stage.QReady?))
    && (!seat'.reconcile ==> seat'.stage.RLock? || seat'.stage.Making? || seat'.stage.Working?)
  }

  /** What keeps the take-overs' locks pinned when a call steps on. */
  predicate PinOk(c: Config, l: Locks, tid: Tid, seat': Seat, writer: Lock) {
    c.apart ==>
      && (writer != l.writer ==> NobodyInspects(l.seats, tid))
      && (Inspecting(seat'.stage) ==>
            writer == Held(Some(seat'.sawOwner), seat'.sawHolder) && seat'.sawHolder !in l.seats && seat'.sawOwner.key == seat'.owner.key)
  }

  lemma PutPinned(c: Config, l: Locks, tid: Tid, seat': Seat, writer: Lock)
    requires tid in l.seats && PinOk(c, l, tid, seat', writer) && Pinned(c, l.seats, l.writer)
    ensures Pinned(c, l.seats[tid := seat'], writer)
  {}

  lemma PutKeysApart(c: Config, seats: map<Tid, Seat>, tid: Tid, seat': Seat)
    requires tid in seats && seat'.owner == seats[tid].owner && KeysApart(c, seats)
    ensures KeysApart(c, seats[tid := seat'])
  {}

  lemma PutApart(c: Config, seats: map<Tid, Seat>, tid: Tid, seat': Seat)
    requires tid in seats && seat'.owner == seats[tid].owner && seat'.reconcile == seats[tid].reconcile && Apart(c, seats)
    ensures Apart(c, seats[tid := seat'])
  {}

  lemma PutInspected(seats: map<Tid, Seat>, tids: set<Tid>, tid: Tid, seat': Seat)
    requires tid in seats && seat'.owner == seats[tid].owner && Inspected(seats, tids)
    requires seats[tid].stage.Working? || seats[tid].stage.QReady? ==> seat'.stage.Working? || seat'.stage.QReady?
    requires seat'.stage.QProbe? || seat'.stage.QRemove? ==> TakesOver(seats[tid := seat'], seat') && seat'.sawHolder in tids
    ensures Inspected(seats[tid := seat'], tids)
  {
    var more := seats[tid := seat'];
    forall i | i in more && (more[i].stage.QProbe? || more[i].stage.QRemove?) ensures TakesOver(more, more[i]) && more[i].sawHolder in tids {
      if i != tid { assert TakesOver(seats, seats[i]); }
    }
  }

  /** A call steps from one stage to another. */
  lemma PutKeeps(c: Config, l: Locks, tid: Tid, seat': Seat, active: set<Owner>, writer: Lock, arbiter: Option<Tid>)
    requires tid in l.seats && PutOk(l, tid, l.seats[tid], seat', writer, arbiter)
    requires l.active <= active && (seat'.stage.Working? && !seat'.reconcile ==> seat'.owner in active)
    requires seat'.stage.QProbe? || seat'.stage.QRemove? ==> TakesOver(l.seats[tid := seat'], seat') && seat'.sawHolder in l.tids
    requires PinOk(c, l, tid, seat', writer)
    requires LocksOk(c, l)
    ensures LocksOk(c, l.(seats := l.seats[tid := seat'], active := active, writer := writer, arbiter := arbiter))
  {
    PutApart(c, l.seats, tid, seat');
    PutInspected(l.seats, l.tids, tid, seat');
    PutPinned(c, l, tid, seat', writer);
    PutKeysApart(c, l.seats, tid, seat');
    hide Apart, Inspected, TakesOver, Pinned, KeysApart, PinOk;
  }

  /** A call ends; it may clear its mark, and give back what it alone holds. */
  lemma LeaveKeeps(c: Config, l: Locks, tid: Tid, active: set<Owner>, writer: Lock, arbiter: Option<Tid>)
    requires tid in l.seats
    requires writer != l.writer ==> NobodyElse(l.seats, tid) && writer.Free?
    requires arbiter != l.arbiter ==> NoOtherArbiter(l.seats, tid)
    requires active == l.active || (active == l.active - {l.seats[tid].owner} && NobodyElse(l.seats, tid))
    requires c.apart && writer != l.writer ==> NobodyInspects(l.seats, tid)
    requires LocksOk(c, l)
    ensures LocksOk(c, l.(seats := l.seats - {tid}, active := active, writer := writer, arbiter := arbiter))
  {
    LeaveInspected(l.seats, l.tids, tid);
    LeavePinned(c, l.seats, l.writer, tid, writer);
    hide Inspected, Pinned, NobodyInspects;
  }

  lemma LeavePinned(c: Config, seats: map<Tid, Seat>, writer: Lock, tid: Tid, writer': Lock)
    requires tid in seats && Pinned(c, seats, writer) && (c.apart && writer' != writer ==> NobodyInspects(seats, tid))
    ensures Pinned(c, seats - {tid}, writer')
  {}

  lemma LeaveInspected(seats: map<Tid, Seat>, tids: set<Tid>, tid: Tid)
    requires tid in seats && Inspected(seats, tids)
    ensures Inspected(seats - {tid}, tids)
  {
    var less := seats - {tid};
    forall i | i in less && (less[i].stage.QProbe? || less[i].stage.QRemove?) ensures TakesOver(less, less[i]) && less[i].sawHolder in tids {
      assert TakesOver(seats, seats[i]);
    }
  }

  /** What a call knows of the locks from its own stage. */
  lemma OwnView(c: Config, l: Locks, tid: Tid)
    requires tid in l.seats && LocksOk(c, l)
    ensures var seat := l.seats[tid];
      && (Holding(seat.stage) ==> l.writer == LockOf(tid, seat) && NobodyElse(l.seats, tid))
      && (l.writer.Free? ==> NobodyElse(l.seats, tid))
      && (seat.arbiter ==> l.arbiter == Some(tid) && NoOtherArbiter(l.seats, tid))
      && (l.arbiter.None? ==> NoOtherArbiter(l.seats, tid))
      && (seat.stage.QRemove? ==> seat.sawHolder !in l.seats)
      && (!seat.reconcile ==> seat.stage.RLock? || seat.stage.Making? || seat.stage.Working?)
      && (!Holding(seat.stage) && l.writer.Held? && l.writer.owner.Some? ==> l.writer.holder != tid)
      && (c.apart && (Holding(seat.stage) || l.writer.Free? || Inspecting(seat.stage)) ==> NobodyInspects(l.seats, tid))
      && (c.apart && Inspecting(seat.stage) ==>
            l.writer == Held(Some(seat.sawOwner), seat.sawHolder) && seat.sawHolder !in l.seats && seat.sawOwner.key == seat.owner.key)
  {
    var seat := l.seats[tid];
    if Holding(seat.stage) || l.writer.Free? { AloneWhen(l.seats, l.writer, tid); }
    if seat.arbiter || l.arbiter.None? { ArbiterAlone(l.seats, l.arbiter, tid); }
    if seat.stage.QRemove? { assert TakesOver(l.seats, seat); }
    if c.apart && (Holding(seat.stage) || l.writer.Free? || Inspecting(seat.stage)) { InspectsAlone(c, l.seats, l.writer, tid); }
    hide Apart, Living, Marked, NobodyElse, NoOtherArbiter, TakesOver, NobodyInspects, KeysApart;
  }

  lemma RunTurnKeeps(c: Config, l: Locks, tid: Tid, release: bool, how: How)
    requires tid in l.seats && (l.seats[tid].stage.RLock? || l.seats[tid].stage.Making? || l.seats[tid].stage.Working?)
    requires LocksOk(c, l)
    ensures LocksOk(c, Turn(c, l, tid, l.seats[tid], release, how))
  {
    OwnView(c, l, tid);
    hide LocksOk, NobodyElse, NoOtherArbiter, NobodyInspects, TakesOver;
    var seat, t := l.seats[tid], Turn(c, l, tid, l.seats[tid], release, how);
    if tid in t.seats {
      PutKeeps(c, l, tid, t.seats[tid], t.active, t.writer, t.arbiter);
      assert t == l.(seats := l.seats[tid := t.seats[tid]], active := t.active, writer := t.writer, arbiter := t.arbiter);
    } else {
      LeaveKeeps(c, l, tid, t.active, t.writer, t.arbiter);
    }
  }

  /** Reading the owner file: whoever left it is gone, or is working under exactly that lock. */
  lemma ReadIsRight(c: Config, l: Locks, tid: Tid)
    requires tid in l.seats && l.seats[tid].stage.QRead? && l.writer.Held? && l.writer.owner.Some? && LocksOk(c, l)
    ensures l.writer.holder in l.tids && l.writer.holder != tid
    ensures l.writer.holder in l.seats ==>
      var holder := l.seats[l.writer.holder]; (holder.stage.Working? || holder.stage.QReady?) && holder.owner == l.writer.owner.value
  {
    hide Apart, Marked, Arbitrated, Inspected, Pinned, KeysApart;
  }

  /** With the calls apart, whoever left a lock of this call's key is gone. */
  lemma ReadApart(c: Config, l: Locks, tid: Tid)
    requires c.apart && tid in l.seats && l.seats[tid].stage.QRead? && l.writer.Held? && l.writer.owner.Some? && LocksOk(c, l)
    requires l.writer.owner.value.key == l.seats[tid].owner.key
    ensures l.writer.holder !in l.seats
  {
    ReadIsRight(c, l, tid);
    hide Exclusive, Owned, Apart, Marked, Arbitrated, Inspected, Pinned, Living;
  }

  /** The lock a take-over removes was left by a call that is gone: no live call loses it. */
  lemma RemoveIsRight(c: Config, l: Locks, tid: Tid)
    requires Trusted(c) && tid in l.seats && l.seats[tid].stage.QRemove? && MayRemove(c, l, l.seats[tid]) && LocksOk(c, l)
    ensures l.writer.holder == l.seats[tid].sawHolder && NobodyElse(l.seats, tid)
  {
    OwnView(c, l, tid);
    AloneWhen(l.seats, l.writer, tid);
  }

  lemma AskTurnKeeps(c: Config, l: Locks, tid: Tid, release: bool, how: How)
    requires tid in l.seats && l.seats[tid].reconcile && (l.seats[tid].stage.QExists? || l.seats[tid].stage.QArbiter? || l.seats[tid].stage.QDrop?)
    requires Trusted(c) && LocksOk(c, l)
    ensures LocksOk(c, Turn(c, l, tid, l.seats[tid], release, how))
  {
    OwnView(c, l, tid);
    var seat, t := l.seats[tid], Turn(c, l, tid, l.seats[tid], release, how);
    hide LocksOk, NobodyElse, NoOtherArbiter, NobodyInspects, MayTakeOver, MayRemove, Trusted;
    if t == l { return; }
    if tid in t.seats {
      PutKeeps(c, l, tid, t.seats[tid], t.active, t.writer, t.arbiter);
      assert t == l.(seats := l.seats[tid := t.seats[tid]], active := t.active, writer := t.writer, arbiter := t.arbiter);
    } else {
      LeaveKeeps(c, l, tid, t.active, t.writer, t.arbiter);
    }
  }

  lemma InspectTurnKeeps(c: Config, l: Locks, tid: Tid, release: bool, how: How)
    requires tid in l.seats && l.seats[tid].reconcile && (l.seats[tid].stage.QRead? || l.seats[tid].stage.QProbe?)
    requires Trusted(c) && LocksOk(c, l)
    ensures LocksOk(c, Turn(c, l, tid, l.seats[tid], release, how))
  {
    OwnView(c, l, tid);
    var seat, t := l.seats[tid], Turn(c, l, tid, l.seats[tid], release, how);
    if seat.stage.QRead? && l.writer.Held? && l.writer.owner.Some? {
      ReadIsRight(c, l, tid);
      if c.apart && l.writer.owner.value.key == seat.owner.key { ReadApart(c, l, tid); }
    }
    if seat.stage.QProbe? && MayTakeOver(c, l, seat) { ProbeIsRight(c, l, tid); }
    hide LocksOk, NobodyElse, NoOtherArbiter, NobodyInspects, MayTakeOver, MayRemove, Trusted;
    if t == l { return; }
    if tid in t.seats {
      PutKeeps(c, l, tid, t.seats[tid], t.active, t.writer, t.arbiter);
      assert t == l.(seats := l.seats[tid := t.seats[tid]], active := t.active, writer := t.writer, arbiter := t.arbiter);
    } else {
      LeaveKeeps(c, l, tid, t.active, t.writer, t.arbiter);
    }
  }

  lemma TakeTurnKeeps(c: Config, l: Locks, tid: Tid, release: bool, how: How)
    requires tid in l.seats && l.seats[tid].reconcile && (l.seats[tid].stage.QRemove? || l.seats[tid].stage.QTake? || l.seats[tid].stage.QReady?)
    requires Trusted(c) && LocksOk(c, l)
    ensures LocksOk(c, Turn(c, l, tid, l.seats[tid], release, how))
  {
    OwnView(c, l, tid);
    var seat, t := l.seats[tid], Turn(c, l, tid, l.seats[tid], release, how);
    if seat.stage.QRemove? && MayRemove(c, l, seat) { RemoveIsRight(c, l, tid); }
    hide LocksOk, NobodyElse, NoOtherArbiter, NobodyInspects, MayTakeOver, MayRemove, Trusted;
    if t == l { return; }
    if tid in t.seats {
      PutKeeps(c, l, tid, t.seats[tid], t.active, t.writer, t.arbiter);
      assert t == l.(seats := l.seats[tid := t.seats[tid]], active := t.active, writer := t.writer, arbiter := t.arbiter);
    } else {
      LeaveKeeps(c, l, tid, t.active, t.writer, t.arbiter);
    }
  }

  lemma TurnKeeps(c: Config, l: Locks, tid: Tid, release: bool, how: How)
    requires Trusted(c) && tid in l.seats && LocksOk(c, l)
    ensures LocksOk(c, Turn(c, l, tid, l.seats[tid], release, how))
  {
    hide Turn, Exclusive, Owned, Arbitrated, Living, Marked, Apart, Inspected, Pinned, KeysApart, Trusted;
    if l.seats[tid].stage.RLock? || l.seats[tid].stage.Making? || l.seats[tid].stage.Working? {
      RunTurnKeeps(c, l, tid, release, how);
    } else {
      assert l.seats[tid].reconcile by { OwnView(c, l, tid); }
      if l.seats[tid].stage.QRead? || l.seats[tid].stage.QProbe? {
        InspectTurnKeeps(c, l, tid, release, how);
      } else if l.seats[tid].stage.QExists? || l.seats[tid].stage.QArbiter? || l.seats[tid].stage.QDrop? {
        AskTurnKeeps(c, l, tid, release, how);
      } else {
        TakeTurnKeeps(c, l, tid, release, how);
      }
    }
  }

  /** A call that may start stands apart as its configuration asks. */
  lemma StartsApart(c: Config, s: Sys, tid: Tid, owner: Owner, reconcile: bool)
    requires MayStart(c, s.locks, tid, owner, reconcile) && tid !in s.locks.seats && Apart(c, s.locks.seats) && KeysApart(c, s.locks.seats)
    ensures var seats := Start(s, tid, owner, reconcile).locks.seats; Apart(c, seats) && KeysApart(c, seats)
  {}

  lemma StartInspected(c: Config, s: Sys, tid: Tid, owner: Owner, reconcile: bool)
    requires tid !in s.locks.tids && tid !in s.locks.seats && Inspected(s.locks.seats, s.locks.tids) && Pinned(c, s.locks.seats, s.locks.writer)
    ensures var l := Start(s, tid, owner, reconcile).locks; Inspected(l.seats, l.tids) && Pinned(c, l.seats, l.writer)
  {
    var l, more := s.locks, Start(s, tid, owner, reconcile).locks;
    forall i | i in more.seats && (more.seats[i].stage.QProbe? || more.seats[i].stage.QRemove?)
      ensures TakesOver(more.seats, more.seats[i]) && more.seats[i].sawHolder in more.tids
    {
      assert TakesOver(l.seats, l.seats[i]) && l.seats[i].sawHolder in l.tids;
    }
  }

  lemma StartKeeps(c: Config, s: Sys, tid: Tid, owner: Owner, reconcile: bool)
    requires MayStart(c, s.locks, tid, owner, reconcile) && LocksOk(c, s.locks)
    ensures LocksOk(c, Start(s, tid, owner, reconcile).locks)
  {
    assert tid !in s.locks.seats by { hide Exclusive, Owned, Inspected, Apart, Pinned, KeysApart; }
    StartsApart(c, s, tid, owner, reconcile);
    StartInspected(c, s, tid, owner, reconcile);
    hide Apart, Inspected, Pinned, KeysApart, Overlaps, Keyed;
  }

  lemma DieKeeps(c: Config, l: Locks, inst: Inst)
    requires LocksOk(c, l)
    ensures LocksOk(c, Die(l, inst))
  {
    var less := Die(l, inst);
    forall i | i in less.seats && (less.seats[i].stage.QProbe? || less.seats[i].stage.QRemove?)
      ensures TakesOver(less.seats, less.seats[i]) && less.seats[i].sawHolder in less.tids
    {
      assert TakesOver(l.seats, l.seats[i]);
    }
    hide TakesOver;
  }
}
