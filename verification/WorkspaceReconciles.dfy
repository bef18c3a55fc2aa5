/** What a reconciliation answers: how it comes by the lock, what it concludes from HEAD and the record, and what it leaves. */
module WorkspaceReconciles {
  import opened Options
  import opened Workspace
  import opened WorkspaceSteps
  import opened WorkspaceRuns
  import opened WorkspaceAnswers

  // ---- coming by the lock ---------------------------------------------------------------------------------------------------

  /** A lock directory that a call for the same key left: by a process that has died, or by this one and no run of it is under way. */
  predicate Left(l: Locks, owner: Owner) {
    && l.writer.Held? && l.writer.owner.Some? && l.writer.owner.value.key == owner.key
    && (l.writer.owner.value.inst in l.dead || (l.writer.owner.value.inst == owner.inst && owner !in l.active))
  }

  const STAGES := [QExists, QArbiter, QRead, QProbe, QRemove, QTake, Making, QReady, QReady, Working]

  /** The seat and the locks after `n` steps of a call that takes over the lock it found. */
  function SeatAt(l: Locks, owner: Owner, n: nat): Seat
    requires n < 10 && l.writer.Held? && l.writer.owner.Some?
  {
    Seat(owner, true, STAGES[n], owner in l.active, 2 <= n < 8, if n >= 3 then l.writer.owner.value else owner, if n >= 3 then l.writer.holder else 0)
  }

  function LocksAt(l: Locks, tid: Tid, owner: Owner, n: nat): Locks
    requires n < 10 && l.writer.Held? && l.writer.owner.Some?
  {
    l.(tids := l.tids + {tid}, seats := l.seats[tid := SeatAt(l, owner, n)], arbiter := if 2 <= n < 8 then Some(tid) else None,
       writer := if n < 5 then l.writer else if n == 5 then Free else if n == 6 then Held(None, tid) else Held(Some(owner), tid))
  }

  function Taken(n: nat): How { if n == 7 then DropArbiter else Well }

  lemma TakesOverStep(c: Config, l: Locks, tid: Tid, owner: Owner, n: nat)
    requires n < 9 && l.arbiter.None? && Left(l, owner)
    ensures Turn(c, LocksAt(l, tid, owner, n), tid, SeatAt(l, owner, n), false, Taken(n)) == LocksAt(l, tid, owner, n + 1)
  {
    assert l.seats[tid := SeatAt(l, owner, n)][tid := SeatAt(l, owner, n + 1)] == l.seats[tid := SeatAt(l, owner, n + 1)];
  }

  const FREE_STAGES := [QExists, QTake, Making, QReady, Working]

  function FreeSeat(l: Locks, owner: Owner, n: nat): Seat
    requires n < 5
  {
    Seat(owner, true, FREE_STAGES[n], owner in l.active, false, owner, 0)
  }

  /** The locks after `n` steps of a call that found the lock free. */
  function FreeAt(l: Locks, tid: Tid, owner: Owner, n: nat): Locks
    requires n < 5
  {
    l.(tids := l.tids + {tid}, seats := l.seats[tid := FreeSeat(l, owner, n)],
       writer := if n < 2 then l.writer else if n == 2 then Held(None, tid) else Held(Some(owner), tid))
  }

  lemma TakesFreeStep(c: Config, l: Locks, tid: Tid, owner: Owner, n: nat)
    requires n < 4 && l.writer.Free?
    ensures Turn(c, FreeAt(l, tid, owner, n), tid, FreeSeat(l, owner, n), false, Well) == FreeAt(l, tid, owner, n + 1)
  {
    assert l.seats[tid := FreeSeat(l, owner, n)][tid := FreeSeat(l, owner, n + 1)] == l.seats[tid := FreeSeat(l, owner, n + 1)];
  }

  /** The call may begin, and the lock is free or to be taken over with nobody else at it. */
  predicate MayReconcile(c: Config, s: Sys, tid: Tid, owner: Owner) {
    MayStart(c, s.locks, tid, owner, true) && (s.locks.writer.Free? || (s.locks.arbiter.None? && Left(s.locks, owner)))
  }

  /** The steps to the lock. */
  function Entering(l: Locks): (r: seq<How>)
    ensures |r| == (if l.writer.Free? then 4 else 9)
  {
    if l.writer.Free? then [Well, Well, Well, Well] else [Well, Well, Well, Well, Well, Well, Well, DropArbiter, Well]
  }

  function EnteringAt(l: Locks, tid: Tid, owner: Owner, n: nat): Locks
    requires n <= |Entering(l)| && (l.writer.Free? || Left(l, owner))
  {
    if l.writer.Free? then FreeAt(l, tid, owner, n) else LocksAt(l, tid, owner, n)
  }

  lemma EnteringStep(c: Config, l: Locks, tid: Tid, owner: Owner, n: nat)
    requires n < |Entering(l)| && (l.writer.Free? || (l.arbiter.None? && Left(l, owner)))
    ensures var m := EnteringAt(l, tid, owner, n);
      && tid in m.seats && !m.seats[tid].stage.Working?
      && Turn(c, m, tid, m.seats[tid], false, Entering(l)[n]) == EnteringAt(l, tid, owner, n + 1)
  {
    if l.writer.Free? { TakesFreeStep(c, l, tid, owner, n); } else { TakesOverStep(c, l, tid, owner, n); }
    hide Turn;
  }

  lemma {:induction false} Enters(c: Config, s: Sys, l: Locks, tid: Tid, owner: Owner, n: nat)
    requires n <= |Entering(l)| && (l.writer.Free? || (l.arbiter.None? && Left(l, owner)))
    requires tid in s.work && !s.work[tid].release && s.locks == EnteringAt(l, tid, owner, n)
    ensures Lead(c, s, Own(tid, Entering(l)[n..])) == s.(locks := EnteringAt(l, tid, owner, |Entering(l)|))
    decreases |Entering(l)| - n
  {
    if n < |Entering(l)| {
      EnteringStep(c, l, tid, owner, n);
      var next := s.(locks := EnteringAt(l, tid, owner, n + 1));
      assert Next(c, s, Go(tid, Entering(l)[n])) == next by { hide Turn, EnteringAt, Entering, Left; }
      hide Next, EnteringAt, Left;
      OwnStep(c, s, tid, Entering(l)[n..]);
      assert Entering(l)[n..][1..] == Entering(l)[n + 1..];
      Enters(c, next, l, tid, owner, n + 1);
    }
  }

  /** The call is let in: it has the lock and works, and nothing else has changed but what it took over. */
  lemma LetIn(c: Config, s: Sys, tid: Tid, owner: Owner)
    requires MayReconcile(c, s, tid, owner)
    ensures var r := Run(c, s, [StartReconcile(tid, owner)] + Own(tid, Entering(s.locks)));
      && Holds(r, tid) && r.disk == s.disk && r.work[tid] == Task(owner.key, true, QHead, 0, None, Failed, false, false, false, 0)
      && r.locks.seats[tid].owner == owner && r.locks.seats[tid].reconcile
      && r.locks == s.locks.(tids := s.locks.tids + {tid}, writer := Held(Some(owner), tid), seats := s.locks.seats[tid := r.locks.seats[tid]])
  {
    var l, s1 := s.locks, Start(s, tid, owner, true);
    Begins(s, tid, owner);
    assert Next(c, s, StartReconcile(tid, owner)) == s1 by { hide MayStart; }
    Enters(c, s1, l, tid, owner, 0);
    assert Entering(l)[0..] == Entering(l);
    hide Next, Own, MayStart;
    LeadStep(c, s, StartReconcile(tid, owner), Own(tid, Entering(l)));
    LeadIsRun(c, s, [StartReconcile(tid, owner)] + Own(tid, Entering(l)));
  }

  lemma Begins(s: Sys, tid: Tid, owner: Owner)
    requires s.locks.writer.Free? || (s.locks.arbiter.None? && Left(s.locks, owner))
    ensures Start(s, tid, owner, true).locks == EnteringAt(s.locks, tid, owner, 0)
  {}

  // ---- being turned away ------------------------------------------------------------------------------------------------------

  /** A lock step, or none when the call has left. */
  function Turned(c: Config, l: Locks, tid: Tid, how: How): Locks {
    if tid in l.seats then Turn(c, l, tid, l.seats[tid], false, how) else l
  }

  lemma ArbiterTaken(c: Config, l: Locks, tid: Tid, seat: Seat)
    requires l.writer.Held? && l.arbiter.Some? && seat.stage.QExists?
    ensures var m := Turned(c, Put(l, tid, seat), tid, Well); Turned(c, m, tid, Well) == l.(seats := l.seats - {tid})
  {
    assert l.seats[tid := seat][tid := seat.(stage := QArbiter)] - {tid} == l.seats - {tid};
  }

  lemma ReachesRead(c: Config, l: Locks, tid: Tid, seat: Seat)
    requires l.writer.Held? && l.arbiter.None? && seat.stage.QExists?
    ensures var m := Turned(c, Put(l, tid, seat), tid, Well);
      Turned(c, m, tid, Well) == Put(l, tid, seat.(stage := QRead, arbiter := true)).(arbiter := Some(tid))
  {
    var at, rd := seat.(stage := QArbiter), seat.(stage := QRead, arbiter := true);
    assert l.seats[tid := seat][tid := at][tid := rd] == l.seats[tid := rd];
  }

  lemma ReadElsewhere(c: Config, l: Locks, tid: Tid, seat: Seat)
    requires l.arbiter.None? && seat.stage.QRead? && seat.arbiter
    requires !(l.writer.Held? && l.writer.owner.Some? && l.writer.owner.value.key == seat.owner.key)
    ensures var m := Turned(c, Put(l, tid, seat).(arbiter := Some(tid)), tid, Well); Turned(c, m, tid, Well) == l.(seats := l.seats - {tid})
  {
    assert l.seats[tid := seat][tid := seat.(stage := QDrop)] - {tid} == l.seats - {tid};
  }

  lemma ProbedAlive(c: Config, l: Locks, tid: Tid, seat: Seat)
    requires l.arbiter.None? && seat.stage.QRead? && seat.arbiter && (seat.sawActive <==> seat.owner in l.active)
    requires l.writer.Held? && l.writer.owner.Some? && l.writer.owner.value.key == seat.owner.key && !Left(l, seat.owner)
    ensures var m := Turned(c, Turned(c, Put(l, tid, seat).(arbiter := Some(tid)), tid, Well), tid, Well);
      Turned(c, m, tid, Well) == l.(seats := l.seats - {tid})
  {
    var saw := seat.(sawOwner := l.writer.owner.value, sawHolder := l.writer.holder, stage := QProbe);
    assert l.seats[tid := seat][tid := saw] == l.seats[tid := saw];
    assert l.seats[tid := saw][tid := saw.(stage := QDrop)] - {tid} == l.seats - {tid};
  }

  /** Lock steps of a call that never works lead from `l` to `m`. */
  ghost predicate Turns(c: Config, l: Locks, tid: Tid, hows: seq<How>, m: Locks)
    decreases |hows|
  {
    if |hows| == 0 then m == l
    else (tid in l.seats ==> !l.seats[tid].stage.Working?) && Turns(c, Turned(c, l, tid, hows[0]), tid, hows[1..], m)
  }

  lemma {:induction false} LeadTurns(c: Config, s: Sys, tid: Tid, hows: seq<How>, m: Locks)
    requires tid in s.work && !s.work[tid].release && Turns(c, s.locks, tid, hows, m)
    ensures Lead(c, s, Own(tid, hows)) == s.(locks := m)
    decreases |hows|
  {
    hide Turn;
    if |hows| > 0 {
      OwnStep(c, s, tid, hows);
      LeadTurns(c, s.(locks := Turned(c, s.locks, tid, hows[0])), tid, hows[1..], m);
    }
  }

  lemma TurnsOne(c: Config, l: Locks, tid: Tid, how: How, k: Locks, rest: seq<How>, m: Locks)
    requires (tid in l.seats ==> !l.seats[tid].stage.Working?) && Turned(c, l, tid, how) == k && Turns(c, k, tid, rest, m)
    ensures Turns(c, l, tid, [how] + rest, m)
  {
    assert ([how] + rest)[1..] == rest;
    hide Turned;
  }

  const FIVE := [Well, Well, Well, Well, Well]

  /** Whoever has left stays away. */
  lemma {:induction false} StaysAway(c: Config, l: Locks, tid: Tid, hows: seq<How>)
    requires tid !in l.seats
    ensures Turns(c, l, tid, hows, l)
    decreases |hows|
  {
    if |hows| > 0 { StaysAway(c, l, tid, hows[1..]); }
  }

  /** Another's arbiter, a lock of another key, one without an owner file, or one whose owner is still there: nothing is taken. */
  lemma NotLetIn(c: Config, l: Locks, tid: Tid, seat: Seat)
    requires l.writer.Held? && (l.arbiter.Some? || !Left(l, seat.owner)) && seat.stage.QExists? && !seat.arbiter
    requires seat.sawActive <==> seat.owner in l.active
    ensures Turns(c, Put(l, tid, seat), tid, FIVE, l.(seats := l.seats - {tid}))
  {
    var l0, gone := Put(l, tid, seat), l.(seats := l.seats - {tid});
    var l1 := Put(l, tid, seat.(stage := QArbiter));
    assert Turned(c, l0, tid, Well) == l1 by { assert l.seats[tid := seat][tid := seat.(stage := QArbiter)] == l1.seats; }
    StaysAway(c, gone, tid, [Well]);
    StaysAway(c, gone, tid, [Well, Well, Well]);
    StaysAway(c, gone, tid, []);
    if l.arbiter.Some? {
      ArbiterTaken(c, l, tid, seat);
      hide Turn, Left, Turned, Turns;
      TurnsOne(c, l1, tid, Well, gone, [Well, Well, Well], gone);
      TurnsOne(c, l0, tid, Well, l1, [Well] + [Well, Well, Well], gone);
    } else {
      ReachesRead(c, l, tid, seat);
      var rd := seat.(stage := QRead, arbiter := true);
      var l2 := Put(l, tid, rd).(arbiter := Some(tid));
      ReadsOn(c, l, tid, rd);
      hide Turn, Left, Turned, Turns;
      TurnsOne(c, l1, tid, Well, l2, [Well, Well, Well], gone);
      TurnsOne(c, l0, tid, Well, l1, [Well] + [Well, Well, Well], gone);
    }
    assert FIVE == [Well] + ([Well] + [Well, Well, Well]);
  }

  lemma ReadsOn(c: Config, l: Locks, tid: Tid, rd: Seat)
    requires l.writer.Held? && l.arbiter.None? && !Left(l, rd.owner) && rd.stage.QRead? && rd.arbiter && (rd.sawActive <==> rd.owner in l.active)
    ensures Turns(c, Put(l, tid, rd).(arbiter := Some(tid)), tid, [Well, Well, Well], l.(seats := l.seats - {tid}))
  {
    var l2, gone := Put(l, tid, rd).(arbiter := Some(tid)), l.(seats := l.seats - {tid});
    var l3 := Turned(c, l2, tid, Well);
    var l4 := Turned(c, l3, tid, Well);
    assert !l3.seats[tid].stage.Working? by { hide Left; }
    if l.writer.owner.Some? && l.writer.owner.value.key == rd.owner.key {
      ProbedAlive(c, l, tid, rd);
      assert tid in l4.seats && !l4.seats[tid].stage.Working? by { hide Left; }
    } else {
      ReadElsewhere(c, l, tid, rd);
      assert Turned(c, l4, tid, Well) == gone by { hide Turn; }
    }
    StaysAway(c, gone, tid, []);
    hide Turn, Turned, Left, Turns;
    TurnsOne(c, l4, tid, Well, gone, [], gone);
    TurnsOne(c, l3, tid, Well, l4, [Well] + [], gone);
    TurnsOne(c, l2, tid, Well, l3, [Well] + ([Well] + []), gone);
    assert [Well, Well, Well] == [Well] + ([Well] + ([Well] + []));
  }

  /** A call that finds the lock in use leaves everything as it was. */
  lemma TurnedAway(c: Config, s: Sys, tid: Tid, owner: Owner)
    requires MayStart(c, s.locks, tid, owner, true) && s.locks.writer.Held? && !MayReconcile(c, s, tid, owner)
    ensures var r := Run(c, s, [StartReconcile(tid, owner)] + Own(tid, FIVE));
      r.disk == s.disk && r.locks == s.locks.(tids := s.locks.tids + {tid}, seats := s.locks.seats - {tid})
  {
    var l, s1 := s.locks, Start(s, tid, owner, true);
    assert Next(c, s, StartReconcile(tid, owner)) == s1 by { hide MayStart; }
    var k, seat := l.(tids := l.tids + {tid}), s1.locks.seats[tid];
    assert s1.locks == Put(k, tid, seat);
    NotLetIn(c, k, tid, seat);
    LeadTurns(c, s1, tid, FIVE, k.(seats := k.seats - {tid}));
    hide Next, Own, MayStart, Turns;
    LeadStep(c, s, StartReconcile(tid, owner), Own(tid, FIVE));
    LeadIsRun(c, s, [StartReconcile(tid, owner)] + Own(tid, FIVE));
  }

  // ---- what is concluded ------------------------------------------------------------------------------------------------------

  /** The effect was prepared and not yet told of, and HEAD tells whether it was published. */
  predicate Untold(d: Disk, key: Key) {
    && key in d.records && d.records[key].completed.None? && key !in d.receipts
    && (d.records[key].after == Some(d.head) || d.records[key].before == d.head)
  }

  /** Where a completed record says HEAD is: on the target if the effect was applied, else on its base. */
  predicate Stands(r: Record, head: Base) { if r.completed == Some(Applied) then r.after == Some(head) else r.before == head }

  /** The record is completed and its receipt never reached the journal; HEAD is where the record says. */
  predicate Unsent(d: Disk, key: Key) {
    key in d.records && d.records[key].completed.Some? && key !in d.receipts && Stands(d.records[key], d.head)
  }

  /** The record is completed and the journal has a receipt, and HEAD is where the record says. */
  predicate SettledOn(d: Disk, key: Key) {
    key in d.records && d.records[key].completed.Some? && key in d.receipts && Stands(d.records[key], d.head)
  }

  /** The record is not completed, HEAD tells of the effect, and yet the journal has a receipt. */
  predicate Crossed(d: Disk, key: Key) {
    && key in d.records && d.records[key].completed.None? && key in d.receipts
    && (d.records[key].after == Some(d.head) || d.records[key].before == d.head)
  }

  /** The effect was applied, and later applications of its session led HEAD on. */
  predicate Followed(c: Config, d: Disk, key: Key) { key in d.records && KnownSuccessor(c, d.applied, key, d.records[key], d.head) }

  /** There is no record of the effect, or HEAD does not tell of it. */
  predicate Unclear(c: Config, d: Disk, key: Key) {
    key in d.records ==>
      var r := d.records[key];
      !Followed(c, d, key) && if r.completed.Some? then !Stands(r, d.head) else r.after != Some(d.head) && r.before != d.head
  }

  /** There is no other case. */
  lemma Exhaustive(c: Config, d: Disk, key: Key)
    ensures Untold(d, key) || Unsent(d, key) || SettledOn(d, key) || Crossed(d, key) || Followed(c, d, key) || Unclear(c, d, key)
  {}

  predicate Looks(t: Task) { t.pc.QHead? && !t.release }

  lemma Looked(c: Config, tid: Tid, d: Disk, t: Task, rest: seq<How>, e: Disk, u: Task)
    requires t.pc.QHead? && Leads(c, tid, d, t.(current := d.head, pc := QDecide), rest, e, u)
    ensures Leads(c, tid, d, t, [Well] + rest, e, u)
  {
    assert Work(c, d, tid, t, Well) == (d, t.(current := d.head, pc := QDecide));
    hide Work, Leads;
    LeadsOne(c, tid, d, t, Well, d, t.(current := d.head, pc := QDecide), rest, e, u);
  }

  lemma Decided(c: Config, tid: Tid, d: Disk, t: Task, v: Task, rest: seq<How>, e: Disk, u: Task)
    requires t.pc.QHead? && t.key in d.records && Decide(c, d, t.(current := d.head, pc := QDecide), d.records[t.key]) == v
    requires Leads(c, tid, d, v, rest, e, u)
    ensures Leads(c, tid, d, t, [Well, Well] + rest, e, u)
  {
    var saw := t.(current := d.head, pc := QDecide);
    assert Work(c, d, tid, saw, Well) == (d, v) by { hide Decide, Leads; }
    hide Work, Leads, Decide;
    LeadsOne(c, tid, d, saw, Well, d, v, rest, e, u);
    Looked(c, tid, d, t, [Well] + rest, e, u);
    assert [Well, Well] + rest == [Well] + ([Well] + rest);
  }

  /** HEAD on the target means that the effect was applied, HEAD on its base that it was not. */
  lemma UntoldLeads(c: Config, tid: Tid, d: Disk, t: Task) returns (u: Task)
    requires Looks(t) && Untold(d, t.key)
    ensures var r := d.records[t.key];
      Leads(c, tid, d, t, [Well, Well, Well, Well], Closed(d, t.key, r.before, r.after, if r.after == Some(d.head) then Applied else NotExecuted), u)
    ensures u.pc.End? && u.release
  {
    var r := d.records[t.key];
    var status := if r.after == Some(d.head) then Applied else NotExecuted;
    var v := t.(current := d.head, before := r.before, after := r.after, status := status, pc := QFinish);
    assert Decide(c, d, t.(current := d.head, pc := QDecide), r) == v;
    FinishLeads(c, tid, d, v);
    u := v.(release := true, pc := End);
    hide Decide, Leads, Closed;
    Decided(c, tid, d, t, v, [Well, Well], Closed(d, t.key, r.before, r.after, status), u);
    assert [Well, Well] + [Well, Well] == [Well, Well, Well, Well];
  }

  /** A receipt that was written down and not sent is sent. */
  lemma UnsentLeads(c: Config, tid: Tid, d: Disk, t: Task) returns (u: Task)
    requires Looks(t) && Unsent(d, t.key)
    ensures var r := d.records[t.key];
      Leads(c, tid, d, t, [Well, Well, Well], Closed(d, t.key, r.before, r.after, r.completed.value), u)
    ensures u.pc.End? && u.release
  {
    var r := d.records[t.key];
    var v := t.(current := d.head, before := r.before, after := r.after, status := r.completed.value, pc := QCommit);
    assert Decide(c, d, t.(current := d.head, pc := QDecide), r) == v by { hide Closed; }
    var e := Closed(d, t.key, r.before, r.after, r.completed.value);
    u := v.(release := true, pc := End);
    CommitStores(c, tid, d, v);
    assert Leads(c, tid, e, u, [], e, u);
    hide Decide, Leads, Closed, Work;
    LeadsOne(c, tid, d, v, Well, e, u, [], e, u);
    assert [Well] + [] == [Well];
    Decided(c, tid, d, t, v, [Well], e, u);
    assert [Well, Well] + [Well] == [Well, Well, Well];
  }

  /** In every other case nothing is written; the lock is given back exactly when the journal and the record agree, or HEAD was led on. */
  lemma OtherwiseLeads(c: Config, tid: Tid, d: Disk, t: Task) returns (u: Task)
    requires Looks(t) && (SettledOn(d, t.key) || Followed(c, d, t.key) || Unclear(c, d, t.key))
    ensures Leads(c, tid, d, t, [Well, Well], d, u) && u.pc.End?
    ensures u.release <==> (SettledOn(d, t.key) && Some(d.receipts[t.key]) == d.records[t.key].completed) || Followed(c, d, t.key)
  {
    var saw := t.(current := d.head, pc := QDecide);
    if t.key in d.records {
      u := Decide(c, d, saw, d.records[t.key]);
      EndsThere(c, d, saw, d.records[t.key]);
      assert Leads(c, tid, d, u, [], d, u);
      hide Decide, Leads, KnownSuccessor;
      Decided(c, tid, d, t, u, [], d, u);
      assert [Well, Well] + [] == [Well, Well];
    } else {
      u := saw.(pc := End);
      assert Leads(c, tid, d, u, [], d, u);
      assert Work(c, d, tid, saw, Well) == (d, u);
      hide Work, Leads;
      LeadsOne(c, tid, d, saw, Well, d, u, [], d, u);
      assert [Well] + [] == [Well];
      Looked(c, tid, d, t, [Well], d, u);
      assert [Well] + [Well] == [Well, Well];
    }
  }

  lemma EndsThere(c: Config, d: Disk, t: Task, r: Record)
    requires t.key in d.records && d.records[t.key] == r && t.current == d.head && !t.release
    requires SettledOn(d, t.key) || Followed(c, d, t.key) || Unclear(c, d, t.key)
    ensures var u := Decide(c, d, t, r);
      u.pc.End? && (u.release <==> (SettledOn(d, t.key) && Some(d.receipts[t.key]) == r.completed) || Followed(c, d, t.key))
  {
    if r.after == Some(d.head) { NotOnward(c, d, t.key, r); }
    hide KnownSuccessor;
  }

  /** HEAD on the effect's own target was not led on from it. */
  lemma NotOnward(c: Config, d: Disk, key: Key, r: Record)
    requires r.after == Some(d.head)
    ensures !KnownSuccessor(c, d.applied, key, r, d.head)
  {}

  /** A receipt the journal has is never replaced: the record is completed, and the lock given back only when the two agree. */
  lemma CrossedLeads(c: Config, tid: Tid, d: Disk, t: Task) returns (u: Task)
    requires Looks(t) && Crossed(d, t.key)
    ensures var r := d.records[t.key];
      var status := if r.after == Some(d.head) then Applied else NotExecuted;
      && Leads(c, tid, d, t, [Well, Well, Well, Well], d.(records := d.records[t.key := Record(r.before, r.after, Some(status))]), u)
      && u.pc.End? && (u.release <==> d.receipts[t.key] == status)
  {
    var r := d.records[t.key];
    var status := if r.after == Some(d.head) then Applied else NotExecuted;
    var v := t.(current := d.head, before := r.before, after := r.after, status := status, pc := QFinish);
    assert Decide(c, d, t.(current := d.head, pc := QDecide), r) == v;
    var e := Save(d, v, Some(status));
    FinishSaves(c, tid, d, v);
    u := v.(release := d.receipts[t.key] == status, pc := End);
    CrossedStores(c, tid, e, v.(pc := QCommit));
    assert Leads(c, tid, e, u, [], e, u);
    hide Decide, Leads, Work;
    LeadsOne(c, tid, e, v.(pc := QCommit), Well, e, u, [], e, u);
    LeadsOne(c, tid, d, v, Well, e, v.(pc := QCommit), [Well] + [], e, u);
    Decided(c, tid, d, t, v, [Well] + ([Well] + []), e, u);
    assert [Well, Well] + ([Well] + ([Well] + [])) == [Well, Well, Well, Well];
  }

  lemma CrossedStores(c: Config, tid: Tid, d: Disk, t: Task)
    requires t.pc.QCommit? && t.key in d.receipts
    ensures Work(c, d, tid, t, Well) == (d, t.(release := d.receipts[t.key] == t.status, pc := End))
  {
    assert d.receipts[t.key := d.receipts[t.key]] == d.receipts;
  }

  // ---- the answers of a reconciliation ------------------------------------------------------------------------------------

  /** The steps of a call with the lock to be had: to the lock, through `work`, and away. */
  function Script(l: Locks, tid: Tid, owner: Owner, work: seq<How>): seq<Step> {
    ([StartReconcile(tid, owner)] + Own(tid, Entering(l))) + (Own(tid, work) + [Go(tid, Well)])
  }

  /** The locks when the call has gone. */
  function Gone(l: Locks, tid: Tid, writer: Lock): Locks { l.(tids := l.tids + {tid}, seats := l.seats - {tid}, writer := writer) }

  lemma Ended(c: Config, s: Sys, tid: Tid, owner: Owner, work: seq<How>, e: Disk, u: Task)
    requires MayReconcile(c, s, tid, owner) && u.pc.End?
    requires Leads(c, tid, s.disk, Task(owner.key, true, QHead, 0, None, Failed, false, false, false, 0), work, e, u)
    ensures var r := Run(c, s, Script(s.locks, tid, owner, work));
      r.disk == e && r.locks == Gone(s.locks, tid, if u.release then Free else Held(Some(owner), tid))
  {
    LetIn(c, s, tid, owner);
    var enter := [StartReconcile(tid, owner)] + Own(tid, Entering(s.locks));
    var held := Run(c, s, enter);
    LeadsRun(c, held, tid, work, e, u);
    var done := held.(work := held.work[tid := u], disk := e);
    Departs(c, done, tid);
    LeadThen(c, held, Own(tid, work), [Go(tid, Well)]);
    LeadIsRun(c, held, Own(tid, work) + [Go(tid, Well)]);
    hide Next, Leads, Own, MayReconcile, Run, Entering;
    LeadStep(c, done, Go(tid, Well), []);
    assert [Go(tid, Well)] + [] == [Go(tid, Well)];
    RunAppend(c, s, enter, Own(tid, work) + [Go(tid, Well)]);
    assert s.locks.seats[tid := held.locks.seats[tid]] - {tid} == s.locks.seats - {tid};
  }

  lemma Departs(c: Config, s: Sys, tid: Tid)
    requires Holds(s, tid) && s.work[tid].pc.End? && s.locks.seats[tid].reconcile
    ensures var r := Next(c, s, Go(tid, Well));
      r.disk == s.disk && r.locks == s.locks.(seats := s.locks.seats - {tid}, writer := if s.work[tid].release then Free else s.locks.writer)
  {}

  /**
   * An effect that was prepared and not told of: HEAD on its target is reported `applied`, HEAD on its base
   * `not-executed`; record and journal say so, and the lock, free or taken over from whoever left it, is given back.
   */
  lemma ReconcileAnswers(c: Config, s: Sys, tid: Tid, owner: Owner)
    requires MayReconcile(c, s, tid, owner) && Untold(s.disk, owner.key)
    ensures var d, key, r := s.disk, owner.key, Run(c, s, Script(s.locks, tid, owner, [Well, Well, Well, Well]));
      var record := d.records[key];
      var status := if record.after == Some(d.head) then Applied else NotExecuted;
      && r.disk == d.(records := d.records[key := Record(record.before, record.after, Some(status))], receipts := d.receipts[key := status],
                      applied := if status == Applied then d.applied + [Confirmed(key, record.before, d.head)] else d.applied)
      && r.locks == Gone(s.locks, tid, Free)
  {
    var u := UntoldLeads(c, tid, s.disk, Task(owner.key, true, QHead, 0, None, Failed, false, false, false, 0));
    var record := s.disk.records[owner.key];
    Ended(c, s, tid, owner, [Well, Well, Well, Well],
          Closed(s.disk, owner.key, record.before, record.after, if record.after == Some(s.disk.head) then Applied else NotExecuted), u);
    hide Run, Script, Leads, MayReconcile, Gone;
  }

  /** A completed record whose receipt never reached the journal: the receipt is sent, as it was written down. */
  lemma ReconcileSends(c: Config, s: Sys, tid: Tid, owner: Owner)
    requires MayReconcile(c, s, tid, owner) && Unsent(s.disk, owner.key)
    ensures var d, key, r := s.disk, owner.key, Run(c, s, Script(s.locks, tid, owner, [Well, Well, Well]));
      var record := d.records[key];
      && r.disk == d.(receipts := d.receipts[key := record.completed.value],
                      applied := if record.completed == Some(Applied) then d.applied + [Confirmed(key, record.before, d.head)] else d.applied)
      && r.locks == Gone(s.locks, tid, Free)
  {
    var u := UnsentLeads(c, tid, s.disk, Task(owner.key, true, QHead, 0, None, Failed, false, false, false, 0));
    var record := s.disk.records[owner.key];
    assert s.disk.records[owner.key := Record(record.before, record.after, Some(record.completed.value))] == s.disk.records;
    Ended(c, s, tid, owner, [Well, Well, Well], Closed(s.disk, owner.key, record.before, record.after, record.completed.value), u);
    hide Run, Script, Leads, MayReconcile, Gone;
  }

  /** The journal's receipt is never replaced, whatever HEAD says. */
  lemma ReconcileCrossed(c: Config, s: Sys, tid: Tid, owner: Owner)
    requires MayReconcile(c, s, tid, owner) && Crossed(s.disk, owner.key)
    ensures var d, key, r := s.disk, owner.key, Run(c, s, Script(s.locks, tid, owner, [Well, Well, Well, Well]));
      var record := d.records[key];
      var status := if record.after == Some(d.head) then Applied else NotExecuted;
      && r.disk == d.(records := d.records[key := Record(record.before, record.after, Some(status))])
      && r.locks == Gone(s.locks, tid, if d.receipts[key] == status then Free else Held(Some(owner), tid))
  {
    var u := CrossedLeads(c, tid, s.disk, Task(owner.key, true, QHead, 0, None, Failed, false, false, false, 0));
    var record := s.disk.records[owner.key];
    var status := if record.after == Some(s.disk.head) then Applied else NotExecuted;
    Ended(c, s, tid, owner, [Well, Well, Well, Well],
          s.disk.(records := s.disk.records[owner.key := Record(record.before, record.after, Some(status))]), u);
    hide Run, Script, Leads, MayReconcile, Gone;
  }

  /** Otherwise nothing is written, and the lock is given back exactly when record and journal agree or HEAD was led on. */
  lemma ReconcileLeaves(c: Config, s: Sys, tid: Tid, owner: Owner)
    requires MayReconcile(c, s, tid, owner)
    requires SettledOn(s.disk, owner.key) || Followed(c, s.disk, owner.key) || Unclear(c, s.disk, owner.key)
    ensures var d, key, r := s.disk, owner.key, Run(c, s, Script(s.locks, tid, owner, [Well, Well]));
      var agree := SettledOn(d, key) && Some(d.receipts[key]) == d.records[key].completed;
      r.disk == d && r.locks == Gone(s.locks, tid, if agree || Followed(c, d, key) then Free else Held(Some(owner), tid))
  {
    var u := OtherwiseLeads(c, tid, s.disk, Task(owner.key, true, QHead, 0, None, Failed, false, false, false, 0));
    Ended(c, s, tid, owner, [Well, Well], s.disk, u);
    hide Run, Script, Leads, MayReconcile, Gone, Followed, SettledOn;
  }
}
