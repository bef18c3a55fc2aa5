/** Two runs in which live calls for one effect make a receipt lie, and the exact condition under which none does. */
module WorkspaceRaces {
  import opened Options
  import opened Workspace
  import opened WorkspaceLocks
  import opened WorkspaceData
  import opened WorkspaceRuns
  import opened WorkspaceParted

  ghost predicate Leads(c: Config, s: Sys, t: Sys) { exists steps :: Run(c, s, steps) == t }

  lemma Then(c: Config, s: Sys, t: Sys, step: Step, u: Sys)
    requires Leads(c, s, t) && Next(c, t, step) == u
    ensures Leads(c, s, u)
  {
    var steps :| Run(c, s, steps) == t;
    assert (steps + [step])[..|steps|] == steps;
    hide Next;
    assert Run(c, s, steps + [step]) == u;
  }

  lemma Begin(c: Config, s: Sys)
    ensures Leads(c, s, s)
  {
    assert Run(c, s, []) == s;
  }

  /** A working call's step, by what it does to the disk and to its variables. */
  lemma ThenWork(c: Config, s: Sys, t: Sys, tid: Tid, how: How, d: Disk, v: Task)
    requires Leads(c, s, t) && tid in t.locks.seats && tid in t.work && t.locks.seats[tid].stage.Working? && !t.work[tid].pc.End?
    requires Work(c, t.disk, tid, t.work[tid], how) == (d, v)
    ensures Leads(c, s, t.(work := t.work[tid := v], disk := d))
  {
    hide Work;
    Then(c, s, t, Go(tid, how), t.(work := t.work[tid := v], disk := d));
  }

  lemma ThenTurn(c: Config, s: Sys, t: Sys, tid: Tid, how: How, l: Locks)
    requires Leads(c, s, t) && tid in t.locks.seats && tid in t.work && (!t.locks.seats[tid].stage.Working? || t.work[tid].pc.End?)
    requires Turn(c, t.locks, tid, t.locks.seats[tid], t.work[tid].release, how) == l
    ensures Leads(c, s, t.(locks := l))
  {
    hide Turn;
    Then(c, s, t, Go(tid, how), t.(locks := l));
  }

  // ---- the pieces both runs share ---------------------------------------------------------------------------------

  function Blankly(key: Key, reconcile: bool): Task { Task(key, reconcile, if reconcile then QHead else RHead, 0, None, Failed, !reconcile, false, false, 0) }

  /** Ready to publish base 1 over base 0. */
  function ReadyTask(key: Key): Task { Task(key, false, RPublish, 0, Some(1), Failed, false, true, false, 0) }
  function ReadyDisk(c: Config, key: Key, tid: Tid): Disk {
    Disk(0, {}, {0, 1}, map[1 := key], Some(FenceOf(c, key)), map[key := tid], map[key := Record(0, Some(1), None)], map[], [], [])
  }

  /** The same after a reconciliation found base 0 untouched. */
  function ReportedDisk(c: Config, key: Key, tid: Tid): Disk {
    ReadyDisk(c, key, tid).(records := map[key := Record(0, Some(1), Some(NotExecuted))], receipts := map[key := NotExecuted])
  }

  lemma GetsReady(c: Config, s: Sys, t: Sys, tid: Tid, key: Key)
    requires Leads(c, s, t) && tid in t.locks.seats && tid in t.work && t.locks.seats[tid].stage.Working?
    requires t.work[tid] == Blankly(key, false) && t.disk == Init(0).disk
    ensures Leads(c, s, t.(work := t.work[tid := ReadyTask(key)], disk := ReadyDisk(c, key, tid)))
  {
    hide Leads;
    var d0, t0 := t.disk, t.work[tid];
    var u := t;
    var t1 := t0.(pc := RFenceRead);
    ThenWork(c, s, u, tid, Well, d0, t1);
    u := u.(work := u.work[tid := t1], disk := d0);
    var t2 := t0.(pc := RFenceWrite);
    ThenWork(c, s, u, tid, Well, d0, t2);
    u := u.(work := u.work[tid := t2], disk := d0);
    var d3, t3 := d0.(fence := Some(FenceOf(c, key))), t0.(pc := RDispatch);
    ThenWork(c, s, u, tid, Well, d3, t3);
    u := u.(work := u.work[tid := t3], disk := d3);
    var d4, t4 := d3.(dispatched := map[key := tid]), t0.(pc := RRecord, release := false);
    ThenWork(c, s, u, tid, Well, d4, t4);
    u := u.(work := u.work[tid := t4], disk := d4);
    var d5, t5 := d4.(records := map[key := Record(0, None, None)]), t4.(pc := RPrepare, recorded := true);
    ThenWork(c, s, u, tid, Well, d5, t5);
    u := u.(work := u.work[tid := t5], disk := d5);
    PreparesOne(c, s, u, tid, key, d5, t5);
    assert u.work[tid := ReadyTask(key)] == t.work[tid := ReadyTask(key)];
  }

  lemma PreparesOne(c: Config, s: Sys, u: Sys, tid: Tid, key: Key, d: Disk, v: Task)
    requires Leads(c, s, u) && tid in u.locks.seats && tid in u.work && u.locks.seats[tid].stage.Working? && u.disk == d && u.work[tid] == v
    requires d == Disk(0, {}, {0}, map[], Some(FenceOf(c, key)), map[key := tid], map[key := Record(0, None, None)], map[], [], [])
    requires v == Task(key, false, RPrepare, 0, None, Failed, false, true, false, 0)
    ensures Leads(c, s, u.(work := u.work[tid := ReadyTask(key)], disk := ReadyDisk(c, key, tid)))
  {
    hide Leads;
    var d1, t1 := d.(used := {0, 1}, made := map[1 := key]), v.(after := Some(1), pc := RSaveAfter);
    assert d.used + {1} == d1.used && d.made[1 := key] == d1.made;
    ThenWork(c, s, u, tid, Fresh(1), d1, t1);
    var w := u.(work := u.work[tid := t1], disk := d1);
    var d2, t2 := ReadyDisk(c, key, tid), t1.(pc := RLive);
    assert d1.records[key := Record(0, Some(1), None)] == d2.records;
    ThenWork(c, s, w, tid, Well, d2, t2);
    w := w.(work := w.work[tid := t2], disk := d2);
    ThenWork(c, s, w, tid, Well, d2, ReadyTask(key));
    assert w.work[tid := ReadyTask(key)] == u.work[tid := ReadyTask(key)];
  }

  /** A reconciliation that holds the lock while the other call is about to publish reports `not-executed`. */
  lemma Misreports(c: Config, s: Sys, t: Sys, q: Tid, tid: Tid, key: Key) returns (v: Task)
    requires Leads(c, s, t) && q in t.locks.seats && q in t.work && t.locks.seats[q].stage.Working?
    requires t.work[q] == Blankly(key, true) && t.disk == ReadyDisk(c, key, tid)
    ensures Leads(c, s, t.(work := t.work[q := v], disk := ReportedDisk(c, key, tid)))
  {
    hide Leads;
    var d0, v0 := t.disk, t.work[q];
    var v1 := v0.(pc := QDecide);
    ThenWork(c, s, t, q, Well, d0, v1);
    var u := t.(work := t.work[q := v1], disk := d0);
    var v2 := v1.(before := 0, after := Some(1), status := NotExecuted, pc := QFinish);
    ThenWork(c, s, u, q, Well, d0, v2);
    u := u.(work := u.work[q := v2], disk := d0);
    var d3, v3 := d0.(records := map[key := Record(0, Some(1), Some(NotExecuted))]), v2.(pc := QCommit);
    assert d0.records[key := Record(0, Some(1), Some(NotExecuted))] == d3.records;
    ThenWork(c, s, u, q, Well, d3, v3);
    u := u.(work := u.work[q := v3], disk := d3);
    var d4, v4 := ReportedDisk(c, key, tid), v3.(release := true, pc := End);
    assert d3.receipts[key := NotExecuted] == d4.receipts;
    ThenWork(c, s, u, q, Well, d4, v4);
    v := v4;
    assert u.work[q := v] == t.work[q := v];
  }

  /** Then the other call publishes, and the receipt is a lie. */
  lemma ThenLies(c: Config, s: Sys, t: Sys, tid: Tid, key: Key)
    requires Leads(c, s, t) && tid in t.locks.seats && tid in t.work && t.locks.seats[tid].stage.Working?
    requires t.work[tid] == ReadyTask(key) && t.disk == ReportedDisk(c, key, tid)
    ensures exists steps :: !Honest(Run(c, s, steps).disk)
  {
    var d := Publish(t.disk, tid, t.work[tid]);
    ThenWork(c, s, t, tid, Well, d, t.work[tid].(pc := RObserve));
    var u := t.(work := t.work[tid := t.work[tid].(pc := RObserve)], disk := d);
    var steps :| Run(c, s, steps) == u;
    assert d.moves[0].key == key && key in d.receipts && d.receipts[key] == NotExecuted;
    assert !Honest(Run(c, s, steps).disk);
  }

  // ---- `active` is looked at when `reconcile` is called ------------------------------------------------------------

  function RunSeat(o: Owner, stage: Stage): Seat { Seat(o, false, stage, false, false, o, 0) }
  function RecoverSeat(o: Owner, stage: Stage, arbiter: bool, sawOwner: Owner, sawHolder: Tid): Seat {
    Seat(o, true, stage, false, arbiter, sawOwner, sawHolder)
  }

  /** A call takes the free lock and starts to work. */
  lemma TakesFree(c: Config, s: Sys, t: Sys, tid: Tid, o: Owner)
    requires Leads(c, s, t) && tid in t.locks.seats && tid in t.work && t.locks.seats[tid] == RunSeat(o, RLock) && t.locks.writer.Free?
    ensures Leads(c, s, t.(locks := t.locks.(seats := t.locks.seats[tid := RunSeat(o, Working)], active := t.locks.active + {o},
                                               writer := Held(Some(o), tid))))
  {
    hide Leads;
    var l1 := t.locks.(seats := t.locks.seats[tid := RunSeat(o, Making)], writer := Held(None, tid));
    ThenTurn(c, s, t, tid, Well, l1);
    var u := t.(locks := l1);
    var l2 := t.locks.(seats := t.locks.seats[tid := RunSeat(o, Working)], active := t.locks.active + {o}, writer := Held(Some(o), tid));
    assert l1.seats[tid := RunSeat(o, Working)] == l2.seats;
    ThenTurn(c, s, u, tid, Well, l2);
    assert u.(locks := l2) == t.(locks := l2);
  }

  /** A recovering call reads the owner of a held lock. */
  lemma ReadsOwner(c: Config, s: Sys, t: Sys, q: Tid, o: Owner, left: Owner, holder: Tid)
    requires Leads(c, s, t) && q in t.locks.seats && q in t.work && t.locks.seats[q] == RecoverSeat(o, QExists, false, o, 0)
    requires t.locks.writer == Held(Some(left), holder) && left.key == o.key && t.locks.arbiter.None?
    ensures Leads(c, s, t.(locks := t.locks.(seats := t.locks.seats[q := RecoverSeat(o, QProbe, true, left, holder)], arbiter := Some(q))))
  {
    hide Leads;
    var l1 := t.locks.(seats := t.locks.seats[q := RecoverSeat(o, QArbiter, false, o, 0)]);
    ThenTurn(c, s, t, q, Well, l1);
    var u := t.(locks := l1);
    var l2 := t.locks.(seats := t.locks.seats[q := RecoverSeat(o, QRead, true, o, 0)], arbiter := Some(q));
    assert l1.seats[q := RecoverSeat(o, QRead, true, o, 0)] == l2.seats;
    ThenTurn(c, s, u, q, Well, l2);
    u := u.(locks := l2);
    var l3 := t.locks.(seats := t.locks.seats[q := RecoverSeat(o, QProbe, true, left, holder)], arbiter := Some(q));
    assert l2.seats[q := RecoverSeat(o, QProbe, true, left, holder)] == l3.seats;
    ThenTurn(c, s, u, q, Well, l3);
    assert u.(locks := l3) == t.(locks := l3);
  }

  /** It removes the lock it finds. */
  lemma RemovesLock(c: Config, s: Sys, t: Sys, q: Tid, o: Owner, left: Owner, holder: Tid)
    requires Leads(c, s, t) && q in t.locks.seats && q in t.work && t.locks.seats[q] == RecoverSeat(o, QProbe, true, left, holder)
    requires MayTakeOver(c, t.locks, t.locks.seats[q]) && MayRemove(c, t.locks, t.locks.seats[q])
    ensures Leads(c, s, t.(locks := t.locks.(seats := t.locks.seats[q := RecoverSeat(o, QTake, true, left, holder)], writer := Free)))
  {
    hide Leads;
    var l1 := t.locks.(seats := t.locks.seats[q := RecoverSeat(o, QRemove, true, left, holder)]);
    ThenTurn(c, s, t, q, Well, l1);
    var u := t.(locks := l1);
    var l2 := t.locks.(seats := t.locks.seats[q := RecoverSeat(o, QTake, true, left, holder)], writer := Free);
    assert l1.seats[q := RecoverSeat(o, QTake, true, left, holder)] == l2.seats;
    ThenTurn(c, s, u, q, Well, l2);
    assert u.(locks := l2) == t.(locks := l2);
  }

  /** A recovering call takes the free lock and starts to work, dropping the arbiter on the way if it has it. */
  lemma TakesAgain(c: Config, s: Sys, t: Sys, q: Tid, o: Owner, arbiter: bool, left: Owner, holder: Tid)
    requires Leads(c, s, t) && q in t.locks.seats && q in t.work && t.locks.seats[q] == RecoverSeat(o, QTake, arbiter, left, holder)
    requires t.locks.writer.Free?
    ensures Leads(c, s, t.(locks := t.locks.(seats := t.locks.seats[q := RecoverSeat(o, Working, false, left, holder)],
                                               writer := Held(Some(o), q), arbiter := if arbiter then None else t.locks.arbiter)))
  {
    hide Leads;
    var gone := if arbiter then None else t.locks.arbiter;
    var l1 := t.locks.(seats := t.locks.seats[q := RecoverSeat(o, QTake, false, left, holder)], arbiter := gone);
    assert t.locks.seats[q := t.locks.seats[q]] == t.locks.seats;
    ThenTurn(c, s, t, q, DropArbiter, l1);
    var u := t.(locks := l1);
    var l2 := t.locks.(seats := t.locks.seats[q := RecoverSeat(o, Making, false, left, holder)], writer := Held(None, q), arbiter := gone);
    assert l1.seats[q := RecoverSeat(o, Making, false, left, holder)] == l2.seats;
    ThenTurn(c, s, u, q, Well, l2);
    u := u.(locks := l2);
    var l3 := t.locks.(seats := t.locks.seats[q := RecoverSeat(o, QReady, false, left, holder)], writer := Held(Some(o), q), arbiter := gone);
    assert l2.seats[q := RecoverSeat(o, QReady, false, left, holder)] == l3.seats;
    ThenTurn(c, s, u, q, Well, l3);
    u := u.(locks := l3);
    var l4 := l3.(seats := t.locks.seats[q := RecoverSeat(o, Working, false, left, holder)]);
    assert l3.seats[q := RecoverSeat(o, Working, false, left, holder)] == l4.seats;
    ThenTurn(c, s, u, q, Well, l4);
    assert u.(locks := l4) == t.(locks := l4);
  }

  /** Starting a call that may start. */
  lemma Starts(c: Config, s: Sys, t: Sys, tid: Tid, o: Owner, reconcile: bool)
    requires Leads(c, s, t) && MayStart(c, t.locks, tid, o, reconcile) && o !in t.locks.active && o.key !in t.disk.dispatched
    ensures var seat := if reconcile then RecoverSeat(o, QExists, false, o, 0) else RunSeat(o, RLock);
      Leads(c, s, t.(locks := t.locks.(seats := t.locks.seats[tid := seat], tids := t.locks.tids + {tid}),
                     work := t.work[tid := Blankly(o.key, reconcile)]))
  {
    hide Leads, MayStart;
    Then(c, s, t, if reconcile then StartReconcile(tid, o) else StartRun(tid, o), Start(t, tid, o, reconcile));
  }

  /** One process, one key: `reconcile` is called, then `run`; the take-over trusts what `active` said at the call. */
  lemma StaleActive(c: Config)
    requires !Parted(c) && !c.readsLate && !c.oneAtATime
    ensures exists steps :: !Honest(Run(c, Init(0), steps).disk)
  {
    var s, o := Init(0), Owner(1, 7);
    Begin(c, s);
    Starts(c, s, s, 1, o, true);
    hide Leads;
    var l1 := s.locks.(seats := map[1 := RecoverSeat(o, QExists, false, o, 0)], tids := {1});
    var u := s.(locks := l1, work := map[1 := Blankly(7, true)]);
    assert Leads(c, s, u) by {
      assert s.locks.seats[1 := RecoverSeat(o, QExists, false, o, 0)] == l1.seats && s.locks.tids + {1} == l1.tids;
      assert s.work[1 := Blankly(7, true)] == u.work;
    }
    Starts(c, s, u, 2, o, false);
    u := u.(locks := l1.(seats := l1.seats[2 := RunSeat(o, RLock)], tids := l1.tids + {2}), work := u.work[2 := Blankly(7, false)]);
    TakesFree(c, s, u, 2, o);
    u := u.(locks := u.locks.(seats := u.locks.seats[2 := RunSeat(o, Working)], active := u.locks.active + {o}, writer := Held(Some(o), 2)));
    GetsReady(c, s, u, 2, 7);
    u := u.(work := u.work[2 := ReadyTask(7)], disk := ReadyDisk(c, 7, 2));
    StaleEnd(c, s, u, o);
  }

  lemma StaleEnd(c: Config, s: Sys, t: Sys, o: Owner)
    requires !c.readsLate && Leads(c, s, t) && 1 in t.locks.seats && 2 in t.locks.seats && 1 in t.work && 2 in t.work && o.key == 7
    requires t.locks.seats[1] == RecoverSeat(o, QExists, false, o, 0) && t.locks.seats[2] == RunSeat(o, Working)
    requires t.locks.writer == Held(Some(o), 2) && t.locks.arbiter.None? && t.work[1] == Blankly(7, true)
    requires t.work[2] == ReadyTask(7) && t.disk == ReadyDisk(c, 7, 2)
    ensures exists steps :: !Honest(Run(c, s, steps).disk)
  {
    hide Leads, Honest;
    var u := t;
    ReadsOwner(c, s, u, 1, o, o, 2);
    u := u.(locks := u.locks.(seats := u.locks.seats[1 := RecoverSeat(o, QProbe, true, o, 2)], arbiter := Some(1)));
    RemovesLock(c, s, u, 1, o, o, 2);
    u := u.(locks := u.locks.(seats := u.locks.seats[1 := RecoverSeat(o, QTake, true, o, 2)], writer := Free));
    TakesAgain(c, s, u, 1, o, true, o, 2);
    u := u.(locks := u.locks.(seats := u.locks.seats[1 := RecoverSeat(o, Working, false, o, 2)], writer := Held(Some(o), 1), arbiter := None));
    var v := Misreports(c, s, u, 1, 2, 7);
    ThenLies(c, s, u.(work := u.work[1 := v], disk := ReportedDisk(c, 7, 2)), 2, 7);
  }

  // ---- the owner is read, probed and removed in three steps -----------------------------------------------------------

  /** The owner that was read lets go and dies, another call takes the lock, and the take-over removes that one's. */
  lemma RemovedAnother(c: Config)
    requires !Parted(c) && !c.removesWhatItRead
    ensures exists steps :: !Honest(Run(c, Init(0), steps).disk)
  {
    var s, a, q := Init(0), Owner(1, 7), Owner(2, 7);
    Begin(c, s);
    Starts(c, s, s, 1, a, false);
    hide Leads;
    var l1 := s.locks.(seats := map[1 := RunSeat(a, RLock)], tids := {1});
    var u := s.(locks := l1, work := map[1 := Blankly(7, false)]);
    assert Leads(c, s, u) by {
      assert s.locks.seats[1 := RunSeat(a, RLock)] == l1.seats && s.locks.tids + {1} == l1.tids;
      assert s.work[1 := Blankly(7, false)] == u.work;
    }
    TakesFree(c, s, u, 1, a);
    u := u.(locks := l1.(seats := map[1 := RunSeat(a, Working)], active := {a}, writer := Held(Some(a), 1)));
    assert Leads(c, s, u) by { assert l1.seats[1 := RunSeat(a, Working)] == u.locks.seats && l1.active + {a} == u.locks.active; }
    Starts(c, s, u, 2, q, true);
    u := u.(locks := u.locks.(seats := u.locks.seats[2 := RecoverSeat(q, QExists, false, q, 0)], tids := u.locks.tids + {2}),
            work := u.work[2 := Blankly(7, true)]);
    ReadsOwner(c, s, u, 2, q, a, 1);
    u := u.(locks := u.locks.(seats := u.locks.seats[2 := RecoverSeat(q, QProbe, true, a, 1)], arbiter := Some(2)));
    OwnerDies(c, s, u, a);
  }

  /** The lock with its first owner gone and the recovering call still about to probe. */
  function Abandoned(a: Owner, q: Owner): Locks {
    Locks(map[2 := RecoverSeat(q, QProbe, true, a, 1)], {1, 2}, {1}, {}, Free, Some(2))
  }

  lemma OwnerDies(c: Config, s: Sys, t: Sys, a: Owner)
    requires var q := Owner(2, 7);
      t.locks == Locks(map[1 := RunSeat(a, Working), 2 := RecoverSeat(q, QProbe, true, a, 1)], {1, 2}, {}, {a}, Held(Some(a), 1), Some(2))
    requires !Parted(c) && !c.removesWhatItRead && a == Owner(1, 7) && t.work == map[1 := Blankly(7, false), 2 := Blankly(7, true)]
    requires t.disk == Init(0).disk && Leads(c, s, t)
    ensures exists steps :: !Honest(Run(c, s, steps).disk)
  {
    hide Leads, Honest;
    var q := Owner(2, 7);
    var ended := Blankly(7, false).(pc := End);
    ThenWork(c, s, t, 1, Refused, t.disk, ended);
    var u := t.(work := t.work[1 := ended]);
    var l1 := Locks(map[2 := RecoverSeat(q, QProbe, true, a, 1)], {1, 2}, {}, {}, Free, Some(2));
    assert t.locks.seats - {1} == l1.seats && t.locks.active - {a} == l1.active;
    ThenTurn(c, s, u, 1, Well, l1);
    u := u.(locks := l1);
    assert Die(l1, 1) == Abandoned(a, q);
    Then(c, s, u, Crash(1), u.(locks := Abandoned(a, q)));
    u := u.(locks := Abandoned(a, q));
    NextCallLosesItsLock(c, s, u, a, q);
  }

  lemma NextCallLosesItsLock(c: Config, s: Sys, t: Sys, a: Owner, q: Owner)
    requires !Parted(c) && !c.removesWhatItRead && a == Owner(1, 7) && q == Owner(2, 7)
    requires t.locks == Abandoned(a, q) && t.disk == Init(0).disk && 2 in t.work && Leads(c, s, t)
    ensures exists steps :: !Honest(Run(c, s, steps).disk)
  {
    var b, x := Owner(3, 8), Owner(4, 8);
    var u := t;
    Starts(c, s, u, 3, b, false);
    hide Leads, Honest;
    u := u.(locks := u.locks.(seats := u.locks.seats[3 := RunSeat(b, RLock)], tids := u.locks.tids + {3}), work := u.work[3 := Blankly(8, false)]);
    TakesFree(c, s, u, 3, b);
    u := u.(locks := u.locks.(seats := u.locks.seats[3 := RunSeat(b, Working)], active := u.locks.active + {b}, writer := Held(Some(b), 3)));
    GetsReady(c, s, u, 3, 8);
    u := u.(work := u.work[3 := ReadyTask(8)], disk := ReadyDisk(c, 8, 3));
    RemovesLock(c, s, u, 2, q, a, 1);
    u := u.(locks := u.locks.(seats := u.locks.seats[2 := RecoverSeat(q, QTake, true, a, 1)], writer := Free));
    Then(c, s, u, StartReconcile(4, x), Start(u, 4, x, true));
    u := Start(u, 4, x, true);
    LosesTo(c, s, u, x);
  }

  lemma LosesTo(c: Config, s: Sys, t: Sys, x: Owner)
    requires x == Owner(4, 8) && Leads(c, s, t) && 3 in t.locks.seats && 4 in t.locks.seats && 3 in t.work && 4 in t.work
    requires t.locks.seats[4] == RecoverSeat(x, QExists, false, x, 0) && t.locks.seats[3].stage.Working? && t.locks.writer.Free?
    requires t.work[4] == Blankly(8, true) && t.work[3] == ReadyTask(8) && t.disk == ReadyDisk(c, 8, 3)
    ensures exists steps :: !Honest(Run(c, s, steps).disk)
  {
    hide Leads, Honest;
    var l1 := t.locks.(seats := t.locks.seats[4 := RecoverSeat(x, QTake, false, x, 0)]);
    ThenTurn(c, s, t, 4, Well, l1);
    var u := t.(locks := l1);
    TakesAgain(c, s, u, 4, x, false, x, 0);
    u := u.(locks := u.locks.(seats := u.locks.seats[4 := RecoverSeat(x, Working, false, x, 0)], writer := Held(Some(x), 4)));
    var v := Misreports(c, s, u, 4, 3, 8);
    ThenLies(c, s, u.(work := u.work[4 := v], disk := ReportedDisk(c, 8, 3)), 3, 8);
  }

  /**
   * Receipts are honest in every run exactly when no `reconcile` of an effect is live together with a `run` of it, or both
   * repairs are made (the later look at `active` is not needed where a process never overlaps two calls for one key). The
   * half about the repairs rests on `Turn`: the owner file and the mark are written in one step, and cleared in one.
   */
  lemma HonestIff(c: Config)
    ensures (forall steps :: Honest(After(c, 0, steps).disk)) <==> Parted(c) || Trusted(c)
  {
    if Parted(c) || Trusted(c) {
      forall steps ensures Honest(After(c, 0, steps).disk) { ReceiptsHonest(c, 0, steps); }
    } else {
      if !c.removesWhatItRead { RemovedAnother(c); } else { StaleActive(c); }
      var steps :| !Honest(Run(c, Init(0), steps).disk);
      assert !Honest(After(c, 0, steps).disk);
    }
  }

  /** As the program is written: exactly when no `reconcile` of an effect is live together with a `run` of it. */
  lemma AsWrittenHonestIff(c: Config)
    requires AsWritten(c)
    ensures (forall steps :: Honest(After(c, 0, steps).disk)) <==> Parted(c)
  {
    HonestIff(c);
  }
}
