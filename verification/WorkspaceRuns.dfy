/** What holds in every run of the workspace protocol, whatever is interleaved and whoever dies when. */
module WorkspaceRuns {
  import opened Workspace
  import opened WorkspaceLocks
  import opened WorkspaceData
  import opened WorkspaceSteps

  predicate Unstarted(dispatched: map<Key, Tid>, tid: Tid, t: Task) {
    (t.pc.QHead? && !t.release && t.reconciles) || (t.pc.RHead? && Opening(dispatched, tid, t))
  }

  predicate CallOk(c: Config, d: Disk, tid: Tid, seat: Seat, t: Task) {
    t.key == seat.owner.key && t.reconciles == seat.reconcile
    && if seat.stage.Working? then TaskOk(c, d, tid, t) else Unstarted(d.dispatched, tid, t)
  }

  predicate CallsOk(c: Config, seats: map<Tid, Seat>, work: map<Tid, Task>, d: Disk) {
    forall i :: i in seats ==> i in work && CallOk(c, d, i, seats[i], work[i])
  }

  predicate SysOk(c: Config, s: Sys) { LocksOk(c, s.locks) && DiskOk(c, s.disk) && CallsOk(c, s.locks.seats, s.work, s.disk) }

  lemma InitOk(c: Config, base: Base)
    ensures SysOk(c, Init(base))
  {}

  lemma WorkKeeps(c: Config, d: Disk, tid: Tid, t: Task, how: How)
    requires !t.pc.End? && TaskOk(c, d, tid, t) && DiskOk(c, d)
    ensures Kept(c, tid, Work(c, d, tid, t, how))
  {
    hide DiskOk, TaskOk, Work, Kept;
    match t.pc
    case RHead => FenceKeeps(c, d, tid, t, how);
    case RFenceRead => FenceKeeps(c, d, tid, t, how);
    case RFenceWrite => FenceKeeps(c, d, tid, t, how);
    case RDispatch => DispatchKeeps(c, d, tid, t, how);
    case RRecord => RecordKeeps(c, d, tid, t, how);
    case RPrepare => PrepareKeeps(c, d, tid, t, how);
    case RSaveAfter => SaveAfterKeeps(c, d, tid, t, how);
    case RLive => SaveAfterKeeps(c, d, tid, t, how);
    case RPublish => PublishKeeps(c, d, tid, t, how);
    case RObserve => ObserveKeeps(c, d, tid, t, how);
    case RFinish => FinishKeeps(c, d, tid, t, how);
    case RCommit => CommitKeeps(c, d, tid, t, how);
    case RCatch => CatchKeeps(c, d, tid, t, how);
    case QHead => SeesHead(c, d, tid, t, how);
    case QDecide => DecideKeeps(c, d, tid, t, how);
    case QFinish => SaveKeeps(c, d, tid, t, how);
    case QCommit => SettleKeeps(c, d, tid, t, how);
  }

  lemma WorkKey(c: Config, d: Disk, tid: Tid, t: Task, how: How)
    ensures var w := Work(c, d, tid, t, how);
      w.1.key == t.key && w.1.reconciles == t.reconciles && (w.0.dispatched == d.dispatched || w.0.dispatched == d.dispatched[t.key := tid])
  {
    hide RunWork, ReconcileWork;
    if !Reconciling(t.pc) { RunTasks(c, d, tid, t, how); }
    RunDispatches(c, d, tid, t, how);
    ReconcileKey(c, d, t, how);
    ReconcileDispatches(c, d, t, how);
  }

  /** The one working call moves on; there is no other whose knowledge it could outdate. */
  lemma WorkKeepsSys(c: Config, s: Sys, tid: Tid, how: How)
    requires tid in s.locks.seats && tid in s.work && s.locks.seats[tid].stage.Working? && !s.work[tid].pc.End?
    requires SysOk(c, s)
    ensures var next := Work(c, s.disk, tid, s.work[tid], how); SysOk(c, s.(work := s.work[tid := next.1], disk := next.0))
  {
    var seats, t := s.locks.seats, s.work[tid];
    WorkKeeps(c, s.disk, tid, t, how);
    WorkKey(c, s.disk, tid, t, how);
    forall i | i in seats && seats[i].stage.Working? ensures i == tid { OneHolder(c, s.locks, i, tid); }
    hide LocksOk, DiskOk, TaskOk, Work;
  }

  /** The seats a step with the locks may leave: the call's own changed, unless it works under the lock, or gone. */
  predicate OwnSeatOnly(l: Locks, tid: Tid, seats: map<Tid, Seat>)
    requires tid in l.seats
  {
    if tid in seats then
      && seats[tid].owner == l.seats[tid].owner && seats[tid].reconcile == l.seats[tid].reconcile
      && seats == l.seats[tid := seats[tid]] && !l.seats[tid].stage.Working?
    else seats == l.seats - {tid}
  }

  lemma DropArbiterSeats(l: Locks, tid: Tid)
    requires tid in l.seats && !l.seats[tid].stage.Working?
    ensures OwnSeatOnly(l, tid, DropArbiterOf(l, tid, l.seats[tid]).seats) && OwnSeatOnly(l, tid, l.seats)
  {
    assert l.seats == l.seats[tid := l.seats[tid]];
  }

  predicate Entering(stage: Stage) { stage.RLock? || stage.Making? || stage.Working? || stage.QExists? || stage.QArbiter? }

  lemma EnteringSeats(c: Config, l: Locks, tid: Tid, release: bool, how: How)
    requires tid in l.seats && Entering(l.seats[tid].stage)
    ensures OwnSeatOnly(l, tid, Turn(c, l, tid, l.seats[tid], release, how).seats)
  {
    hide DropArbiterOf;
    if !l.seats[tid].stage.Working? { DropArbiterSeats(l, tid); }
  }

  lemma TakingOverSeats(c: Config, l: Locks, tid: Tid, release: bool, how: How)
    requires tid in l.seats && !Entering(l.seats[tid].stage)
    ensures OwnSeatOnly(l, tid, Turn(c, l, tid, l.seats[tid], release, how).seats)
  {
    hide DropArbiterOf, MayTakeOver, MayRemove;
    DropArbiterSeats(l, tid);
  }

  /** A step with the locks lets a call start its work knowing nothing, and lets no other call start. */
  lemma TurnSeats(c: Config, l: Locks, tid: Tid, release: bool, how: How)
    requires tid in l.seats
    ensures OwnSeatOnly(l, tid, Turn(c, l, tid, l.seats[tid], release, how).seats)
  {
    hide Turn, OwnSeatOnly;
    if Entering(l.seats[tid].stage) { EnteringSeats(c, l, tid, release, how); } else { TakingOverSeats(c, l, tid, release, how); }
  }

  lemma UnstartedOk(c: Config, d: Disk, tid: Tid, t: Task)
    requires Unstarted(d.dispatched, tid, t)
    ensures TaskOk(c, d, tid, t)
  {}

  lemma TurnKeepsSys(c: Config, s: Sys, tid: Tid, how: How)
    requires Trusted(c) && tid in s.locks.seats && tid in s.work
    requires SysOk(c, s)
    ensures SysOk(c, s.(locks := Turn(c, s.locks, tid, s.locks.seats[tid], s.work[tid].release, how)))
  {
    TurnKeeps(c, s.locks, tid, s.work[tid].release, how);
    TurnSeats(c, s.locks, tid, s.work[tid].release, how);
    if Unstarted(s.disk.dispatched, tid, s.work[tid]) { UnstartedOk(c, s.disk, tid, s.work[tid]); }
    hide LocksOk, DiskOk, TaskOk, Turn, Trusted, Unstarted;
  }

  lemma StartKeepsSys(c: Config, s: Sys, tid: Tid, owner: Owner, reconcile: bool)
    requires MayStart(c, s.locks, tid, owner, reconcile) && (reconcile || owner.key !in s.disk.dispatched)
    requires SysOk(c, s)
    ensures SysOk(c, Start(s, tid, owner, reconcile))
  {
    StartKeeps(c, s, tid, owner, reconcile);
    hide LocksOk, DiskOk, TaskOk;
  }

  lemma OutsideKeepsSys(c: Config, s: Sys, base: Base)
    requires base !in s.disk.used && SysOk(c, s)
    ensures SysOk(c, s.(disk := s.disk.(head := base, past := s.disk.past + {s.disk.head}, used := s.disk.used + {base})))
  {
    OutsideKeeps(c, s.disk, base);
    forall i | i in s.locks.seats && s.locks.seats[i].stage.Working?
      ensures TaskOk(c, s.disk.(head := base, past := s.disk.past + {s.disk.head}, used := s.disk.used + {base}), i, s.work[i])
    {
      OutsideKeepsTask(c, s.disk, base, i, s.work[i]);
    }
    hide LocksOk, DiskOk, TaskOk;
  }

  lemma DieKeepsSys(c: Config, s: Sys, inst: Inst)
    requires SysOk(c, s)
    ensures SysOk(c, s.(locks := Die(s.locks, inst)))
  {
    DieKeeps(c, s.locks, inst);
    hide LocksOk, DiskOk, CallOk;
  }

  lemma NextKeeps(c: Config, s: Sys, step: Step)
    requires Trusted(c) && SysOk(c, s)
    ensures SysOk(c, Next(c, s, step))
  {
    hide SysOk, Turn, Work, Start, Die, Trusted, MayStart;
    match step
    case StartRun(tid, owner) =>
      if MayStart(c, s.locks, tid, owner, false) && owner.key !in s.disk.dispatched { StartKeepsSys(c, s, tid, owner, false); }
    case StartReconcile(tid, owner) =>
      if MayStart(c, s.locks, tid, owner, true) { StartKeepsSys(c, s, tid, owner, true); }
    case Go(tid, how) =>
      if tid in s.locks.seats && tid in s.work {
        if s.locks.seats[tid].stage.Working? && !s.work[tid].pc.End? {
          WorkKeepsSys(c, s, tid, how);
        } else {
          TurnKeepsSys(c, s, tid, how);
        }
      }
    case Crash(inst) => DieKeepsSys(c, s, inst);
    case Outside(base) => if base !in s.disk.used { OutsideKeepsSys(c, s, base); }
  }

  lemma {:induction false} RunKeeps(c: Config, s: Sys, steps: seq<Step>)
    requires Trusted(c) && SysOk(c, s)
    ensures SysOk(c, Run(c, s, steps))
  {
    if |steps| > 0 {
      RunKeeps(c, s, steps[..|steps| - 1]);
      hide SysOk, Next, Trusted;
      NextKeeps(c, Run(c, s, steps[..|steps| - 1]), steps[|steps| - 1]);
    }
  }

  // ---- the theorems ------------------------------------------------------------------------------------------------

  /** The system after any steps from a fresh repository. */
  function After(c: Config, base: Base, steps: seq<Step>): Sys { Run(c, Init(base), steps) }

  lemma Reached(c: Config, base: Base, steps: seq<Step>)
    requires Trusted(c)
    ensures SysOk(c, After(c, base, steps))
  {
    InitOk(c, base);
    RunKeeps(c, Init(base), steps);
  }

  /** At any time at most one live call holds the writer lock. */
  lemma OneWriter(c: Config, base: Base, steps: seq<Step>, i: Tid, j: Tid)
    requires Trusted(c)
    requires var seats := After(c, base, steps).locks.seats; i in seats && j in seats && Holding(seats[i].stage) && Holding(seats[j].stage)
    ensures i == j
  {
    Reached(c, base, steps);
    OneHolder(c, After(c, base, steps).locks, i, j);
  }

  /** A call about to give the lock back has its effect settled, or is a run that left no record of a dispatch. */
  lemma LockKeptUntilSettled(c: Config, base: Base, steps: seq<Step>, tid: Tid)
    requires Trusted(c)
    requires var s := After(c, base, steps); tid in s.locks.seats && tid in s.work && s.locks.seats[tid].stage.Working? && s.work[tid].pc.End?
    ensures var s := After(c, base, steps);
      s.work[tid].key == s.locks.seats[tid].owner.key && s.work[tid].reconciles == s.locks.seats[tid].reconcile
      && LetGo(s.disk.dispatched, s.disk.records, s.disk.receipts, tid, s.work[tid])
  {
    Reached(c, base, steps);
    hide LocksOk, DiskOk, After, LetGo;
  }

  /** A receipt tells the truth about HEAD. */
  predicate Honest(d: Disk) {
    forall k :: k in d.receipts ==> (d.receipts[k] == Applied <==> Moved(d.moves, k))
  }

  /** Under the lock alone: a `completed` receipt's record tells the move, any other receipt means that there was none. */
  lemma HonestUnderLock(c: Config, base: Base, steps: seq<Step>)
    requires Trusted(c)
    ensures var d := After(c, base, steps).disk;
      && Honest(d)
      && (forall k :: k in d.receipts && d.receipts[k] == Applied ==>
            k in d.records && exists i :: 0 <= i < |d.moves| && d.moves[i].key == k && Tells(d.records[k], d.moves[i]))
  {
    Reached(c, base, steps);
    var d := After(c, base, steps).disk;
    forall k | k in d.receipts && d.receipts[k] == Applied
      ensures k in d.records && exists i :: 0 <= i < |d.moves| && d.moves[i].key == k && Tells(d.records[k], d.moves[i])
    {
      var i :| 0 <= i < |d.moves| && d.moves[i].key == k;
      assert Tells(d.records[d.moves[i].key], d.moves[i]);
    }
    hide LocksOk, CallsOk, After, BasesOk, MovesOk, FenceOk;
  }

  lemma WorkKeepsReceipt(c: Config, d: Disk, tid: Tid, t: Task, how: How, k: Key)
    requires k in d.receipts
    ensures var e := Work(c, d, tid, t, how).0; k in e.receipts && e.receipts[k] == d.receipts[k]
  {
    hide RunWork, ReconcileWork;
    RunKeepsReceipt(c, d, tid, t, how, k);
    ReconcileKeepsReceipt(c, d, t, how, k);
  }

  lemma NextKeepsReceipt(c: Config, s: Sys, step: Step, k: Key)
    requires k in s.disk.receipts
    ensures k in Next(c, s, step).disk.receipts && Next(c, s, step).disk.receipts[k] == s.disk.receipts[k]
  {
    hide Turn, Die, Work, MayStart;
    if step.Go? && step.tid in s.work { WorkKeepsReceipt(c, s.disk, step.tid, s.work[step.tid], step.how, k); }
  }

  lemma {:induction false} ReceiptStays(c: Config, s: Sys, steps: seq<Step>, k: Key)
    requires k in s.disk.receipts
    ensures k in Run(c, s, steps).disk.receipts && Run(c, s, steps).disk.receipts[k] == s.disk.receipts[k]
  {
    if |steps| > 0 {
      ReceiptStays(c, s, steps[..|steps| - 1], k);
      NextKeepsReceipt(c, Run(c, s, steps[..|steps| - 1]), steps[|steps| - 1], k);
      hide Next;
    }
  }

  lemma {:induction false} RunAppend(c: Config, s: Sys, a: seq<Step>, b: seq<Step>)
    ensures Run(c, s, a + b) == Run(c, Run(c, s, a), b)
  {
    hide Next;
    if |b| == 0 {
      assert a + b == a;
    } else {
      assert (a + b)[..|a + b| - 1] == a + b[..|b| - 1];
      RunAppend(c, s, a, b[..|b| - 1]);
    }
  }

  /** Moves of HEAD carry non-decreasing fencing tokens, and equal ones only under one claim. */
  lemma FencedInOrder(c: Config, base: Base, steps: seq<Step>, i: nat, j: nat)
    requires Trusted(c) && i < j < |After(c, base, steps).disk.moves|
    ensures var m, n := After(c, base, steps).disk.moves[i].key, After(c, base, steps).disk.moves[j].key;
      c.token(m) <= c.token(n) && (c.token(m) == c.token(n) ==> c.claim(m) == c.claim(n))
  {
    Reached(c, base, steps);
    var d := After(c, base, steps).disk;
    assert FenceOk(c, d.fence, d.moves) by { hide LocksOk, CallsOk, After, BasesOk, MovesOk, RecordsOk, ReceiptsOk; }
    var m, n := d.moves[i].key, d.moves[j].key;
    assert Reaches(FenceOf(c, m), FenceOf(c, n));
    assert c.token(m) <= c.token(n);
  }
}
