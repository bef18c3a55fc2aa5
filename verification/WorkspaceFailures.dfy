/** What a step that does not go as hoped leaves: on the disk, of the call, and of the lock. */
module WorkspaceFailures {
  import opened Options
  import opened Workspace
  import opened WorkspaceLocks
  import opened WorkspaceSteps
  import opened WorkspaceRuns
  import opened WorkspaceAnswers

  // ---- on the disk ------------------------------------------------------------------------------------------------------------

  /** An exception after the effect leaves the disk a success would leave; one before it, and a refusal, leave it as it was. */
  lemma EffectOrNone(c: Config, d: Disk, tid: Tid, t: Task)
    ensures Work(c, d, tid, t, ThrownAfter).0 == Work(c, d, tid, t, Well).0
    ensures Work(c, d, tid, t, Thrown).0 == d && Work(c, d, tid, t, Refused).0 == d
  {
    hide Admits, FenceOf, Save, Publish, Decide, Throw;
    assert Store(d, t, ThrownAfter) == Store(d, t, Well) && Store(d, t, Thrown) == d && Store(d, t, Refused) == d by { hide Commits; }
    hide Store, Commits;
  }

  /** A receipt that comes too late for its epoch is kept, and listed nowhere. */
  lemma ArchivedKept(c: Config, d: Disk, tid: Tid, t: Task, thrown: bool)
    requires (t.pc.RCommit? || t.pc.QCommit?) && t.key !in d.receipts
    ensures var w := Work(c, d, tid, t, Archived(thrown));
      w.0 == d.(receipts := d.receipts[t.key := t.status]) && (!thrown ==> w.1.pc.End? && w.1.release)
  {}

  /** A receipt the journal has stays, and is not listed again. */
  lemma ReceiptOnce(c: Config, d: Disk, tid: Tid, t: Task, how: How)
    requires (t.pc.RCommit? || t.pc.QCommit?) && t.key in d.receipts
    ensures Work(c, d, tid, t, how).0 == d
  {
    assert d.receipts[t.key := d.receipts[t.key]] == d.receipts;
  }

  // ---- of the call ------------------------------------------------------------------------------------------------------------

  /** Nothing has been dispatched yet. */
  predicate Undispatched(pc: Pc) { pc.RHead? || pc.RFenceRead? || pc.RFenceWrite? || pc.RDispatch? }

  /** The call's receipt is what the journal holds, with this step at the latest. */
  predicate Agreed(d: Disk, t: Task, how: How) { Goes(how) && (t.key in d.receipts ==> d.receipts[t.key] == t.status) }

  /** Until it dispatches, whatever goes wrong ends the call; its lock is still to be given back. */
  lemma EarlyEnds(c: Config, d: Disk, tid: Tid, t: Task, how: How)
    requires Undispatched(t.pc) && (!how.Well? || (t.pc.RFenceRead? && !Admits(d.fence, FenceOf(c, t.key))) || (t.pc.RDispatch? && t.key in d.dispatched))
    ensures Work(c, d, tid, t, how).1 == t.(pc := End)
  {
    hide Admits, FenceOf;
  }

  /**
   * The lock is to be given back exactly by a call that ended without having dispatched, or whose receipt the journal
   * holds; in every step of every call of `run`.
   */
  lemma RunReleases(c: Config, d: Disk, tid: Tid, t: Task, how: How)
    requires !Reconciling(t.pc) && !t.pc.End? && (t.release <==> Undispatched(t.pc))
    ensures var u := Work(c, d, tid, t, how).1;
      u.release <==> Undispatched(u.pc) || (u.pc.End? && (Undispatched(t.pc) || (t.pc.RCommit? && Agreed(d, t, how))))
  {
    if Undispatched(t.pc) {
      OpeningReleases(c, d, tid, t, how);
    } else if t.pc.RCommit? {
      CommitReleases(c, d, tid, t, how);
    } else {
      OthersRelease(c, d, tid, t, how);
    }
    hide Work, Agreed;
  }

  lemma OpeningReleases(c: Config, d: Disk, tid: Tid, t: Task, how: How)
    requires Undispatched(t.pc) && t.release
    ensures var u := Work(c, d, tid, t, how).1; u.release <==> Undispatched(u.pc) || u.pc.End?
  {
    hide Admits, FenceOf, Writes;
  }

  lemma CommitReleases(c: Config, d: Disk, tid: Tid, t: Task, how: How)
    requires t.pc.RCommit? && !t.release
    ensures var u := Work(c, d, tid, t, how).1; !Undispatched(u.pc) && (u.release <==> u.pc.End? && Agreed(d, t, how))
  {
    hide Store;
  }

  lemma OthersRelease(c: Config, d: Disk, tid: Tid, t: Task, how: How)
    requires !Reconciling(t.pc) && !Undispatched(t.pc) && !t.pc.RCommit? && !t.release
    ensures var u := Work(c, d, tid, t, how).1; !u.release && !Undispatched(u.pc)
  {
    if t.pc.RRecord? || t.pc.RPrepare? || t.pc.RSaveAfter? {
      PreparingReleases(c, d, tid, t, how);
    } else if t.pc.RPublish? {
      PublishReleases(c, d, tid, t, how);
    } else if Publishing(t.pc) {
      CheckingReleases(c, d, tid, t, how);
    } else {
      FinishingReleases(c, d, tid, t, how);
    }
    hide Work;
  }

  lemma PreparingReleases(c: Config, d: Disk, tid: Tid, t: Task, how: How)
    requires (t.pc.RRecord? || t.pc.RPrepare? || t.pc.RSaveAfter?) && !t.release
    ensures var u := Work(c, d, tid, t, how).1; !u.release && !Undispatched(u.pc)
  {
    hide Save, Writes;
  }

  lemma PublishReleases(c: Config, d: Disk, tid: Tid, t: Task, how: How)
    requires t.pc.RPublish? && !t.release
    ensures var u := Work(c, d, tid, t, how).1; !u.release && !Undispatched(u.pc)
  {
    hide Publish, Writes;
  }

  lemma CheckingReleases(c: Config, d: Disk, tid: Tid, t: Task, how: How)
    requires (t.pc.RLive? || t.pc.RObserve?) && !t.release
    ensures var u := Work(c, d, tid, t, how).1; !u.release && !Undispatched(u.pc)
  {}

  lemma FinishingReleases(c: Config, d: Disk, tid: Tid, t: Task, how: How)
    requires (t.pc.RFinish? || t.pc.RCatch? || t.pc.End?) && !t.release
    ensures var u := Work(c, d, tid, t, how).1; !u.release && !Undispatched(u.pc)
  {
    hide Save, Writes;
  }

  /** And by a reconciliation: exactly when it ends with the journal's receipt agreeing, or on a known successor. */
  lemma ReconcileReleases(c: Config, d: Disk, tid: Tid, t: Task, how: How)
    requires Reconciling(t.pc) && !t.release
    ensures var u := Work(c, d, tid, t, how).1;
      u.release ==> u.pc.End? && ((t.pc.QCommit? && Agreed(d, t, how)) || (t.pc.QDecide? && how.Well? && t.key in d.records))
    ensures t.pc.QCommit? && Agreed(d, t, how) ==> Work(c, d, tid, t, how).1.release
  {
    hide Save, Store, Writes, Settled, KnownSuccessor, Expected;
  }

  /** An exception after the dispatch, outside the catch block, leads there; with the record written or on its way it is known of. */
  lemma LateThrown(c: Config, d: Disk, tid: Tid, t: Task, how: How)
    requires (Mover(t.pc) || t.pc.RObserve? || t.pc.RFinish? || t.pc.RCommit?) && (how.Thrown? || how.ThrownAfter?)
    ensures var u := Work(c, d, tid, t, how).1;
      u == if t.pc.RRecord? then t.(recorded := true, pc := RCatch) else if t.caught then t.(pc := End) else t.(pc := RCatch)
  {
    hide Save, Publish, Store;
  }

  /** What is refused: the record's place, a base to prepare, the record itself, the receipt. */
  lemma LateRefused(c: Config, d: Disk, tid: Tid, t: Task)
    ensures var u := Work(c, d, tid, t, Refused).1;
      && (t.pc.RRecord? ==> u == t.(pc := RCatch)) && (t.pc.RFinish? || t.pc.RCommit? || t.pc.QFinish? ==> u == t.(pc := End))
      && (t.pc.RPrepare? && !t.caught ==> u == t.(pc := RCatch))
      && (t.pc.RLive? || (t.pc.RPublish? && (d.head != t.before || t.after.Some?)) ==> u == t.(status := Failed, pc := RFinish))
  {
    hide Save, Publish, Store, Commits;
  }

  /** A reconciliation that a step fails in ends there, its lock kept. */
  lemma ReconcileFails(c: Config, d: Disk, tid: Tid, t: Task, how: How)
    requires Reconciling(t.pc) && !t.release && !how.Well? && !(t.pc.QCommit? && Goes(how))
    ensures Work(c, d, tid, t, how).1 == t.(pc := End)
  {
    hide Save, Store, Writes, Decide;
  }

  /** HEAD that is not seen on the target after the publication settles nothing: the call ends without a word, its lock kept. */
  lemma Unobserved(c: Config, d: Disk, tid: Tid, t: Task)
    requires t.pc.RObserve? && t.after != Some(d.head)
    ensures Work(c, d, tid, t, Well) == (d, t.(pc := End))
  {}

  /** The catch block tells of a failure only with a record and HEAD still on its base; otherwise it leaves lock and claim. */
  lemma Catches(c: Config, d: Disk, tid: Tid, t: Task, how: How)
    requires t.pc.RCatch?
    ensures Work(c, d, tid, t, how) ==
      (d, if how.Well? && t.recorded && t.before == d.head then t.(status := Failed, caught := true, pc := RFinish) else t.(pc := End))
  {}

  // ---- of the locks -----------------------------------------------------------------------------------------------------------

  /** Who does not get in is gone, and the writer lock is as it was. */
  lemma NotIn(c: Config, l: Locks, tid: Tid, seat: Seat, release: bool, how: How)
    requires (seat.stage.RLock? || seat.stage.QExists? || seat.stage.QArbiter?) && !how.Well?
    ensures Turn(c, l, tid, seat, release, how) ==
      l.(seats := l.seats - {tid}, arbiter := if seat.stage.QArbiter? && how.ThrownAfter? && l.arbiter.None? then Some(tid) else l.arbiter)
  {}

  /** A take-over that a step fails in goes no further: the writer lock is as it was, and the arbiter is about to be dropped. */
  lemma TakeOverFails(c: Config, l: Locks, tid: Tid, seat: Seat, release: bool, how: How)
    requires seat.reconcile && !how.Well? && !how.DropArbiter?
    requires seat.stage.Making? || seat.stage.QRead? || seat.stage.QProbe? || seat.stage.QRemove? || seat.stage.QTake?
    ensures Turn(c, l, tid, seat, release, how) == l.(seats := l.seats[tid := seat.(stage := QDrop)])
  {}

  /** A lock directory that gets no owner file stays behind; so does the lock of a call that may not, or cannot, give it back. */
  lemma LockStays(c: Config, l: Locks, tid: Tid, seat: Seat, release: bool, how: How)
    requires (seat.stage.Making? && !seat.reconcile && !how.Well? && !how.DropArbiter?) || (seat.stage.Working? && !(release && how.Well?))
    ensures Turn(c, l, tid, seat, release, how) ==
      l.(seats := l.seats - {tid}, active := if seat.stage.Working? && !seat.reconcile then l.active - {seat.owner} else l.active)
  {}

  /** Dropping out gives the arbiter back, whatever happens; until it is given back no take-over gets to work. */
  lemma ArbiterDropped(c: Config, l: Locks, tid: Tid, seat: Seat, release: bool, how: How)
    ensures seat.stage.QDrop? ==>
      Turn(c, l, tid, seat, release, how) == l.(seats := l.seats - {tid}, arbiter := if seat.arbiter then None else l.arbiter)
    ensures seat.stage.QReady? && seat.arbiter && !how.DropArbiter? ==> Turn(c, l, tid, seat, release, how) == l
    ensures (seat.stage.Making? || seat.stage.QTake? || seat.stage.QReady?) && how.DropArbiter? && seat.arbiter ==>
      Turn(c, l, tid, seat, release, how) == l.(seats := l.seats[tid := seat.(arbiter := false)], arbiter := None)
  {}

  /** A process that dies takes its calls and its memory with it; locks, disk and everybody else stay as they are. */
  lemma CrashLeaves(c: Config, s: Sys, inst: Inst)
    ensures var r := Next(c, s, Crash(inst));
      && r.disk == s.disk && r.work == s.work && r.locks.writer == s.locks.writer && r.locks.arbiter == s.locks.arbiter && r.locks.tids == s.locks.tids
      && r.locks.dead == s.locks.dead + {inst}
      && (forall o :: o in r.locks.active <==> o in s.locks.active && o.inst != inst)
      && (forall i :: i in r.locks.seats <==> i in s.locks.seats && s.locks.seats[i].owner.inst != inst)
      && (forall i :: i in r.locks.seats ==> r.locks.seats[i] == s.locks.seats[i])
  {}

  /** A move from outside puts HEAD on a base nobody has used, and leaves everything else as it is. */
  lemma OutsideLeaves(c: Config, s: Sys, base: Base)
    ensures var r := Next(c, s, Outside(base));
      r.locks == s.locks && r.work == s.work
      && r.disk == if base in s.disk.used then s.disk
                   else s.disk.(head := base, past := s.disk.past + {s.disk.head}, used := s.disk.used + {base})
  {}

  /** A call of `run` for an effect that was dispatched does not start. */
  lemma NoSecondRun(c: Config, s: Sys, tid: Tid, owner: Owner)
    requires owner.key in s.disk.dispatched
    ensures Next(c, s, StartRun(tid, owner)) == s
  {}

  // ---- of a call that is turned away ------------------------------------------------------------------------------------------

  /** The fence lets by a newer token, and the same claim's again. */
  predicate LetsBy(fence: Option<Fence>, token: int, claim: string) {
    fence.None? || fence.value.token < token || (fence.value.token == token && fence.value.claim == claim)
  }

  lemma AdmitsIff(c: Config, fence: Option<Fence>, key: Key)
    ensures Admits(fence, FenceOf(c, key)) <==> LetsBy(fence, c.token(key), c.claim(key))
  {}

  /** A call the fence does not let by changes nothing and gives the lock back; its effect can still be dispatched. */
  lemma RunFencedOff(c: Config, base: Base, steps: seq<Step>, tid: Tid, owner: Owner)
    requires var s := After(c, base, steps);
      MayRun(c, s, tid, owner) && !LetsBy(s.disk.fence, c.token(owner.key), c.claim(owner.key))
    ensures var s := After(c, base, steps);
      var r := Run(c, s, Taking(tid, owner) + (Own(tid, [Well, Well]) + [Go(tid, Well)]));
      r.disk == s.disk && Restored(s.locks, tid, owner, r.locks)
  {
    var s := After(c, base, steps);
    LockTaken(c, s, tid, owner);
    var held := Lead(c, s, Taking(tid, owner));
    AdmitsIff(c, s.disk.fence, owner.key);
    var u := FencedOff(c, held, tid);
    var rest := Own(tid, [Well, Well]) + [Go(tid, Well)];
    hide After, MayRun, Admits, FenceOf, Next, Run, Lead, Own, Leads, LetsBy;
    LeadsBack(c, held, tid, [Well, Well], s.disk, u);
    LeadIsRun(c, s, Taking(tid, owner));
    RunAppend(c, s, Taking(tid, owner), rest);
    GaveBackRestores(s.locks, tid, owner, held.locks, Run(c, held, rest).locks);
  }

  lemma FencedOff(c: Config, s: Sys, tid: Tid) returns (u: Task)
    requires Starts(s, tid) && s.work[tid].release && !Admits(s.disk.fence, FenceOf(c, s.work[tid].key))
    ensures Leads(c, tid, s.disk, s.work[tid], [Well, Well], s.disk, u) && u.pc.End? && u.release
  {
    var d, t := s.disk, s.work[tid];
    var v := t.(before := d.head, pc := RFenceRead);
    u := v.(pc := End);
    assert Work(c, d, tid, t, Well) == (d, v) && Work(c, d, tid, v, Well) == (d, u) by { hide Admits, FenceOf; }
    assert Leads(c, tid, d, u, [], d, u);
    hide Work, Leads;
    LeadsOne(c, tid, d, v, Well, d, u, [], d, u);
    LeadsOne(c, tid, d, t, Well, d, v, [Well] + [], d, u);
    assert [Well] + ([Well] + []) == [Well, Well];
  }
}
