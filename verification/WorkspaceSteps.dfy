/** What one step of work can do: to the disk, and to the call that takes it. */
module WorkspaceSteps {
  import opened Options
  import opened Workspace

  predicate Reconciling(pc: Pc) { pc.QHead? || pc.QDecide? || pc.QFinish? || pc.QCommit? }

  /** Where the call's status is about to be written down. */
  predicate Telling(pc: Pc) { pc.RFinish? || pc.RCommit? || pc.QFinish? || pc.QCommit? }

  /** From its dispatch to its publication. */
  predicate Mover(pc: Pc) { pc.RRecord? || pc.RPrepare? || pc.RSaveAfter? || pc.RLive? || pc.RPublish? }

  function Prepare(d: Disk, key: Key, base: Base): Disk { d.(used := d.used + {base}, made := d.made[base := key]) }

  /** Everything a step of `run` may do to the disk. */
  ghost predicate RunEffect(d: Disk, tid: Tid, t: Task, how: How, e: Disk) {
    || e == d || (exists f :: e == d.(fence := f))
    || (t.pc.RDispatch? && t.key !in d.dispatched && e == d.(dispatched := d.dispatched[t.key := tid]))
    || (exists base :: base !in d.used && e == Prepare(d, t.key, base))
    || ((t.pc.RRecord? || t.pc.RSaveAfter?) && e == Save(d, t, None)) || (t.pc.RFinish? && e == Save(d, t, Some(t.status)))
    || (t.pc.RPublish? && t.after.Some? && d.head == t.before && e == Publish(d, tid, t))
    || (t.pc.RCommit? && e == Store(d, t, how))
  }

  lemma RunEffects(c: Config, d: Disk, tid: Tid, t: Task, how: How)
    ensures RunEffect(d, tid, t, how, RunWork(c, d, tid, t, how).0)
  {
    hide Admits, Commits, Throw, Save, Store, Publish;
  }

  /** A step adds at most one move, the call's own, when it publishes. */
  lemma RunMoves(c: Config, d: Disk, tid: Tid, t: Task, how: How)
    ensures var e := RunWork(c, d, tid, t, how).0;
      e.moves == d.moves || (t.pc.RPublish? && t.after.Some? && e.moves == d.moves + [Move(t.key, tid, t.before, t.after.value)])
  {
    RunEffects(c, d, tid, t, how);
    hide RunWork;
  }

  lemma ReconcileEffects(c: Config, d: Disk, t: Task, how: How)
    ensures var e := ReconcileWork(c, d, t, how).0;
      e == d || (t.pc.QFinish? && e == Save(d, t, Some(t.status))) || (t.pc.QCommit? && e == Store(d, t, how))
  {
    hide Decide, Commits, Save, Store;
  }

  lemma RunDispatches(c: Config, d: Disk, tid: Tid, t: Task, how: How)
    ensures var e := RunWork(c, d, tid, t, how).0; e.dispatched == d.dispatched || e.dispatched == d.dispatched[t.key := tid]
  {
    RunEffects(c, d, tid, t, how);
    hide RunWork, Commits;
  }

  predicate Early(pc: Pc) { pc.RHead? || pc.RFenceRead? || pc.RFenceWrite? || pc.RDispatch? || pc.RRecord? || pc.RPrepare? || pc.RSaveAfter? }

  /** What a step of `run` makes of the call: a new target is prepared here, and `applied` is told of a published one only. */
  predicate RunTask(d: Disk, tid: Tid, t: Task, how: How, e: Disk, u: Task) {
    && u.key == t.key && u.reconciles == t.reconciles && !Reconciling(u.pc)
    && (u.after == t.after || (how.Fresh? && how.base !in d.used && u.after == Some(how.base) && e == Prepare(d, t.key, how.base)))
    && (u.pc.RObserve? ==> t.after.Some? && e == Publish(d, tid, t))
    && (Telling(u.pc) && u.status == Applied ==> t.pc.RObserve? || (t.pc.RFinish? && t.status == Applied))
    && (Mover(u.pc) ==> (Mover(t.pc) && !t.pc.RPublish?) || (t.pc.RDispatch? && t.key !in d.dispatched))
  }

  lemma EarlyTask(c: Config, d: Disk, tid: Tid, t: Task, how: How)
    requires Early(t.pc)
    ensures var w := RunWork(c, d, tid, t, how); RunTask(d, tid, t, how, w.0, w.1)
  {
    hide Admits, FenceOf, Save, Publish, Writes;
  }

  /** From the last check of the lease to the observation of HEAD. */
  predicate Publishing(pc: Pc) { pc.RLive? || pc.RPublish? || pc.RObserve? }

  lemma PublishingTask(c: Config, d: Disk, tid: Tid, t: Task, how: How)
    requires Publishing(t.pc)
    ensures var w := RunWork(c, d, tid, t, how); RunTask(d, tid, t, how, w.0, w.1)
  {
    hide Publish;
  }

  lemma FinishTask(c: Config, d: Disk, tid: Tid, t: Task, how: How)
    requires t.pc.RFinish?
    ensures var w := RunWork(c, d, tid, t, how); RunTask(d, tid, t, how, w.0, w.1)
  {
    hide Save, Publish, Prepare, Writes;
  }

  lemma LateTask(c: Config, d: Disk, tid: Tid, t: Task, how: How)
    requires t.pc.RCommit? || t.pc.RCatch? || t.pc.End?
    ensures var w := RunWork(c, d, tid, t, how); RunTask(d, tid, t, how, w.0, w.1)
  {
    hide Commits, Save, Store, Publish, Prepare, Writes, Goes;
  }

  lemma RunTasks(c: Config, d: Disk, tid: Tid, t: Task, how: How)
    requires !Reconciling(t.pc)
    ensures var w := RunWork(c, d, tid, t, how); RunTask(d, tid, t, how, w.0, w.1)
  {
    hide RunWork, RunTask;
    if Early(t.pc) {
      EarlyTask(c, d, tid, t, how);
    } else if Publishing(t.pc) {
      PublishingTask(c, d, tid, t, how);
    } else if t.pc.RFinish? {
      FinishTask(c, d, tid, t, how);
    } else {
      LateTask(c, d, tid, t, how);
    }
  }

  lemma DispatchOwns(c: Config, d: Disk, tid: Tid, t: Task, how: How)
    requires t.pc.RDispatch?
    ensures var w := RunWork(c, d, tid, t, how); Mover(w.1.pc) ==> t.key in w.0.dispatched && w.0.dispatched[t.key] == tid
  {}

  /** A call of `run` that has dispatched and not ended. */
  predicate Begun(pc: Pc) { Mover(pc) || pc.RObserve? || pc.RFinish? || pc.RCommit? || pc.RCatch? }

  /** How a step of `run` hands on what the call knows: its base, its place after the dispatch, and why it reports a failure. */
  predicate RunOn(d: Disk, tid: Tid, t: Task, e: Disk, u: Task) {
    && (!t.pc.RHead? ==> u.before == t.before)
    && (u.after == t.after || (t.pc.RPrepare? && u.pc.RSaveAfter?))
    && (Begun(t.pc) ==> Begun(u.pc) || u.pc.End?)
    && (Begun(u.pc) && !Begun(t.pc) ==> e.dispatched == d.dispatched[t.key := tid])
    && (e.dispatched == d.dispatched
        || (t.pc.RDispatch? && t.key !in d.dispatched && e.dispatched == d.dispatched[t.key := tid] && (u.pc.RRecord? || u.pc.End?)))
    && (Telling(u.pc) && u.status != Applied ==>
          (Mover(t.pc) && e == d) || (t.pc.RFinish? && t.status == u.status) || (t.pc.RCatch? && e == d && d.head == t.before))
    && (u.pc.RLive? ==> t.pc.RSaveAfter? && e == Save(d, t, None))
    && (u.pc.RPublish? ==> t.pc.RLive? && e == d)
  }

  lemma DispatchOn(c: Config, d: Disk, tid: Tid, t: Task, how: How)
    requires t.pc.RDispatch?
    ensures var w := RunWork(c, d, tid, t, how); RunOn(d, tid, t, w.0, w.1)
  {
    hide Admits, FenceOf, Save;
  }

  lemma OpeningOn(c: Config, d: Disk, tid: Tid, t: Task, how: How)
    requires Early(t.pc) && !Mover(t.pc) && !t.pc.RDispatch?
    ensures var w := RunWork(c, d, tid, t, how); RunOn(d, tid, t, w.0, w.1)
  {
    hide Admits, FenceOf, Save;
  }

  lemma PreparingOn(c: Config, d: Disk, tid: Tid, t: Task, how: How)
    requires Early(t.pc) && Mover(t.pc)
    ensures var w := RunWork(c, d, tid, t, how); RunOn(d, tid, t, w.0, w.1)
  {
    hide Save, FenceOf, Admits;
    SaveDispatches(d, t);
  }

  lemma SaveDispatches(d: Disk, t: Task)
    ensures Save(d, t, None).dispatched == d.dispatched
  {}

  lemma PublishingOn(c: Config, d: Disk, tid: Tid, t: Task, how: How)
    requires Publishing(t.pc)
    ensures var w := RunWork(c, d, tid, t, how); RunOn(d, tid, t, w.0, w.1)
  {
    hide Save;
  }

  lemma FinishOn(c: Config, d: Disk, tid: Tid, t: Task, how: How)
    requires t.pc.RFinish?
    ensures var w := RunWork(c, d, tid, t, how); RunOn(d, tid, t, w.0, w.1)
  {
    hide Writes;
  }

  lemma LateOn(c: Config, d: Disk, tid: Tid, t: Task, how: How)
    requires t.pc.RCommit? || t.pc.RCatch? || t.pc.End?
    ensures var w := RunWork(c, d, tid, t, how); RunOn(d, tid, t, w.0, w.1)
  {
    hide Commits, Save, Writes, Goes;
  }

  lemma RunsOnward(c: Config, d: Disk, tid: Tid, t: Task, how: How)
    requires !Reconciling(t.pc)
    ensures var w := RunWork(c, d, tid, t, how); RunOn(d, tid, t, w.0, w.1)
  {
    hide RunWork, RunOn;
    if t.pc.RDispatch? {
      DispatchOn(c, d, tid, t, how);
    } else if Early(t.pc) && !Mover(t.pc) {
      OpeningOn(c, d, tid, t, how);
    } else if Early(t.pc) {
      PreparingOn(c, d, tid, t, how);
    } else if Publishing(t.pc) {
      PublishingOn(c, d, tid, t, how);
    } else if t.pc.RFinish? {
      FinishOn(c, d, tid, t, how);
    } else {
      LateOn(c, d, tid, t, how);
    }
  }

  lemma ReconcileKey(c: Config, d: Disk, t: Task, how: How)
    ensures var u := ReconcileWork(c, d, t, how).1; u.key == t.key && u.reconciles == t.reconciles
  {
    hide Settled, Expected, Commits, KnownSuccessor, Save, Store;
  }

  lemma ReconcileDispatches(c: Config, d: Disk, t: Task, how: How)
    ensures ReconcileWork(c, d, t, how).0.dispatched == d.dispatched
  {
    ReconcileEffects(c, d, t, how);
    hide ReconcileWork, Commits;
  }

  /** A stored receipt stays as it is. */
  lemma StoreKeepsReceipt(d: Disk, t: Task, how: How, k: Key)
    requires k in d.receipts
    ensures var e := Store(d, t, how); k in e.receipts && e.receipts[k] == d.receipts[k]
  {}

  lemma RunKeepsReceipt(c: Config, d: Disk, tid: Tid, t: Task, how: How, k: Key)
    requires k in d.receipts
    ensures var e := RunWork(c, d, tid, t, how).0; k in e.receipts && e.receipts[k] == d.receipts[k]
  {
    RunEffects(c, d, tid, t, how);
    StoreKeepsReceipt(d, t, how, k);
    hide RunWork, Store;
  }

  lemma ReconcileKeepsReceipt(c: Config, d: Disk, t: Task, how: How, k: Key)
    requires k in d.receipts
    ensures var e := ReconcileWork(c, d, t, how).0; k in e.receipts && e.receipts[k] == d.receipts[k]
  {
    ReconcileEffects(c, d, t, how);
    StoreKeepsReceipt(d, t, how, k);
    hide ReconcileWork, Store;
  }
}
