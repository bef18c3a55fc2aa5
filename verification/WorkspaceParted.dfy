/** Receipts are honest whoever holds or takes a lock, as long as no `reconcile` of an effect is live together with a `run` of it. */
module WorkspaceParted {
  import opened Options
  import opened Workspace
  import opened WorkspaceLocks
  import opened WorkspaceData
  import opened WorkspaceSteps
  import opened WorkspaceRuns
  import opened WorkspaceAlways

  // ---- the call behind a dispatch: what its variables say of the key's move ----------------------------------------

  predicate Rooted(work: map<Tid, Task>, dispatched: map<Key, Tid>, k: Key) {
    && k in dispatched && dispatched[k] in work
    && var t := work[dispatched[k]]; t.key == k && !t.reconciles && (Begun(t.pc) || t.pc.End?)
  }

  /** Every dispatch is some call's, and whoever has begun has its own. */
  predicate RootsOk(work: map<Tid, Task>, dispatched: map<Key, Tid>) {
    && (forall k :: k in dispatched ==> Rooted(work, dispatched, k))
    && (forall i :: i in work && Begun(work[i].pc) ==> work[i].key in dispatched && dispatched[work[i].key] == i)
    && (forall i :: i in work && work[i].reconciles ==> Reconciling(work[i].pc) || work[i].pc.End?)
    && (forall i :: i in work && !work[i].reconciles ==> !Reconciling(work[i].pc))
  }

  predicate Made(t: Task, m: Move) { t.before == m.before && t.after == Some(m.after) }

  /** A move went from the base its call started from to the one it prepared; a record says the same base. */
  predicate BasesRooted(work: map<Tid, Task>, d: Disk) {
    && (forall i :: 0 <= i < |d.moves| ==> Rooted(work, d.dispatched, d.moves[i].key) && Made(work[d.dispatched[d.moves[i].key]], d.moves[i]))
    && (forall k :: k in d.records ==> Rooted(work, d.dispatched, k) && work[d.dispatched[k]].before == d.records[k].before)
  }

  /** HEAD never returns to a base it left; a prepared base it left had been moved to. */
  predicate PastOk(d: Disk) {
    && d.head !in d.past && d.past <= d.used
    && (forall b :: b in d.past ==> Arrived(d.made, d.moves, b))
    && (forall i :: 0 <= i < |d.moves| ==> d.moves[i].before in d.past)
  }

  /** Live calls have their own variables, and the two kinds of call for one key are never live together. */
  predicate SeatsApart(seats: map<Tid, Seat>, tids: set<Tid>, work: map<Tid, Task>) {
    && (forall i :: i in work ==> i in tids)
    && (forall i :: i in seats ==> i in work && work[i].key == seats[i].owner.key && work[i].reconciles == seats[i].reconcile)
    && (forall i, j :: i in seats && j in seats && seats[i].owner.key == seats[j].owner.key ==> seats[i].reconcile == seats[j].reconcile)
  }

  // ---- effects that will not move any more ---------------------------------------------------------------------------

  /** The key has not moved HEAD, and no live call is on its way to. */
  predicate Dormant(seats: map<Tid, Seat>, work: map<Tid, Task>, d: Disk, k: Key) {
    Rooted(work, d.dispatched, k) && !Moved(d.moves, k) && (d.dispatched[k] in seats ==> !Mover(work[d.dispatched[k]].pc))
  }

  /** Whoever says `failed` or `not-executed` says it of such a key. */
  predicate FailuresDormant(seats: map<Tid, Seat>, work: map<Tid, Task>, d: Disk) {
    && (forall k :: k in d.records && d.records[k].completed.Some? && d.records[k].completed != Some(Applied) ==> Dormant(seats, work, d, k))
    && (forall k :: k in d.receipts && d.receipts[k] != Applied ==> Dormant(seats, work, d, k))
    && (forall i :: i in work && Telling(work[i].pc) && work[i].status != Applied ==> Dormant(seats, work, d, work[i].key))
  }

  /** The record of a move tells it. */
  predicate MovesTold(d: Disk) {
    forall i :: 0 <= i < |d.moves| ==> d.moves[i].key in d.records && Tells(d.records[d.moves[i].key], d.moves[i])
  }

  /** What a live call knows of its key's record, and of the head it saw. */
  predicate Informed(d: Disk, t: Task) {
    && (t.pc.RLive? || t.pc.RPublish? || t.pc.QFinish? ==>
          t.key in d.records && d.records[t.key].before == t.before && d.records[t.key].after == t.after)
    && (t.pc.QDecide? ==> forall i :: 0 <= i < |d.moves| && d.moves[i].key == t.key ==> d.moves[i].before != t.current)
  }

  predicate Told(seats: map<Tid, Seat>, work: map<Tid, Task>, d: Disk) {
    MovesTold(d) && forall i :: i in seats ==> i in work && Informed(d, work[i])
  }

  predicate Consistent(seats: map<Tid, Seat>, tids: set<Tid>, work: map<Tid, Task>, d: Disk) {
    && RootsOk(work, d.dispatched) && BasesRooted(work, d) && PastOk(d) && SeatsApart(seats, tids, work)
    && FailuresDormant(seats, work, d) && Told(seats, work, d)
  }

  predicate Sound(s: Sys) { Always(s) && Consistent(s.locks.seats, s.locks.tids, s.work, s.disk) }

  lemma InitSound(base: Base)
    ensures Sound(Init(base))
  {
    InitAlways(base);
    hide Always;
  }

  // ---- a step of `run` -------------------------------------------------------------------------------------------------

  /** The step's relations, side by side. */
  ghost predicate Stepped(d: Disk, tid: Tid, t: Task, how: How, e: Disk, u: Task) {
    RunEffect(d, tid, t, how, e) && RunTask(d, tid, t, how, e, u) && RunOn(d, tid, t, e, u)
  }

  lemma RunSteps(c: Config, d: Disk, tid: Tid, t: Task, how: How)
    requires !Reconciling(t.pc)
    ensures var w := RunWork(c, d, tid, t, how); Stepped(d, tid, t, how, w.0, w.1)
  {
    hide RunWork, RunEffect, RunTask, RunOn;
    RunEffects(c, d, tid, t, how);
    RunTasks(c, d, tid, t, how);
    RunsOnward(c, d, tid, t, how);
  }

  lemma RunRoots(work: map<Tid, Task>, d: Disk, tid: Tid, how: How, e: Disk, u: Task)
    requires tid in work && !Reconciling(work[tid].pc) && !work[tid].pc.End? && Stepped(d, tid, work[tid], how, e, u)
    requires RootsOk(work, d.dispatched)
    ensures RootsOk(work[tid := u], e.dispatched)
  {
    hide RunEffect, Publish, Save, Prepare;
  }

  /** A key keeps its root, and the root its base. */
  lemma RunRooted(work: map<Tid, Task>, d: Disk, tid: Tid, how: How, e: Disk, u: Task, k: Key)
    requires tid in work && Stepped(d, tid, work[tid], how, e, u) && !Reconciling(work[tid].pc) && !work[tid].pc.End?
    requires RootsOk(work, d.dispatched) && Rooted(work, d.dispatched, k)
    ensures Rooted(work[tid := u], e.dispatched, k) && e.dispatched[k] == d.dispatched[k]
    ensures work[tid := u][d.dispatched[k]].before == work[d.dispatched[k]].before
    ensures d.dispatched[k] == tid ==> k == work[tid].key && Begun(work[tid].pc)
  {
    RunRoots(work, d, tid, how, e, u);
    hide RunEffect, Publish, Save, Prepare;
  }

  /** What the disk of a step of `run` can be, as far as moves and records go. */
  lemma RunDisk(d: Disk, tid: Tid, t: Task, how: How, e: Disk)
    requires RunEffect(d, tid, t, how, e)
    ensures e.moves == d.moves || (t.pc.RPublish? && t.after.Some? && e == Publish(d, tid, t))
    ensures e.receipts == d.receipts || (t.pc.RCommit? && e == Store(d, t, how))
  {
    hide Commits;
  }

  lemma RunRecords(d: Disk, tid: Tid, t: Task, how: How, e: Disk)
    requires RunEffect(d, tid, t, how, e)
    ensures
      || e.records == d.records || ((t.pc.RRecord? || t.pc.RSaveAfter?) && e.records == d.records[t.key := Record(t.before, t.after, None)])
      || (t.pc.RFinish? && e.records == d.records[t.key := Record(t.before, t.after, Some(t.status))])
  {
    hide Commits;
  }

  lemma RunBases(work: map<Tid, Task>, d: Disk, tid: Tid, how: How, e: Disk, u: Task)
    requires tid in work && !Reconciling(work[tid].pc) && !work[tid].pc.End? && Stepped(d, tid, work[tid], how, e, u)
    requires RootsOk(work, d.dispatched) && BasesRooted(work, d) && Owns(d.dispatched, d.moves, tid, work[tid])
    ensures BasesRooted(work[tid := u], e)
  {
    var t, more := work[tid], work[tid := u];
    RunDisk(d, tid, t, how, e);
    RunRecords(d, tid, t, how, e);
    hide Rooted, Stepped, RunEffect, RunTask;
    forall i | 0 <= i < |e.moves| ensures Rooted(more, e.dispatched, e.moves[i].key) && Made(more[e.dispatched[e.moves[i].key]], e.moves[i]) {
      if i < |d.moves| {
        assert e.moves[i] == d.moves[i];
        RunRooted(work, d, tid, how, e, u, d.moves[i].key);
        RootMade(work, d, tid, how, e, u, i);
      } else {
        BegunRooted(work, d.dispatched, tid);
        RunRooted(work, d, tid, how, e, u, t.key);
        PublishedMade(d, tid, t, how, e, u);
      }
    }
    forall k | k in e.records ensures Rooted(more, e.dispatched, k) && more[e.dispatched[k]].before == e.records[k].before {
      if e.records != d.records && k == t.key { BegunRooted(work, d.dispatched, tid); }
      RunRooted(work, d, tid, how, e, u, k);
    }
  }

  lemma BegunRooted(work: map<Tid, Task>, dispatched: map<Key, Tid>, tid: Tid)
    requires RootsOk(work, dispatched) && tid in work && Begun(work[tid].pc)
    ensures Rooted(work, dispatched, work[tid].key) && dispatched[work[tid].key] == tid
  {}

  /** Whose key has moved prepares no more. */
  lemma RootMade(work: map<Tid, Task>, d: Disk, tid: Tid, how: How, e: Disk, u: Task, i: nat)
    requires tid in work && !Reconciling(work[tid].pc) && !work[tid].pc.End? && Stepped(d, tid, work[tid], how, e, u)
    requires RootsOk(work, d.dispatched) && BasesRooted(work, d) && Owns(d.dispatched, d.moves, tid, work[tid]) && i < |d.moves|
    ensures Made(work[tid := u][d.dispatched[d.moves[i].key]], d.moves[i])
  {
    hide RunEffect, RunTask;
    assert Rooted(work, d.dispatched, d.moves[i].key) && Made(work[d.dispatched[d.moves[i].key]], d.moves[i]);
    if d.dispatched[d.moves[i].key] == tid { assert Moved(d.moves, work[tid].key); }
  }

  lemma PublishedMade(d: Disk, tid: Tid, t: Task, how: How, e: Disk, u: Task)
    requires Stepped(d, tid, t, how, e, u) && t.pc.RPublish? && t.after.Some? && e == Publish(d, tid, t)
    ensures Made(u, e.moves[|d.moves|])
  {
    hide RunEffect, RunTask;
  }

  /** A base prepared for a key that has not moved is one HEAD never stood on. */
  lemma NewGround(d: Disk, t: Task)
    requires HeadAlways(d) && PastOk(d) && MadeFor(d.made, t.key, t.after) && t.after.Some? && !Moved(d.moves, t.key)
    ensures t.after.value !in d.past && t.after.value != d.head
  {
    if t.after.value in d.past || t.after.value == d.head { ArrivedMoved(d, t.after.value); }
  }

  lemma ArrivedMoved(d: Disk, b: Base)
    requires HeadAlways(d) && b in d.made && Arrived(d.made, d.moves, b)
    ensures Moved(d.moves, d.made[b])
  {
    var i :| 0 <= i < |d.moves| && d.moves[i].after == b;
    assert MadeFor(d.made, d.moves[i].key, Some(d.moves[i].after));
  }

  lemma PublishPast(d: Disk, tid: Tid, t: Task)
    requires HeadAlways(d) && PastOk(d) && MadeFor(d.made, t.key, t.after) && t.after.Some? && !Moved(d.moves, t.key) && d.head == t.before
    ensures PastOk(Publish(d, tid, t))
  {
    var e := Publish(d, tid, t);
    NewGround(d, t);
    PublishGrows(d, tid, t);
    forall b | b in e.past ensures Arrived(e.made, e.moves, b) { ArrivedStays(d, e, b); }
    assert t.after.value in d.used by { assert t.after.value in d.made.Keys; }
    hide Arrived, Moved, Grows;
  }

  lemma PreparePast(d: Disk, key: Key, base: Base)
    requires HeadAlways(d) && PastOk(d) && base !in d.used
    ensures PastOk(Prepare(d, key, base))
  {
    forall b | b in d.past ensures Arrived(d.made[base := key], d.moves, b) { assert Arrived(d.made, d.moves, b); }
  }

  lemma RunPast(d: Disk, tid: Tid, t: Task, how: How, e: Disk)
    requires RunEffect(d, tid, t, how, e) && HeadAlways(d) && PastOk(d) && MadeFor(d.made, t.key, t.after)
    requires t.pc.RPublish? ==> !Moved(d.moves, t.key)
    ensures PastOk(e)
  {
    if t.pc.RPublish? && t.after.Some? && d.head == t.before { PublishPast(d, tid, t); }
    forall base | base !in d.used ensures PastOk(Prepare(d, t.key, base)) { PreparePast(d, t.key, base); }
    hide HeadAlways, Arrived, Moved, Publish, Prepare, MadeFor;
  }

  // ---- dormant stays dormant ---------------------------------------------------------------------------------------------

  lemma RunDormant(seats: map<Tid, Seat>, work: map<Tid, Task>, d: Disk, tid: Tid, how: How, e: Disk, u: Task, k: Key)
    requires tid in work && tid in seats && !Reconciling(work[tid].pc) && !work[tid].pc.End? && Stepped(d, tid, work[tid], how, e, u)
    requires RootsOk(work, d.dispatched) && Dormant(seats, work, d, k)
    ensures Dormant(seats, work[tid := u], e, k)
  {
    var t := work[tid];
    RunRooted(work, d, tid, how, e, u, k);
    RunDisk(d, tid, t, how, e);
    RunRecords(d, tid, t, how, e);
    if e.moves != d.moves {
      BegunRooted(work, d.dispatched, tid);
      MovedBy(d.moves, Move(t.key, tid, t.before, t.after.value), k);
    }
    hide Moved, RunEffect, RunOn, RootsOk;
  }

  /** The step that first says `failed` leaves the key dormant. */
  lemma FailsDormant(seats: map<Tid, Seat>, work: map<Tid, Task>, d: Disk, tid: Tid, how: How, e: Disk, u: Task)
    requires tid in work && tid in seats && !Reconciling(work[tid].pc) && !work[tid].pc.End? && Stepped(d, tid, work[tid], how, e, u)
    requires RootsOk(work, d.dispatched) && BasesRooted(work, d) && PastOk(d) && Owns(d.dispatched, d.moves, tid, work[tid])
    requires Telling(u.pc) && u.status != Applied && !work[tid].pc.RFinish?
    ensures Dormant(seats, work[tid := u], e, work[tid].key)
  {
    var t := work[tid];
    BegunRooted(work, d.dispatched, tid);
    RunRooted(work, d, tid, how, e, u, t.key);
    if t.pc.RCatch? { NotMovedFrom(work, d, tid); }
    hide RunEffect, RootsOk, BasesRooted, PastOk, Moved;
  }

  /** HEAD on the base the call started from: its key has not moved. */
  lemma NotMovedFrom(work: map<Tid, Task>, d: Disk, tid: Tid)
    requires tid in work && RootsOk(work, d.dispatched) && BasesRooted(work, d) && PastOk(d) && Begun(work[tid].pc) && d.head == work[tid].before
    ensures !Moved(d.moves, work[tid].key)
  {
    forall i | 0 <= i < |d.moves| ensures d.moves[i].key != work[tid].key {
      assert Rooted(work, d.dispatched, d.moves[i].key) && Made(work[d.dispatched[d.moves[i].key]], d.moves[i]);
      assert d.moves[i].before in d.past;
    }
  }

  /** What a step of `run` writes of failures, it may. */
  lemma RunWritesFailures(d: Disk, tid: Tid, t: Task, how: How, e: Disk, k: Key)
    requires RunEffect(d, tid, t, how, e)
    ensures k in e.records && e.records[k].completed.Some? && e.records[k].completed != Some(Applied) ==>
              (k in d.records && d.records[k].completed.Some? && d.records[k].completed != Some(Applied))
              || (k == t.key && Telling(t.pc) && t.status != Applied)
    ensures k in e.receipts && e.receipts[k] != Applied ==>
              (k in d.receipts && d.receipts[k] != Applied) || (k == t.key && Telling(t.pc) && t.status != Applied)
  {
    RunDisk(d, tid, t, how, e);
    RunRecords(d, tid, t, how, e);
    hide RunEffect, Commits;
  }

  lemma RunFailures(seats: map<Tid, Seat>, work: map<Tid, Task>, d: Disk, tid: Tid, how: How, e: Disk, u: Task)
    requires tid in work && tid in seats && !Reconciling(work[tid].pc) && !work[tid].pc.End? && Stepped(d, tid, work[tid], how, e, u)
    requires RootsOk(work, d.dispatched) && BasesRooted(work, d) && PastOk(d) && Owns(d.dispatched, d.moves, tid, work[tid])
    requires FailuresDormant(seats, work, d)
    ensures FailuresDormant(seats, work[tid := u], e)
  {
    var t, more := work[tid], work[tid := u];
    forall k | Dormant(seats, work, d, k) ensures Dormant(seats, more, e, k) { RunDormant(seats, work, d, tid, how, e, u, k); }
    if Telling(u.pc) && u.status != Applied && !t.pc.RFinish? { FailsDormant(seats, work, d, tid, how, e, u); }
    forall k { RunWritesFailures(d, tid, t, how, e, k); }
    hide RunEffect, Dormant, RootsOk, BasesRooted, PastOk, Owns;
    FinishTells(d, tid, t, how, e, u);
    hide Stepped;
  }

  lemma FinishTells(d: Disk, tid: Tid, t: Task, how: How, e: Disk, u: Task)
    requires Stepped(d, tid, t, how, e, u) && !Reconciling(t.pc)
    ensures u.key == t.key && (t.pc.RFinish? && Telling(u.pc) && u.status != Applied ==> t.status != Applied)
  {
    hide RunEffect;
  }

  lemma RunTold(work: map<Tid, Task>, d: Disk, tid: Tid, how: How, e: Disk)
    requires tid in work && RunEffect(d, tid, work[tid], how, e) && RootsOk(work, d.dispatched) && BasesRooted(work, d)
    requires MovesTold(d) && Informed(d, work[tid])
    ensures MovesTold(e)
  {
    var t := work[tid];
    RunDisk(d, tid, t, how, e);
    RunRecords(d, tid, t, how, e);
    hide RunEffect;
    forall i | 0 <= i < |e.moves| ensures e.moves[i].key in e.records && Tells(e.records[e.moves[i].key], e.moves[i]) {
      if i < |d.moves| {
        assert e.moves[i] == d.moves[i] && Tells(d.records[d.moves[i].key], d.moves[i]);
        if d.moves[i].key == t.key && Begun(t.pc) {
          BegunRooted(work, d.dispatched, tid);
          assert Made(work[d.dispatched[d.moves[i].key]], d.moves[i]);
        }
      }
    }
  }

  /** What the step does to its key is no other live call's to know. */
  lemma OthersInformed(seats: map<Tid, Seat>, tids: set<Tid>, work: map<Tid, Task>, d: Disk, tid: Tid, how: How, e: Disk, i: Tid)
    requires tid in work && tid in seats && !Reconciling(work[tid].pc) && !work[tid].pc.End? && RunEffect(d, tid, work[tid], how, e)
    requires RootsOk(work, d.dispatched) && SeatsApart(seats, tids, work) && i in seats && i != tid && Informed(d, work[i])
    ensures Informed(e, work[i])
  {
    var t, v := work[tid], work[i];
    RunDisk(d, tid, t, how, e);
    RunRecords(d, tid, t, how, e);
    assert t.key != v.key || (!Reconciling(v.pc) && !v.reconciles);
    hide RunEffect;
    if Begun(t.pc) && Begun(v.pc) { BegunRooted(work, d.dispatched, tid); BegunRooted(work, d.dispatched, i); }
  }

  lemma SelfInformed(d: Disk, tid: Tid, t: Task, how: How, e: Disk, u: Task)
    requires Stepped(d, tid, t, how, e, u) && !Reconciling(t.pc) && Informed(d, t)
    ensures Informed(e, u)
  {
    hide RunEffect;
  }

  lemma RunInforms(seats: map<Tid, Seat>, tids: set<Tid>, work: map<Tid, Task>, d: Disk, tid: Tid, how: How, e: Disk, u: Task)
    requires tid in work && tid in seats && !Reconciling(work[tid].pc) && !work[tid].pc.End? && Stepped(d, tid, work[tid], how, e, u)
    requires RootsOk(work, d.dispatched) && BasesRooted(work, d) && SeatsApart(seats, tids, work) && Told(seats, work, d)
    ensures Told(seats, work[tid := u], e)
  {
    RunTold(work, d, tid, how, e);
    SelfInformed(d, tid, work[tid], how, e, u);
    forall i | i in seats && i != tid ensures Informed(e, work[i]) { OthersInformed(seats, tids, work, d, tid, how, e, i); }
    hide Stepped, RootsOk, BasesRooted, SeatsApart, MovesTold, Informed;
  }

  lemma RunConsistent(seats: map<Tid, Seat>, tids: set<Tid>, work: map<Tid, Task>, d: Disk, tid: Tid, how: How, e: Disk, u: Task)
    requires tid in work && tid in seats && !Reconciling(work[tid].pc) && !work[tid].pc.End? && Stepped(d, tid, work[tid], how, e, u)
    requires u.key == work[tid].key && u.reconciles == work[tid].reconciles && RunEffect(d, tid, work[tid], how, e)
    requires Owns(d.dispatched, d.moves, tid, work[tid]) && HeadAlways(d) && MadeFor(d.made, work[tid].key, work[tid].after)
    requires Consistent(seats, tids, work, d)
    ensures Consistent(seats, tids, work[tid := u], e)
  {
    assert work[tid].pc.RPublish? ==> !Moved(d.moves, work[tid].key);
    hide Stepped, RunEffect, RootsOk, BasesRooted, PastOk, SeatsApart, FailuresDormant, Told, Owns, HeadAlways, MadeFor, Moved;
    RunRoots(work, d, tid, how, e, u);
    RunBases(work, d, tid, how, e, u);
    RunPast(d, tid, work[tid], how, e);
    RunFailures(seats, work, d, tid, how, e, u);
    RunInforms(seats, tids, work, d, tid, how, e, u);
    ApartSame(seats, tids, work, tid, u);
  }

  lemma AlwaysOf(s: Sys, tid: Tid)
    requires Always(s) && tid in s.work
    ensures HeadAlways(s.disk) && MadeFor(s.disk.made, s.work[tid].key, s.work[tid].after)
    ensures Owns(s.disk.dispatched, s.disk.moves, tid, s.work[tid])
  {
    hide MovesOk, HeadAlways, RecordsAlways, ReceiptsAlways, Owns;
  }

  lemma RunStepSound(c: Config, s: Sys, tid: Tid, how: How)
    requires tid in s.locks.seats && tid in s.work && !Reconciling(s.work[tid].pc) && !s.work[tid].pc.End? && Sound(s)
    ensures var w := RunWork(c, s.disk, tid, s.work[tid], how); Sound(s.(work := s.work[tid := w.1], disk := w.0))
  {
    hide RunWork, Consistent, Always, RunEffect, RunOn, Owns, HeadAlways, MadeFor;
    var w := RunWork(c, s.disk, tid, s.work[tid], how);
    RunStepAlways(c, s, tid, how);
    RunSteps(c, s.disk, tid, s.work[tid], how);
    AlwaysOf(s, tid);
    RunConsistent(s.locks.seats, s.locks.tids, s.work, s.disk, tid, how, w.0, w.1);
  }

  // ---- a step of `reconcile` ---------------------------------------------------------------------------------------------

  /** A reconciliation writes no base and no target of its own. */
  lemma ReconcileDisk(c: Config, d: Disk, t: Task, how: How)
    requires Reconciling(t.pc) && Informed(d, t)
    ensures var e := ReconcileWork(c, d, t, how).0;
      && e == d.(records := e.records, receipts := e.receipts, applied := e.applied) && e.records.Keys == d.records.Keys
      && (forall k :: k in d.records ==> e.records[k].before == d.records[k].before && e.records[k].after == d.records[k].after)
      && (forall k :: k in d.records && e.records[k] != d.records[k] ==> t.pc.QFinish? && k == t.key && e.records[k].completed == Some(t.status))
      && (forall k :: k in e.receipts && (k !in d.receipts || e.receipts[k] != d.receipts[k]) ==> t.pc.QCommit? && k == t.key && e.receipts[k] == t.status)
  {
    ReconcileEffects(c, d, t, how);
    hide ReconcileWork, Commits;
  }

  lemma ReconcileRoots(c: Config, work: map<Tid, Task>, d: Disk, tid: Tid, how: How)
    requires tid in work && Reconciling(work[tid].pc) && work[tid].reconciles && RootsOk(work, d.dispatched)
    ensures var w := ReconcileWork(c, d, work[tid], how); RootsOk(work[tid := w.1], d.dispatched)
  {
    ReconcileKey(c, d, work[tid], how);
    ReconcileStays(c, d, work[tid], how);
    hide ReconcileWork;
  }

  lemma ReconcileStays(c: Config, d: Disk, t: Task, how: How)
    requires Reconciling(t.pc)
    ensures var u := ReconcileWork(c, d, t, how).1; Reconciling(u.pc) || u.pc.End?
  {
    hide Settled, KnownSuccessor, Expected, Commits, Save, Store;
  }

  /** A call that reconciles is nobody's root. */
  lemma RootsElsewhere(work: map<Tid, Task>, dispatched: map<Key, Tid>, tid: Tid, u: Task, k: Key)
    requires tid in work && work[tid].reconciles
    ensures Rooted(work, dispatched, k) ==> Rooted(work[tid := u], dispatched, k) && dispatched[k] != tid
  {}

  lemma ReconcileDormant(c: Config, seats: map<Tid, Seat>, work: map<Tid, Task>, d: Disk, tid: Tid, u: Task, e: Disk, k: Key)
    requires tid in work && work[tid].reconciles && e.moves == d.moves && e.dispatched == d.dispatched && Dormant(seats, work, d, k)
    ensures Dormant(seats, work[tid := u], e, k)
  {
    RootsElsewhere(work, d.dispatched, tid, u, k);
    hide Moved;
  }

  /** HEAD seen on the recorded base, with no run of the key live: the key has not moved and nobody is about to. */
  lemma UntouchedDormant(seats: map<Tid, Seat>, tids: set<Tid>, work: map<Tid, Task>, d: Disk, tid: Tid)
    requires tid in work && tid in seats && work[tid].reconciles && work[tid].pc.QDecide? && Informed(d, work[tid])
    requires RootsOk(work, d.dispatched) && BasesRooted(work, d) && SeatsApart(seats, tids, work)
    requires work[tid].key in d.records && d.records[work[tid].key].before == work[tid].current
    ensures Dormant(seats, work, d, work[tid].key)
  {
    var k := work[tid].key;
    assert Rooted(work, d.dispatched, k);
    forall i | 0 <= i < |d.moves| ensures d.moves[i].key != k {
      assert Made(work[d.dispatched[d.moves[i].key]], d.moves[i]);
    }
  }

  /** Deciding ends, or reports of the record read: what it says already, or what HEAD on one of its bases says. */
  lemma DecideOn(c: Config, d: Disk, t: Task, r: Record)
    ensures var u := Decide(c, d, t, r);
      || u.pc.End? || (u.pc.QCommit? && r.completed == Some(u.status))
      || (u.pc.QFinish? && u.before == r.before && u.after == r.after && (u.status != Applied ==> r.before == t.current))
  {
    hide Settled, KnownSuccessor, Expected;
  }

  /** Why a reconciliation says what it says, and with whose bases. */
  predicate Says(d: Disk, t: Task, u: Task) {
    && (Telling(u.pc) && u.status != Applied ==>
          || (t.pc.QFinish? && u.status == t.status)
          || (t.pc.QDecide? && t.key in d.records && d.records[t.key].before == t.current)
          || (t.pc.QDecide? && t.key in d.records && d.records[t.key].completed == Some(u.status)))
    && (u.pc.QFinish? ==> t.pc.QDecide? && t.key in d.records && u.before == d.records[t.key].before && u.after == d.records[t.key].after)
    && (u.pc.QDecide? ==> t.pc.QHead? && u.current == d.head)
  }

  lemma DecideSays(c: Config, d: Disk, t: Task, how: How)
    requires Reconciling(t.pc)
    ensures Says(d, t, ReconcileWork(c, d, t, how).1)
  {
    hide Decide, Commits, Save, Store;
    if t.pc.QDecide? && t.key in d.records { DecideOn(c, d, t, d.records[t.key]); }
  }

  lemma ReconcileFailures(c: Config, seats: map<Tid, Seat>, tids: set<Tid>, work: map<Tid, Task>, d: Disk, tid: Tid, how: How)
    requires tid in work && tid in seats && work[tid].reconciles && Reconciling(work[tid].pc) && Informed(d, work[tid])
    requires RootsOk(work, d.dispatched) && BasesRooted(work, d) && SeatsApart(seats, tids, work) && FailuresDormant(seats, work, d)
    ensures var w := ReconcileWork(c, d, work[tid], how); FailuresDormant(seats, work[tid := w.1], w.0)
  {
    var t, w := work[tid], ReconcileWork(c, d, work[tid], how);
    ReconcileDisk(c, d, t, how);
    DecideSays(c, d, t, how);
    ReconcileKey(c, d, t, how);
    forall k | Dormant(seats, work, d, k) ensures Dormant(seats, work[tid := w.1], w.0, k) { ReconcileDormant(c, seats, work, d, tid, w.1, w.0, k); }
    if t.pc.QDecide? && t.key in d.records && d.records[t.key].before == t.current { UntouchedDormant(seats, tids, work, d, tid); }
    hide ReconcileWork, Dormant, RootsOk, BasesRooted, SeatsApart, Informed, Save, Store, Publish;
  }

  lemma ReconcileBases(c: Config, work: map<Tid, Task>, d: Disk, tid: Tid, how: How)
    requires tid in work && work[tid].reconciles && Reconciling(work[tid].pc) && Informed(d, work[tid]) && BasesRooted(work, d) && MovesTold(d)
    ensures var w := ReconcileWork(c, d, work[tid], how); BasesRooted(work[tid := w.1], w.0) && MovesTold(w.0)
  {
    var w := ReconcileWork(c, d, work[tid], how);
    ReconcileDisk(c, d, work[tid], how);
    hide ReconcileWork, Rooted;
    forall k | Rooted(work, d.dispatched, k) ensures Rooted(work[tid := w.1], d.dispatched, k) && d.dispatched[k] in work && d.dispatched[k] != tid {
      RootsElsewhere(work, d.dispatched, tid, w.1, k);
      RootIn(work, d.dispatched, k);
    }
  }

  lemma RootIn(work: map<Tid, Task>, dispatched: map<Key, Tid>, k: Key)
    requires Rooted(work, dispatched, k)
    ensures k in dispatched && dispatched[k] in work
  {}

  lemma ReconcileInformed(c: Config, d: Disk, t: Task, how: How, v: Task)
    requires Reconciling(t.pc) && Informed(d, t) && PastOk(d)
    ensures var w := ReconcileWork(c, d, t, how); Informed(w.0, w.1) && (Informed(d, v) ==> Informed(w.0, v))
  {
    ReconcileDisk(c, d, t, how);
    DecideSays(c, d, t, how);
    ReconcileKey(c, d, t, how);
    ReconcileStays(c, d, t, how);
    hide ReconcileWork;
  }

  lemma ReconcileConsistent(c: Config, seats: map<Tid, Seat>, tids: set<Tid>, work: map<Tid, Task>, d: Disk, tid: Tid, how: How)
    requires tid in seats && tid in work && Reconciling(work[tid].pc) && Consistent(seats, tids, work, d)
    ensures var w := ReconcileWork(c, d, work[tid], how); Consistent(seats, tids, work[tid := w.1], w.0)
  {
    var t, w := work[tid], ReconcileWork(c, d, work[tid], how);
    assert t.reconciles && Informed(d, t) by { hide BasesRooted, PastOk, MovesTold, Informed, FailuresDormant; }
    hide ReconcileWork, RootsOk, BasesRooted, MovesTold, Informed, FailuresDormant, PastOk, SeatsApart;
    ReconcileRoots(c, work, d, tid, how);
    ReconcileBases(c, work, d, tid, how);
    ReconcileFailures(c, seats, tids, work, d, tid, how);
    ReconcileDisk(c, d, t, how);
    ReconcileKey(c, d, t, how);
    PastSame(d, w.0);
    ApartSame(seats, tids, work, tid, w.1);
    forall i | i in seats ensures Informed(w.0, work[tid := w.1][i]) { ReconcileInformed(c, d, t, how, work[i]); }
  }

  lemma ReconcileStepSound(c: Config, s: Sys, tid: Tid, how: How)
    requires tid in s.locks.seats && tid in s.work && Reconciling(s.work[tid].pc) && Sound(s)
    ensures var w := ReconcileWork(c, s.disk, s.work[tid], how); Sound(s.(work := s.work[tid := w.1], disk := w.0))
  {
    hide ReconcileWork, Consistent, Always;
    ReconcileStepAlways(c, s, tid, how);
    ReconcileConsistent(c, s.locks.seats, s.locks.tids, s.work, s.disk, tid, how);
  }

  lemma PastSame(d: Disk, e: Disk)
    requires PastOk(d) && e.head == d.head && e.past == d.past && e.used == d.used && e.made == d.made && e.moves == d.moves
    ensures PastOk(e)
  {}

  /** A call that stays who it is stays apart. */
  lemma ApartSame(seats: map<Tid, Seat>, tids: set<Tid>, work: map<Tid, Task>, tid: Tid, u: Task)
    requires SeatsApart(seats, tids, work) && tid in work && u.key == work[tid].key && u.reconciles == work[tid].reconciles
    ensures SeatsApart(seats, tids, work[tid := u])
  {}

  // ---- the whole system -----------------------------------------------------------------------------------------------------

  /** Calls may leave, or go on with the locks. */
  predicate FewerSeats(l: Locks, more: Locks) {
    && l.tids == more.tids
    && forall i :: i in more.seats ==> i in l.seats && more.seats[i].owner == l.seats[i].owner && more.seats[i].reconcile == l.seats[i].reconcile
  }

  lemma FewerSound(s: Sys, l: Locks)
    requires Sound(s) && FewerSeats(s.locks, l)
    ensures Sound(s.(locks := l))
  {
    forall k | Dormant(s.locks.seats, s.work, s.disk, k) ensures Dormant(l.seats, s.work, s.disk, k) {}
    hide Dormant, RootsOk, BasesRooted, PastOk, MovesTold, Informed, MovesAlways, DiskAlways, TellsTrue;
  }

  lemma TurnFewer(c: Config, l: Locks, tid: Tid, release: bool, how: How)
    requires tid in l.seats
    ensures FewerSeats(l, Turn(c, l, tid, l.seats[tid], release, how))
  {
    TurnSeats(c, l, tid, release, how);
    TurnTids(c, l, tid, release, how);
    hide Turn;
  }

  lemma TurnTids(c: Config, l: Locks, tid: Tid, release: bool, how: How)
    requires tid in l.seats
    ensures Turn(c, l, tid, l.seats[tid], release, how).tids == l.tids
  {
    hide MayTakeOver, MayRemove;
  }

  predicate Parted(c: Config) { c.apart || c.parted }

  lemma StartApart(c: Config, s: Sys, tid: Tid, owner: Owner, reconcile: bool)
    requires Parted(c) && MayStart(c, s.locks, tid, owner, reconcile) && SeatsApart(s.locks.seats, s.locks.tids, s.work)
    ensures tid !in s.work
    ensures var t := Start(s, tid, owner, reconcile); SeatsApart(t.locks.seats, t.locks.tids, t.work)
  {
    SameKind(c, s.locks, tid, owner, reconcile);
    hide MayStart;
    assert s.locks.tids <= s.locks.tids + {tid};
  }

  /** Whoever is live for the key is of the starting call's kind. */
  lemma SameKind(c: Config, l: Locks, tid: Tid, owner: Owner, reconcile: bool)
    requires Parted(c) && MayStart(c, l, tid, owner, reconcile)
    ensures tid !in l.tids
    ensures forall i :: i in l.seats && l.seats[i].owner.key == owner.key ==> l.seats[i].reconcile == reconcile
  {
    hide Overlaps;
  }

  lemma StartAlways(s: Sys, tid: Tid, owner: Owner, reconcile: bool)
    requires Always(s) && tid !in s.work
    ensures Always(Start(s, tid, owner, reconcile))
  {
    hide MovesOk, DiskAlways, Moved, Arrived;
  }

  lemma StartKeepsRoots(s: Sys, tid: Tid, owner: Owner, reconcile: bool, k: Key)
    requires tid !in s.work
    ensures var t := Start(s, tid, owner, reconcile);
      && (Rooted(s.work, s.disk.dispatched, k) ==> s.disk.dispatched[k] != tid && Rooted(t.work, s.disk.dispatched, k))
      && (Dormant(s.locks.seats, s.work, s.disk, k) ==> Dormant(t.locks.seats, t.work, s.disk, k))
  {
    hide Moved;
  }

  lemma StartRoots(s: Sys, tid: Tid, owner: Owner, reconcile: bool)
    requires tid !in s.work && RootsOk(s.work, s.disk.dispatched)
    ensures RootsOk(Start(s, tid, owner, reconcile).work, s.disk.dispatched)
  {
    forall k { StartKeepsRoots(s, tid, owner, reconcile, k); }
    hide Rooted;
  }

  lemma StartBases(s: Sys, tid: Tid, owner: Owner, reconcile: bool)
    requires tid !in s.work && BasesRooted(s.work, s.disk)
    ensures BasesRooted(Start(s, tid, owner, reconcile).work, s.disk)
  {
    forall k | Rooted(s.work, s.disk.dispatched, k) ensures Rooted(Start(s, tid, owner, reconcile).work, s.disk.dispatched, k) && k in s.disk.dispatched && s.disk.dispatched[k] in s.work {
      StartKeepsRoots(s, tid, owner, reconcile, k);
      RootIn(s.work, s.disk.dispatched, k);
    }
    hide Rooted;
  }

  lemma StartFailures(s: Sys, tid: Tid, owner: Owner, reconcile: bool)
    requires tid !in s.work && FailuresDormant(s.locks.seats, s.work, s.disk)
    ensures var t := Start(s, tid, owner, reconcile); FailuresDormant(t.locks.seats, t.work, s.disk)
  {
    hide Dormant, Rooted;
    forall k { StartKeepsRoots(s, tid, owner, reconcile, k); }
  }

  lemma StartSound(c: Config, s: Sys, tid: Tid, owner: Owner, reconcile: bool)
    requires Parted(c) && MayStart(c, s.locks, tid, owner, reconcile) && Sound(s)
    ensures Sound(Start(s, tid, owner, reconcile))
  {
    hide MayStart, Parted, RootsOk, BasesRooted, FailuresDormant, PastOk, MovesTold, SeatsApart, Always;
    StartApart(c, s, tid, owner, reconcile);
    StartAlways(s, tid, owner, reconcile);
    StartRoots(s, tid, owner, reconcile);
    StartBases(s, tid, owner, reconcile);
    StartFailures(s, tid, owner, reconcile);
  }

  lemma OutsidePast(d: Disk, base: Base)
    requires base !in d.used && PastOk(d) && HeadAlways(d)
    ensures PastOk(d.(head := base, past := d.past + {d.head}, used := d.used + {base}))
  {
    hide Arrived, MadeFor;
  }

  lemma OutsideSound(s: Sys, base: Base)
    requires base !in s.disk.used && Sound(s)
    ensures Sound(s.(disk := s.disk.(head := base, past := s.disk.past + {s.disk.head}, used := s.disk.used + {base})))
  {
    var d, e := s.disk, s.disk.(head := base, past := s.disk.past + {s.disk.head}, used := s.disk.used + {base});
    OutsideAlways(s, base);
    OutsidePast(d, base);
    forall k | Dormant(s.locks.seats, s.work, d, k) ensures Dormant(s.locks.seats, s.work, e, k) {}
    hide Dormant, RootsOk, Rooted, SeatsApart, MovesAlways, DiskAlways, TellsTrue, PastOk;
  }

  lemma NextSound(c: Config, s: Sys, step: Step)
    requires Parted(c) && Sound(s)
    ensures Sound(Next(c, s, step))
  {
    hide Sound, Turn, RunWork, ReconcileWork, Start, Die, MayStart, Parted;
    match step
    case StartRun(tid, owner) =>
      if MayStart(c, s.locks, tid, owner, false) { StartSound(c, s, tid, owner, false); }
    case StartReconcile(tid, owner) =>
      if MayStart(c, s.locks, tid, owner, true) { StartSound(c, s, tid, owner, true); }
    case Go(tid, how) =>
      if tid in s.locks.seats && tid in s.work {
        if s.locks.seats[tid].stage.Working? && !s.work[tid].pc.End? {
          if Reconciling(s.work[tid].pc) { ReconcileStepSound(c, s, tid, how); } else { RunStepSound(c, s, tid, how); }
        } else {
          TurnFewer(c, s.locks, tid, s.work[tid].release, how);
          FewerSound(s, Turn(c, s.locks, tid, s.locks.seats[tid], s.work[tid].release, how));
        }
      }
    case Crash(inst) =>
      DieFewer(s.locks, inst);
      FewerSound(s, Die(s.locks, inst));
    case Outside(base) => if base !in s.disk.used { OutsideSound(s, base); }
  }

  lemma DieFewer(l: Locks, inst: Inst)
    ensures FewerSeats(l, Die(l, inst))
  {}

  lemma {:induction false} RunSound(c: Config, base: Base, steps: seq<Step>)
    requires Parted(c)
    ensures Sound(After(c, base, steps))
  {
    if |steps| == 0 {
      InitSound(base);
    } else {
      RunSound(c, base, steps[..|steps| - 1]);
      hide Sound, Next, Parted;
      NextSound(c, After(c, base, steps[..|steps| - 1]), steps[|steps| - 1]);
    }
  }

  lemma HonestWhenParted(c: Config, base: Base, steps: seq<Step>)
    requires Parted(c)
    ensures var d := After(c, base, steps).disk;
      && Honest(d) && (forall k :: k in d.receipts && d.receipts[k] == Applied ==> TellsMove(d, k))
  {
    RunSound(c, base, steps);
    hide After, RootsOk, BasesRooted, PastOk, SeatsApart, MovesAlways, HeadAlways, RecordsAlways, TellsTrue, Informed, Parted;
    var d := After(c, base, steps).disk;
    forall k | k in d.receipts && d.receipts[k] == Applied ensures TellsMove(d, k) {
      var i :| 0 <= i < |d.moves| && d.moves[i].key == k;
      assert Tells(d.records[d.moves[i].key], d.moves[i]);
    }
  }

  /** The key's record tells its move. */
  predicate TellsMove(d: Disk, k: Key) { k in d.records && exists i :: 0 <= i < |d.moves| && d.moves[i].key == k && Tells(d.records[k], d.moves[i]) }

  /** A `completed` receipt means the effect moved HEAD from the recorded base to the recorded one; any other, that it did not. */
  lemma ReceiptsHonest(c: Config, base: Base, steps: seq<Step>)
    requires Parted(c) || Trusted(c)
    ensures var d := After(c, base, steps).disk;
      && Honest(d) && (forall k :: k in d.receipts && d.receipts[k] == Applied ==> TellsMove(d, k))
  {
    hide After, Honest;
    if Parted(c) { HonestWhenParted(c, base, steps); } else { HonestUnderLock(c, base, steps); }
  }

  /** An effect reported `failed` or `not-executed` has not moved HEAD and never will, whatever happens later. */
  lemma NeverWill(c: Config, base: Base, steps: seq<Step>, later: seq<Step>, k: Key)
    requires Parted(c) || Trusted(c)
    requires var d := After(c, base, steps).disk; k in d.receipts && d.receipts[k] != Applied
    ensures !Moved(Run(c, After(c, base, steps), later).disk.moves, k)
  {
    RunAppend(c, Init(base), steps, later);
    ReceiptStays(c, After(c, base, steps), later, k);
    ReceiptsHonest(c, base, steps + later);
    hide Run, Moved, Parted, Trusted, TellsMove;
  }
}
