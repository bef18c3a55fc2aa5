/** What holds of HEAD, records and receipts in every run of every configuration, whoever holds or takes a lock. */
module WorkspaceAlways {
  import opened Options
  import opened Workspace
  import opened WorkspaceData
  import opened WorkspaceRuns
  import opened WorkspaceSteps

  /** A disk only grows: moves are appended, fresh bases are made, dispatches stay. */
  predicate Grows(d: Disk, e: Disk) {
    && d.moves <= e.moves && d.used <= e.used
    && (forall b :: b in d.made ==> b in e.made && e.made[b] == d.made[b])
    && (forall b :: b in d.used && b in e.made ==> b in d.made)
    && (forall k :: k in d.dispatched ==> k in e.dispatched && e.dispatched[k] == d.dispatched[k])
  }

  // ---- who moves HEAD ---------------------------------------------------------------------------------------------

  /** A call on its way to publish owns the dispatch of its key, and the key has not moved. */
  predicate Owns(dispatched: map<Key, Tid>, moves: seq<Move>, tid: Tid, t: Task) {
    Mover(t.pc) ==> t.key in dispatched && dispatched[t.key] == tid && !Moved(moves, t.key)
  }

  predicate AllOwn(work: map<Tid, Task>, d: Disk) { forall i :: i in work ==> Owns(d.dispatched, d.moves, i, work[i]) }

  predicate MovesAlways(s: Sys) { MovesOk(s.disk.moves, s.disk.dispatched) && AllOwn(s.work, s.disk) }

  // ---- what a base, a record and a receipt say -------------------------------------------------------------------

  /** A prepared base is stood on only after a move to it. */
  predicate Arrived(made: map<Base, Key>, moves: seq<Move>, b: Base) { b in made ==> exists i :: 0 <= i < |moves| && moves[i].after == b }

  predicate MadeFor(made: map<Base, Key>, key: Key, after: Option<Base>) { after.Some? ==> after.value in made && made[after.value] == key }

  predicate HeadAlways(d: Disk) {
    && d.head in d.used && d.made.Keys <= d.used && Arrived(d.made, d.moves, d.head)
    && forall i :: 0 <= i < |d.moves| ==> MadeFor(d.made, d.moves[i].key, Some(d.moves[i].after))
  }

  predicate RecordsAlways(d: Disk) {
    forall k :: k in d.records ==>
      MadeFor(d.made, k, d.records[k].after) && (d.records[k].completed == Some(Applied) ==> Moved(d.moves, k))
  }

  predicate ReceiptsAlways(d: Disk) { forall k :: k in d.receipts && d.receipts[k] == Applied ==> Moved(d.moves, k) }

  predicate TellsTrue(d: Disk, t: Task) {
    && MadeFor(d.made, t.key, t.after)
    && (t.pc.QDecide? ==> t.current in d.used && Arrived(d.made, d.moves, t.current))
    && (t.pc.RObserve? || (Telling(t.pc) && t.status == Applied) ==> Moved(d.moves, t.key))
  }

  predicate DiskAlways(d: Disk) { HeadAlways(d) && RecordsAlways(d) && ReceiptsAlways(d) }

  predicate Always(s: Sys) { MovesAlways(s) && DiskAlways(s.disk) && forall i :: i in s.work ==> TellsTrue(s.disk, s.work[i]) }

  // ---- growth keeps what others know ------------------------------------------------------------------------------

  lemma MovedStays(moves: seq<Move>, more: seq<Move>, key: Key)
    requires moves <= more && Moved(moves, key)
    ensures Moved(more, key)
  {
    var i :| 0 <= i < |moves| && moves[i].key == key;
    assert more[i].key == key;
  }

  lemma ArrivedStays(d: Disk, e: Disk, b: Base)
    requires Grows(d, e) && b in d.used && Arrived(d.made, d.moves, b)
    ensures Arrived(e.made, e.moves, b)
  {
    if b in e.made {
      var i :| 0 <= i < |d.moves| && d.moves[i].after == b;
      assert e.moves[i].after == b;
    }
  }

  lemma TellsStays(d: Disk, e: Disk, t: Task)
    requires Grows(d, e) && TellsTrue(d, t)
    ensures TellsTrue(e, t)
  {
    if Moved(d.moves, t.key) { MovedStays(d.moves, e.moves, t.key); }
    if t.pc.QDecide? { ArrivedStays(d, e, t.current); }
    hide Moved, Arrived;
  }

  // ---- each effect keeps it -----------------------------------------------------------------------------------------

  lemma SaveAlways(d: Disk, t: Task, completed: Option<Status>)
    requires DiskAlways(d) && MadeFor(d.made, t.key, t.after) && (completed == Some(Applied) ==> Moved(d.moves, t.key))
    ensures DiskAlways(Save(d, t, completed)) && Grows(d, Save(d, t, completed))
  {
    hide Moved, Arrived;
  }

  lemma StoreAlways(d: Disk, t: Task, how: How)
    requires DiskAlways(d) && (t.status == Applied ==> Moved(d.moves, t.key))
    ensures DiskAlways(Store(d, t, how)) && Grows(d, Store(d, t, how))
  {
    hide Moved, Arrived, Commits;
  }

  lemma PrepareAlways(d: Disk, key: Key, base: Base)
    requires DiskAlways(d) && base !in d.used
    ensures DiskAlways(Prepare(d, key, base)) && Grows(d, Prepare(d, key, base))
  {
    ArrivedStays(d, Prepare(d, key, base), d.head);
    hide Moved, Arrived;
  }

  lemma PublishGrows(d: Disk, tid: Tid, t: Task)
    requires t.after.Some?
    ensures var e := Publish(d, tid, t); Grows(d, e) && Moved(e.moves, t.key) && Arrived(e.made, e.moves, e.head)
  {
    var e := Publish(d, tid, t);
    assert e.moves[|d.moves|].key == t.key && e.moves[|d.moves|].after == e.head;
  }

  lemma PublishAlways(d: Disk, tid: Tid, t: Task)
    requires DiskAlways(d) && t.after.Some? && MadeFor(d.made, t.key, t.after)
    ensures DiskAlways(Publish(d, tid, t))
  {
    var e := Publish(d, tid, t);
    PublishGrows(d, tid, t);
    forall k | Moved(d.moves, k) ensures Moved(e.moves, k) { MovedStays(d.moves, e.moves, k); }
    hide Moved, Arrived;
  }

  lemma RunDiskAlways(c: Config, d: Disk, tid: Tid, t: Task, how: How)
    requires DiskAlways(d) && TellsTrue(d, t)
    ensures var e := RunWork(c, d, tid, t, how).0; DiskAlways(e) && Grows(d, e)
  {
    RunEffects(c, d, tid, t, how);
    hide RunWork, DiskAlways, Grows, Save, Store, Publish, Prepare;
    var e := RunWork(c, d, tid, t, how).0;
    if e == Save(d, t, None) { SaveAlways(d, t, None); }
    if t.pc.RFinish? && e == Save(d, t, Some(t.status)) { SaveAlways(d, t, Some(t.status)); }
    if t.pc.RCommit? && e == Store(d, t, how) { StoreAlways(d, t, how); }
    if t.pc.RPublish? && t.after.Some? && e == Publish(d, tid, t) { PublishAlways(d, tid, t); PublishGrows(d, tid, t); }
    forall base | base !in d.used ensures DiskAlways(Prepare(d, t.key, base)) && Grows(d, Prepare(d, t.key, base)) { PrepareAlways(d, t.key, base); }
    QuietGrows(d, tid, t.key, e);
  }

  /** The fence and a first dispatch touch neither bases nor moves. */
  lemma QuietGrows(d: Disk, tid: Tid, key: Key, e: Disk)
    requires DiskAlways(d)
    ensures (e == d || (exists f :: e == d.(fence := f)) || (key !in d.dispatched && e == d.(dispatched := d.dispatched[key := tid]))) ==>
              DiskAlways(e) && Grows(d, e)
  {
    hide Moved, Arrived;
  }

  lemma ReconcileDiskAlways(c: Config, d: Disk, t: Task, how: How)
    requires DiskAlways(d) && TellsTrue(d, t)
    ensures var e := ReconcileWork(c, d, t, how).0; DiskAlways(e) && Grows(d, e)
  {
    ReconcileEffects(c, d, t, how);
    hide ReconcileWork, DiskAlways, Grows, Save, Store;
    var e := ReconcileWork(c, d, t, how).0;
    if t.pc.QFinish? { SaveAlways(d, t, Some(t.status)); }
    if t.pc.QCommit? { StoreAlways(d, t, how); }
    QuietGrows(d, 0, t.key, e);
  }

  // ---- the call's own knowledge ---------------------------------------------------------------------------------------

  lemma MadeForStays(d: Disk, e: Disk, key: Key, after: Option<Base>)
    requires Grows(d, e) && MadeFor(d.made, key, after)
    ensures MadeFor(e.made, key, after)
  {}

  lemma RunTells(c: Config, d: Disk, tid: Tid, t: Task, how: How)
    requires !Reconciling(t.pc) && !t.pc.End? && TellsTrue(d, t) && Grows(d, RunWork(c, d, tid, t, how).0)
    ensures var w := RunWork(c, d, tid, t, how); TellsTrue(w.0, w.1)
  {
    hide RunWork, Moved, Grows, Publish, MadeFor, Arrived;
    var w := RunWork(c, d, tid, t, how);
    RunTasks(c, d, tid, t, how);
    MadeForStays(d, w.0, t.key, t.after);
    if how.Fresh? { PreparedFor(d, t.key, how.base); }
    if t.after.Some? { PublishGrows(d, tid, t); }
    if Moved(d.moves, t.key) { GrowsMoved(d, w.0, t.key); }
  }

  lemma PreparedFor(d: Disk, key: Key, base: Base)
    ensures MadeFor(Prepare(d, key, base).made, key, Some(base))
  {}

  lemma GrowsMoved(d: Disk, e: Disk, key: Key)
    requires Grows(d, e) && Moved(d.moves, key)
    ensures Moved(e.moves, key)
  {
    MovedStays(d.moves, e.moves, key);
  }

  /** A record whose target HEAD was seen on is that of an effect that moved it there. */
  lemma SeenOnTarget(d: Disk, t: Task)
    requires DiskAlways(d) && Arrived(d.made, d.moves, t.current) && t.key in d.records && d.records[t.key].after == Some(t.current)
    ensures Moved(d.moves, t.key)
  {
    var i :| 0 <= i < |d.moves| && d.moves[i].after == t.current;
    assert MadeFor(d.made, d.moves[i].key, Some(d.moves[i].after));
  }

  lemma DecideTells(c: Config, d: Disk, t: Task)
    requires DiskAlways(d) && TellsTrue(d, t) && t.pc.QDecide? && t.key in d.records
    ensures TellsTrue(d, Decide(c, d, t, d.records[t.key]))
  {
    hide Moved, Arrived, MadeFor, KnownSuccessor, HeadAlways, ReceiptsAlways, Settled;
    if d.records[t.key].after == Some(t.current) { SeenOnTarget(d, t); }
  }

  lemma ReconcileTells(c: Config, d: Disk, t: Task, how: How)
    requires DiskAlways(d) && TellsTrue(d, t) && Reconciling(t.pc)
    ensures var w := ReconcileWork(c, d, t, how); TellsTrue(w.0, w.1)
  {
    hide Moved, Arrived, MadeFor, Decide, Commits, RecordsAlways, ReceiptsAlways, Save, Store;
    if t.pc.QDecide? && t.key in d.records { DecideTells(c, d, t); }
    SaveFrameAlways(d, t);
    StoreFrameAlways(d, t, how);
  }

  lemma SaveFrameAlways(d: Disk, t: Task)
    ensures var e := Save(d, t, Some(t.status)); e.made == d.made && e.moves == d.moves && e.used == d.used && e.dispatched == d.dispatched
  {}

  lemma StoreFrameAlways(d: Disk, t: Task, how: How)
    ensures var e := Store(d, t, how); e.made == d.made && e.moves == d.moves && e.used == d.used && e.dispatched == d.dispatched
  {}

  /** Whoever is on the way to publish got there by its own dispatch. */
  lemma RunOwns(c: Config, d: Disk, tid: Tid, t: Task, how: How)
    requires !Reconciling(t.pc) && !t.pc.End?
    requires MovesOk(d.moves, d.dispatched) && Owns(d.dispatched, d.moves, tid, t) && Grows(d, RunWork(c, d, tid, t, how).0)
    ensures var w := RunWork(c, d, tid, t, how); Owns(w.0.dispatched, w.0.moves, tid, w.1)
  {
    RunTasks(c, d, tid, t, how);
    RunMoves(c, d, tid, t, how);
    if t.pc.RDispatch? { DispatchOwns(c, d, tid, t, how); }
    hide RunWork;
  }

  lemma MovedBy(moves: seq<Move>, m: Move, key: Key)
    requires key != m.key && !Moved(moves, key)
    ensures !Moved(moves + [m], key)
  {}

  /** Others own what they owned, and still no key has moved twice. */
  lemma RunOwnsOthers(c: Config, d: Disk, tid: Tid, t: Task, how: How, i: Tid, other: Task)
    requires Owns(d.dispatched, d.moves, tid, t) && Owns(d.dispatched, d.moves, i, other) && i != tid && Grows(d, RunWork(c, d, tid, t, how).0)
    ensures var e := RunWork(c, d, tid, t, how).0; Owns(e.dispatched, e.moves, i, other)
  {
    RunMoves(c, d, tid, t, how);
    hide RunWork, Moved;
    if Mover(other.pc) && t.pc.RPublish? && t.after.Some? {
      MovedBy(d.moves, Move(t.key, tid, t.before, t.after.value), other.key);
    }
  }

  lemma RunMovesOk(c: Config, d: Disk, tid: Tid, t: Task, how: How)
    requires MovesOk(d.moves, d.dispatched) && Owns(d.dispatched, d.moves, tid, t) && Grows(d, RunWork(c, d, tid, t, how).0)
    ensures var e := RunWork(c, d, tid, t, how).0; MovesOk(e.moves, e.dispatched)
  {
    RunMoves(c, d, tid, t, how);
    hide RunWork;
  }

  // ---- the whole system -----------------------------------------------------------------------------------------------

  lemma InitAlways(base: Base)
    ensures Always(Init(base))
  {}

  lemma RunStepAlways(c: Config, s: Sys, tid: Tid, how: How)
    requires tid in s.work && !Reconciling(s.work[tid].pc) && !s.work[tid].pc.End? && Always(s)
    ensures var w := RunWork(c, s.disk, tid, s.work[tid], how); Always(s.(work := s.work[tid := w.1], disk := w.0))
  {
    var d, t := s.disk, s.work[tid];
    hide RunWork, Grows, MovesOk, Owns, DiskAlways, TellsTrue;
    var w := RunWork(c, d, tid, t, how);
    RunDiskAlways(c, d, tid, t, how);
    RunMovesOk(c, d, tid, t, how);
    RunTells(c, d, tid, t, how);
    RunOwns(c, d, tid, t, how);
    var more := s.work[tid := w.1];
    forall i | i in more ensures TellsTrue(w.0, more[i]) && Owns(w.0.dispatched, w.0.moves, i, more[i]) {
      if i != tid {
        TellsStays(d, w.0, s.work[i]);
        RunOwnsOthers(c, d, tid, t, how, i, s.work[i]);
      }
    }
  }

  lemma ReconcileFrame(c: Config, d: Disk, t: Task, how: How)
    requires Reconciling(t.pc)
    ensures var w := ReconcileWork(c, d, t, how);
      w.0.moves == d.moves && w.0.dispatched == d.dispatched && !Mover(w.1.pc)
  {
    ReconcileEffects(c, d, t, how);
    hide Settled, KnownSuccessor, Commits, Save, Store;
    SaveFrameAlways(d, t);
    StoreFrameAlways(d, t, how);
  }

  lemma ReconcileStepAlways(c: Config, s: Sys, tid: Tid, how: How)
    requires tid in s.work && Reconciling(s.work[tid].pc) && Always(s)
    ensures var w := ReconcileWork(c, s.disk, s.work[tid], how); Always(s.(work := s.work[tid := w.1], disk := w.0))
  {
    var d, t := s.disk, s.work[tid];
    hide ReconcileWork, Grows, MovesOk, Moved, DiskAlways, TellsTrue;
    var w := ReconcileWork(c, d, t, how);
    ReconcileDiskAlways(c, d, t, how);
    ReconcileTells(c, d, t, how);
    ReconcileFrame(c, d, t, how);
    var more := s.work[tid := w.1];
    forall i | i in more ensures TellsTrue(w.0, more[i]) && Owns(w.0.dispatched, w.0.moves, i, more[i]) {
      if i != tid { TellsStays(d, w.0, s.work[i]); }
    }
  }

  lemma OutsideAlways(s: Sys, base: Base)
    requires base !in s.disk.used && Always(s)
    ensures Always(s.(disk := s.disk.(head := base, past := s.disk.past + {s.disk.head}, used := s.disk.used + {base})))
  {
    var d, e := s.disk, s.disk.(head := base, past := s.disk.past + {s.disk.head}, used := s.disk.used + {base});
    forall i | i in s.work ensures TellsTrue(e, s.work[i]) { TellsStays(d, e, s.work[i]); }
    hide Moved, TellsTrue, MovesOk;
  }

  lemma NextAlways(c: Config, s: Sys, step: Step)
    requires Always(s)
    ensures Always(Next(c, s, step))
  {
    hide MovesOk, DiskAlways, Turn, Die, RunWork, ReconcileWork, MayStart;
    match step
    case StartRun(tid, owner) =>
    case StartReconcile(tid, owner) =>
    case Go(tid, how) =>
      if tid in s.work && !s.work[tid].pc.End? {
        if Reconciling(s.work[tid].pc) { ReconcileStepAlways(c, s, tid, how); } else { RunStepAlways(c, s, tid, how); }
      }
    case Crash(inst) =>
    case Outside(base) => if base !in s.disk.used { OutsideAlways(s, base); }
  }

  lemma {:induction false} RunAlways(c: Config, base: Base, steps: seq<Step>)
    ensures Always(After(c, base, steps))
  {
    if |steps| == 0 {
      InitAlways(base);
    } else {
      RunAlways(c, base, steps[..|steps| - 1]);
      hide Always, Next;
      NextAlways(c, After(c, base, steps[..|steps| - 1]), steps[|steps| - 1]);
    }
  }

  /** Each effect moves HEAD at most once, and only the call whose dispatch the journal holds does it. */
  lemma MovedOnce(c: Config, base: Base, steps: seq<Step>)
    ensures var d := After(c, base, steps).disk;
      && (forall i, j :: 0 <= i < j < |d.moves| ==> d.moves[i].key != d.moves[j].key)
      && (forall i :: 0 <= i < |d.moves| ==> d.moves[i].key in d.dispatched && d.dispatched[d.moves[i].key] == d.moves[i].tid)
  {
    RunAlways(c, base, steps);
    hide After, AllOwn, DiskAlways, TellsTrue;
  }

  /** A `completed` receipt means that the effect moved HEAD, to the base that was prepared for it. */
  lemma CompletedMoved(c: Config, base: Base, steps: seq<Step>, k: Key)
    requires var d := After(c, base, steps).disk; k in d.receipts && d.receipts[k] == Applied
    ensures var d := After(c, base, steps).disk;
      exists i :: 0 <= i < |d.moves| && d.moves[i].key == k && d.moves[i].after in d.made && d.made[d.moves[i].after] == k
  {
    RunAlways(c, base, steps);
    hide After, MovesAlways, RecordsAlways, TellsTrue;
    var d := After(c, base, steps).disk;
    assert Moved(d.moves, k);
    var i :| 0 <= i < |d.moves| && d.moves[i].key == k;
    assert MadeFor(d.made, d.moves[i].key, Some(d.moves[i].after));
  }
}
