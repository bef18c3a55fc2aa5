/** What an undisturbed call comes to: the receipt it stores, the record it leaves, and the lock given back. */
module WorkspaceAnswers {
  import opened Options
  import opened Workspace
  import opened WorkspaceLocks
  import opened WorkspaceSteps
  import opened WorkspaceRuns
  import opened WorkspaceAlways

  // ---- a call's own steps, with nobody else's in between ------------------------------------------------------------

  function Own(tid: Tid, hows: seq<How>): seq<Step> {
    if |hows| == 0 then [] else [Go(tid, hows[0])] + Own(tid, hows[1..])
  }

  /** One step after the other. */
  function Lead(c: Config, s: Sys, steps: seq<Step>): Sys
    decreases |steps|
  {
    if |steps| == 0 then s else Lead(c, Next(c, s, steps[0]), steps[1..])
  }

  lemma {:induction false} LeadIsRun(c: Config, s: Sys, steps: seq<Step>)
    ensures Lead(c, s, steps) == Run(c, s, steps)
    decreases |steps|
  {
    if |steps| > 0 {
      hide Next;
      LeadIsRun(c, Next(c, s, steps[0]), steps[1..]);
      RunAppend(c, s, steps[..1], steps[1..]);
      assert steps == steps[..1] + steps[1..];
      assert steps[..1][..0] == [] && Run(c, s, []) == s;
      assert Run(c, s, steps[..1]) == Next(c, s, steps[0]);
    }
  }

  /** The call's next own step, and the rest of them. */
  lemma OwnStep(c: Config, s: Sys, tid: Tid, hows: seq<How>)
    requires |hows| > 0
    ensures Lead(c, s, Own(tid, hows)) == Lead(c, Next(c, s, Go(tid, hows[0])), Own(tid, hows[1..]))
  {
    assert Own(tid, hows)[1..] == Own(tid, hows[1..]);
    hide Next;
  }

  // ---- what only dispatched keys have ------------------------------------------------------------------------------------

  predicate OnlyDispatched(d: Disk) {
    (forall k :: k in d.records ==> k in d.dispatched) && (forall k :: k in d.receipts ==> k in d.dispatched)
  }

  /** What a call knows of its effect: who has begun, or tells of it, has it dispatched; who has not looked at HEAD has done nothing yet. */
  predicate BusyDispatched(d: Disk, t: Task) {
    && (Begun(t.pc) || t.pc.QFinish? || t.pc.QCommit? ==> t.key in d.dispatched)
    && (t.pc.RHead? ==> t.release && !t.caught) && (t.pc.QHead? ==> !t.release)
  }

  predicate Founded(s: Sys) { OnlyDispatched(s.disk) && forall i :: i in s.work ==> BusyDispatched(s.disk, s.work[i]) }

  lemma RunFounded(c: Config, d: Disk, tid: Tid, t: Task, how: How)
    requires OnlyDispatched(d) && BusyDispatched(d, t) && !Reconciling(t.pc)
    ensures var w := RunWork(c, d, tid, t, how);
      OnlyDispatched(w.0) && BusyDispatched(w.0, w.1) && forall k :: k in d.dispatched ==> k in w.0.dispatched
  {
    RunsOnward(c, d, tid, t, how);
    RunTasks(c, d, tid, t, how);
    RunEffects(c, d, tid, t, how);
    if !Begun(t.pc) { HeadOnce(c, d, tid, t, how); }
    EffectFounded(d, tid, t, how, RunWork(c, d, tid, t, how).0);
    hide RunWork, Commits, RunEffect, OnlyDispatched;
  }

  lemma SaveFounded(d: Disk, t: Task, completed: Option<Status>)
    requires OnlyDispatched(d) && t.key in d.dispatched
    ensures OnlyDispatched(Save(d, t, completed)) && Save(d, t, completed).dispatched == d.dispatched
  {}

  lemma StoreFounded(d: Disk, t: Task, how: How)
    requires OnlyDispatched(d) && t.key in d.dispatched
    ensures OnlyDispatched(Store(d, t, how)) && Store(d, t, how).dispatched == d.dispatched
  {
    hide Commits;
  }

  lemma EffectFounded(d: Disk, tid: Tid, t: Task, how: How, e: Disk)
    requires OnlyDispatched(d) && BusyDispatched(d, t) && RunEffect(d, tid, t, how, e)
    ensures OnlyDispatched(e) && forall k :: k in d.dispatched ==> k in e.dispatched
  {
    if t.key in d.dispatched {
      SaveFounded(d, t, None);
      SaveFounded(d, t, Some(t.status));
      StoreFounded(d, t, how);
    }
    hide Store, Save;
  }

  lemma HeadOnce(c: Config, d: Disk, tid: Tid, t: Task, how: How)
    requires !Reconciling(t.pc) && !Begun(t.pc)
    ensures var u := RunWork(c, d, tid, t, how).1; !u.pc.RHead? && !u.pc.QHead?
  {
    hide Admits, FenceOf, Writes;
  }

  lemma ReconcileFounded(c: Config, d: Disk, t: Task, how: How)
    requires OnlyDispatched(d) && BusyDispatched(d, t) && Reconciling(t.pc)
    ensures var w := ReconcileWork(c, d, t, how); OnlyDispatched(w.0) && BusyDispatched(w.0, w.1) && w.0.dispatched == d.dispatched
  {
    ReconcileEffects(c, d, t, how);
    ReconcileDispatches(c, d, t, how);
    ReconcileKey(c, d, t, how);
    ReconcileReads(c, d, t, how);
    hide ReconcileWork, Commits;
  }

  /** Who is to write a record has read one. */
  lemma ReconcileReads(c: Config, d: Disk, t: Task, how: How)
    requires Reconciling(t.pc)
    ensures var u := ReconcileWork(c, d, t, how).1;
      !Begun(u.pc) && !u.pc.RHead? && !u.pc.QHead? && (u.pc.QFinish? || u.pc.QCommit? ==> t.pc.QFinish? || (t.pc.QDecide? && t.key in d.records))
  {
    hide Commits, Save, Store, Decide;
    if t.pc.QDecide? && t.key in d.records { DecideEnds(c, d, t, d.records[t.key]); }
  }

  lemma DecideEnds(c: Config, d: Disk, t: Task, r: Record)
    ensures var pc := Decide(c, d, t, r).pc; pc.End? || pc.QCommit? || pc.QFinish?
  {
    hide Settled, KnownSuccessor, Expected;
  }

  /** A step of one call leaves the others where they are, and what is dispatched stays so. */
  lemma OthersFounded(s: Sys, tid: Tid, e: Disk, u: Task)
    requires Founded(s) && OnlyDispatched(e) && BusyDispatched(e, u) && forall k :: k in s.disk.dispatched ==> k in e.dispatched
    ensures Founded(s.(work := s.work[tid := u], disk := e))
  {
    hide OnlyDispatched;
  }

  lemma StartFounded(s: Sys, tid: Tid, owner: Owner, reconcile: bool)
    requires Founded(s)
    ensures Founded(Start(s, tid, owner, reconcile))
  {
    hide OnlyDispatched;
  }

  lemma WorkFounded(c: Config, s: Sys, tid: Tid, how: How)
    requires Founded(s) && tid in s.work
    ensures var w := Work(c, s.disk, tid, s.work[tid], how); Founded(s.(work := s.work[tid := w.1], disk := w.0))
  {
    hide RunWork, ReconcileWork, OnlyDispatched, BusyDispatched;
    var t := s.work[tid];
    if Reconciling(t.pc) { ReconcileFounded(c, s.disk, t, how); } else { RunFounded(c, s.disk, tid, t, how); }
    var w := Work(c, s.disk, tid, t, how);
    OthersFounded(s, tid, w.0, w.1);
  }

  lemma NextFounded(c: Config, s: Sys, step: Step)
    requires Founded(s)
    ensures Founded(Next(c, s, step))
  {
    hide Turn, Die, Work, MayStart, BusyDispatched, Start;
    match step
    case Go(tid, how) => if tid in s.work { WorkFounded(c, s, tid, how); }
    case StartRun(tid, owner) => StartFounded(s, tid, owner, false);
    case StartReconcile(tid, owner) => StartFounded(s, tid, owner, true);
    case Crash(_) =>
    case Outside(base) => OutsideFounded(s, base);
  }

  lemma OutsideFounded(s: Sys, base: Base)
    requires Founded(s)
    ensures Founded(s.(disk := s.disk.(head := base, past := s.disk.past + {s.disk.head}, used := s.disk.used + {base})))
  {}

  lemma {:induction false} RunFoundedAlways(c: Config, base: Base, steps: seq<Step>)
    ensures Founded(Run(c, Init(base), steps))
  {
    hide Next, Founded;
    if |steps| > 0 {
      RunFoundedAlways(c, base, steps[..|steps| - 1]);
      NextFounded(c, Run(c, Init(base), steps[..|steps| - 1]), steps[|steps| - 1]);
    } else {
      InitFounded(base);
    }
  }

  lemma InitFounded(base: Base)
    ensures Founded(Init(base))
  {}

  // ---- the work of one call, step by step ----------------------------------------------------------------------------------

  /** Working alone, `hows` lead the call from (d, t) to (e, u), and it has not ended before the last of them. */
  ghost predicate Leads(c: Config, tid: Tid, d: Disk, t: Task, hows: seq<How>, e: Disk, u: Task)
    decreases |hows|
  {
    if |hows| == 0 then e == d && u == t
    else !t.pc.End? && var w := Work(c, d, tid, t, hows[0]); Leads(c, tid, w.0, w.1, hows[1..], e, u)
  }

  lemma LeadsOne(c: Config, tid: Tid, d: Disk, t: Task, how: How, e: Disk, u: Task, rest: seq<How>, f: Disk, v: Task)
    requires !t.pc.End? && Work(c, d, tid, t, how) == (e, u) && Leads(c, tid, e, u, rest, f, v)
    ensures Leads(c, tid, d, t, [how] + rest, f, v)
  {
    assert ([how] + rest)[1..] == rest;
    hide Work;
  }

  lemma {:induction false} LeadsThen(c: Config, tid: Tid, d: Disk, t: Task, hows: seq<How>, e: Disk, u: Task, rest: seq<How>, f: Disk, v: Task)
    requires Leads(c, tid, d, t, hows, e, u) && Leads(c, tid, e, u, rest, f, v)
    ensures Leads(c, tid, d, t, hows + rest, f, v)
    decreases |hows|
  {
    hide Work;
    if |hows| == 0 {
      assert hows + rest == rest;
    } else {
      var w := Work(c, d, tid, t, hows[0]);
      LeadsThen(c, tid, w.0, w.1, hows[1..], e, u, rest, f, v);
      assert (hows + rest)[1..] == hows[1..] + rest;
    }
  }

  predicate Holds(s: Sys, tid: Tid) { tid in s.locks.seats && s.locks.seats[tid].stage.Working? && tid in s.work }

  lemma {:induction false} LeadsRun(c: Config, s: Sys, tid: Tid, hows: seq<How>, e: Disk, u: Task)
    requires Holds(s, tid) && Leads(c, tid, s.disk, s.work[tid], hows, e, u)
    ensures Lead(c, s, Own(tid, hows)) == s.(work := s.work[tid := u], disk := e)
    decreases |hows|
  {
    hide Work, Turn;
    if |hows| == 0 {
      assert s.work[tid := u] == s.work;
    } else {
      var w := Work(c, s.disk, tid, s.work[tid], hows[0]);
      var next := s.(work := s.work[tid := w.1], disk := w.0);
      OwnStep(c, s, tid, hows);
      LeadsRun(c, next, tid, hows[1..], e, u);
      assert next.work[tid := u] == s.work[tid := u];
    }
  }

  lemma LeadStep(c: Config, s: Sys, step: Step, rest: seq<Step>)
    ensures Lead(c, s, [step] + rest) == Lead(c, Next(c, s, step), rest)
  {
    assert ([step] + rest)[1..] == rest;
    hide Next;
  }

  lemma {:induction false} LeadThen(c: Config, s: Sys, steps: seq<Step>, more: seq<Step>)
    ensures Lead(c, s, steps + more) == Lead(c, Lead(c, s, steps), more)
    decreases |steps|
  {
    hide Next;
    if |steps| == 0 {
      assert steps + more == more;
    } else {
      LeadThen(c, Next(c, s, steps[0]), steps[1..], more);
      assert (steps + more)[1..] == steps[1..] + more;
    }
  }

  // ---- run, from its first look at HEAD to its publication --------------------------------------------------------------

  const PLACES := [RHead, RFenceRead, RFenceWrite, RDispatch, RRecord, RPrepare, RSaveAfter, RLive, RPublish]

  /** Every step succeeds, and `b` is the base that is prepared. */
  function Smooth(b: Base): (r: seq<How>)
    ensures |r| == 8
  {
    [Well, Well, Well, Well, Well, Fresh(b), Well, Well]
  }

  /** The disk after `n` such steps of a call that found `o`. */
  function DiskAt(c: Config, o: Disk, tid: Tid, t: Task, before: Base, b: Base, n: nat): Disk {
    o.(fence := if n >= 3 then Some(FenceOf(c, t.key)) else o.fence,
       dispatched := if n >= 4 then o.dispatched[t.key := tid] else o.dispatched,
       records := if n >= 7 then o.records[t.key := Record(before, Some(b), None)]
                  else if n >= 5 then o.records[t.key := Record(before, t.after, None)] else o.records,
       used := if n >= 6 then o.used + {b} else o.used,
       made := if n >= 6 then o.made[b := t.key] else o.made)
  }

  function TaskAt(t: Task, before: Base, b: Base, n: nat): Task
    requires n <= 8
  {
    t.(pc := PLACES[n], before := if n >= 1 then before else t.before, release := n < 4 && t.release, recorded := n >= 5 || t.recorded,
       after := if n >= 6 then Some(b) else t.after)
  }

  /** The call may go through: nobody dispatched its effect, the fence lets it by, and the base it prepares is a new one. */
  predicate MayGo(c: Config, o: Disk, t: Task, b: Base) {
    t.key !in o.dispatched && Admits(o.fence, FenceOf(c, t.key)) && b !in o.used
  }

  lemma StepOpening(c: Config, o: Disk, tid: Tid, t: Task, before: Base, b: Base, n: nat)
    requires MayGo(c, o, t, b) && n < 4 && (n == 0 ==> t.pc.RHead? && before == o.head)
    ensures Work(c, DiskAt(c, o, tid, t, before, b, n), tid, TaskAt(t, before, b, n), Smooth(b)[n])
         == (DiskAt(c, o, tid, t, before, b, n + 1), TaskAt(t, before, b, n + 1))
  {
    hide Admits, FenceOf;
  }

  lemma StepRecord(c: Config, o: Disk, tid: Tid, t: Task, before: Base, b: Base)
    ensures Work(c, DiskAt(c, o, tid, t, before, b, 4), tid, TaskAt(t, before, b, 4), Well)
         == (DiskAt(c, o, tid, t, before, b, 5), TaskAt(t, before, b, 5))
  {
    hide FenceOf;
  }

  lemma StepPrepare(c: Config, o: Disk, tid: Tid, t: Task, before: Base, b: Base)
    requires b !in o.used
    ensures Work(c, DiskAt(c, o, tid, t, before, b, 5), tid, TaskAt(t, before, b, 5), Fresh(b))
         == (DiskAt(c, o, tid, t, before, b, 6), TaskAt(t, before, b, 6))
  {
    hide FenceOf;
  }

  lemma StepSaveAfter(c: Config, o: Disk, tid: Tid, t: Task, before: Base, b: Base)
    ensures Work(c, DiskAt(c, o, tid, t, before, b, 6), tid, TaskAt(t, before, b, 6), Well)
         == (DiskAt(c, o, tid, t, before, b, 7), TaskAt(t, before, b, 7))
  {
    hide FenceOf;
    var records := o.records[t.key := Record(before, t.after, None)];
    assert records[t.key := Record(before, Some(b), None)] == o.records[t.key := Record(before, Some(b), None)];
  }

  lemma StepLive(c: Config, o: Disk, tid: Tid, t: Task, before: Base, b: Base)
    ensures Work(c, DiskAt(c, o, tid, t, before, b, 7), tid, TaskAt(t, before, b, 7), Well)
         == (DiskAt(c, o, tid, t, before, b, 8), TaskAt(t, before, b, 8))
  {
    hide FenceOf;
  }

  lemma SmoothStep(c: Config, o: Disk, tid: Tid, t: Task, before: Base, b: Base, n: nat)
    requires MayGo(c, o, t, b) && n < 8 && (n == 0 ==> t.pc.RHead? && before == o.head)
    ensures Work(c, DiskAt(c, o, tid, t, before, b, n), tid, TaskAt(t, before, b, n), Smooth(b)[n])
         == (DiskAt(c, o, tid, t, before, b, n + 1), TaskAt(t, before, b, n + 1))
  {
    if n < 4 { StepOpening(c, o, tid, t, before, b, n); }
    else if n == 4 { StepRecord(c, o, tid, t, before, b); }
    else if n == 5 { StepPrepare(c, o, tid, t, before, b); }
    else if n == 6 { StepSaveAfter(c, o, tid, t, before, b); }
    else { StepLive(c, o, tid, t, before, b); }
    hide Work, DiskAt, TaskAt;
  }

  /** From the `n`-th to the `m`-th of those steps. */
  lemma {:induction false} SmoothLeads(c: Config, o: Disk, tid: Tid, t: Task, before: Base, b: Base, n: nat, m: nat)
    requires MayGo(c, o, t, b) && n <= m <= 8 && (n == 0 ==> t.pc.RHead? && before == o.head)
    ensures Leads(c, tid, DiskAt(c, o, tid, t, before, b, n), TaskAt(t, before, b, n), Smooth(b)[n..m],
                  DiskAt(c, o, tid, t, before, b, m), TaskAt(t, before, b, m))
    decreases m - n
  {
    hide Work, DiskAt, MayGo;
    if n < m {
      SmoothStep(c, o, tid, t, before, b, n);
      SmoothLeads(c, o, tid, t, before, b, n + 1, m);
      LeadsOne(c, tid, DiskAt(c, o, tid, t, before, b, n), TaskAt(t, before, b, n), Smooth(b)[n],
               DiskAt(c, o, tid, t, before, b, n + 1), TaskAt(t, before, b, n + 1), Smooth(b)[n + 1..m],
               DiskAt(c, o, tid, t, before, b, m), TaskAt(t, before, b, m));
      assert Smooth(b)[n..m] == [Smooth(b)[n]] + Smooth(b)[n + 1..m];
    }
  }

  // ---- and to its end ------------------------------------------------------------------------------------------------------

  /** The completed record is written and the journal takes the receipt. */
  function Closed(d: Disk, key: Key, before: Base, after: Option<Base>, status: Status): Disk {
    d.(records := d.records[key := Record(before, after, Some(status))], receipts := d.receipts[key := status],
       applied := if status == Applied && after.Some? then d.applied + [Confirmed(key, before, after.value)] else d.applied)
  }

  lemma FinishLeads(c: Config, tid: Tid, d: Disk, t: Task)
    requires (t.pc.RFinish? || t.pc.QFinish?) && t.key !in d.receipts
    ensures Leads(c, tid, d, t, [Well, Well], Closed(d, t.key, t.before, t.after, t.status), t.(release := true, pc := End))
  {
    var saved, u := Save(d, t, Some(t.status)), t.(pc := if t.pc.RFinish? then RCommit else QCommit);
    var e, v := Closed(d, t.key, t.before, t.after, t.status), t.(release := true, pc := End);
    FinishSaves(c, tid, d, t);
    CommitStores(c, tid, saved, u);
    assert Leads(c, tid, e, v, [], e, v);
    hide Work, Closed, Save, Store, Leads;
    LeadsOne(c, tid, saved, u, Well, e, v, [], e, v);
    assert [Well] + [] == [Well];
    LeadsOne(c, tid, d, t, Well, saved, u, [Well], e, v);
    assert [Well] + [Well] == [Well, Well];
  }

  lemma FinishSaves(c: Config, tid: Tid, d: Disk, t: Task)
    requires t.pc.RFinish? || t.pc.QFinish?
    ensures Work(c, d, tid, t, Well) == (Save(d, t, Some(t.status)), t.(pc := if t.pc.RFinish? then RCommit else QCommit))
  {
    hide Save;
  }

  lemma CommitStores(c: Config, tid: Tid, d: Disk, t: Task)
    requires (t.pc.RCommit? || t.pc.QCommit?) && t.key !in d.receipts
    requires t.key in d.records && d.records[t.key] == Record(t.before, t.after, Some(t.status))
    ensures Work(c, d, tid, t, Well) == (Closed(d, t.key, t.before, t.after, t.status), t.(release := true, pc := End))
  {
    assert d.records[t.key := Record(t.before, t.after, Some(t.status))] == d.records;
  }

  /** HEAD still on the base the call saw: it is moved, seen to have moved, and reported applied. */
  lemma PublishLeads(c: Config, tid: Tid, d: Disk, t: Task)
    requires t.pc.RPublish? && t.after.Some? && d.head == t.before && t.key !in d.receipts
    ensures Leads(c, tid, d, t, [Well, Well, Well, Well], Closed(Publish(d, tid, t), t.key, t.before, t.after, Applied),
                  t.(status := Applied, release := true, pc := End))
  {
    var e, u := Publish(d, tid, t), t.(status := Applied, pc := RFinish);
    FinishLeads(c, tid, e, u);
    PublishMoves(c, tid, d, t);
    ObserveSees(c, tid, e, t.(pc := RObserve));
    var f, v := Closed(e, t.key, t.before, t.after, Applied), t.(status := Applied, release := true, pc := End);
    hide Work, Closed, Publish, Leads;
    LeadsOne(c, tid, e, t.(pc := RObserve), Well, e, u, [Well, Well], f, v);
    LeadsOne(c, tid, d, t, Well, e, t.(pc := RObserve), [Well] + [Well, Well], f, v);
    assert [Well] + ([Well] + [Well, Well]) == [Well, Well, Well, Well];
  }

  lemma PublishMoves(c: Config, tid: Tid, d: Disk, t: Task)
    requires t.pc.RPublish? && t.after.Some? && d.head == t.before
    ensures Work(c, d, tid, t, Well) == (Publish(d, tid, t), t.(pc := RObserve))
  {
    hide Publish;
  }

  lemma ObserveSees(c: Config, tid: Tid, d: Disk, t: Task)
    requires t.pc.RObserve? && t.after == Some(d.head)
    ensures Work(c, d, tid, t, Well) == (d, t.(status := Applied, pc := RFinish))
  {}

  /** The places at which a call gives up, and how: the lease is gone, HEAD is not where it was, or an exception with HEAD where it was. */
  predicate GivesUp(d: Disk, t: Task, hows: seq<How>) {
    || (t.pc.RLive? && hows == [Refused])
    || (t.pc.RPublish? && (hows == [Refused] || (hows == [Well] && d.head != t.before)))
    || (t.pc in {RPrepare, RSaveAfter, RLive, RPublish, RObserve} && !t.caught && t.recorded && d.head == t.before && hows == [Thrown, Well])
    || (t.pc.RRecord? && !t.caught && d.head == t.before && hows == [Thrown, Well])
  }

  lemma RefusedStops(c: Config, tid: Tid, d: Disk, t: Task, hows: seq<How>)
    requires GivesUp(d, t, hows) && |hows| == 1
    ensures Work(c, d, tid, t, hows[0]) == (d, t.(status := Failed, pc := RFinish))
  {}

  lemma ThrownCaught(c: Config, tid: Tid, d: Disk, t: Task, hows: seq<How>)
    requires GivesUp(d, t, hows) && |hows| == 2
    ensures Work(c, d, tid, t, Thrown) == (d, t.(recorded := true, pc := RCatch))
    ensures Work(c, d, tid, t.(recorded := true, pc := RCatch), Well) == (d, t.(recorded := true, status := Failed, caught := true, pc := RFinish))
  {}

  /** Giving up is reported: a failed receipt, HEAD untouched. */
  lemma GivesUpLeads(c: Config, tid: Tid, d: Disk, t: Task, hows: seq<How>) returns (u: Task)
    requires GivesUp(d, t, hows) && t.key !in d.receipts
    ensures Leads(c, tid, d, t, hows + [Well, Well], Closed(d, t.key, t.before, t.after, Failed), u) && u.pc.End? && u.release && u.key == t.key
  {
    var e := Closed(d, t.key, t.before, t.after, Failed);
    if |hows| == 1 {
      RefusedStops(c, tid, d, t, hows);
      var v := t.(status := Failed, pc := RFinish);
      u := v.(release := true, pc := End);
      FinishLeads(c, tid, d, v);
      LeadsOne(c, tid, d, t, hows[0], d, v, [Well, Well], e, u);
      assert hows == [hows[0]];
    } else {
      ThrownCaught(c, tid, d, t, hows);
      var w := t.(recorded := true, pc := RCatch);
      var v := w.(status := Failed, caught := true, pc := RFinish);
      u := v.(release := true, pc := End);
      FinishLeads(c, tid, d, v);
      LeadsOne(c, tid, d, w, Well, d, v, [Well, Well], e, u);
      LeadsOne(c, tid, d, t, Thrown, d, w, [Well] + [Well, Well], e, u);
      assert [Thrown] + ([Well] + [Well, Well]) == hows + [Well, Well];
    }
    hide Work, Closed, Leads;
  }

  /** The call has gone and given the writer lock back; nothing else about the locks has changed. */
  predicate GaveBack(l: Locks, tid: Tid, m: Locks)
    requires tid in l.seats
  {
    var seat := l.seats[tid];
    m == l.(seats := l.seats - {tid}, active := if seat.reconcile then l.active else l.active - {seat.owner}, writer := Free)
  }

  lemma Gives(c: Config, s: Sys, tid: Tid)
    requires Holds(s, tid) && s.work[tid].pc.End? && s.work[tid].release
    ensures var r := Next(c, s, Go(tid, Well)); r.disk == s.disk && GaveBack(s.locks, tid, r.locks)
  {}

  /** The work of a call, and its last step: the lock is given back. */
  lemma LeadsBack(c: Config, s: Sys, tid: Tid, hows: seq<How>, e: Disk, u: Task)
    requires Holds(s, tid) && Leads(c, tid, s.disk, s.work[tid], hows, e, u) && u.pc.End? && u.release
    ensures var r := Run(c, s, Own(tid, hows) + [Go(tid, Well)]); r.disk == e && GaveBack(s.locks, tid, r.locks)
  {
    LeadsRun(c, s, tid, hows, e, u);
    var done := s.(work := s.work[tid := u], disk := e);
    Gives(c, done, tid);
    LeadThen(c, s, Own(tid, hows), [Go(tid, Well)]);
    LeadIsRun(c, s, Own(tid, hows) + [Go(tid, Well)]);
    hide Next, GaveBack, Leads, Own;
    assert [Go(tid, Well)][1..] == [];
  }

  /** A call of `run` that has just got the lock. */
  predicate Starts(s: Sys, tid: Tid) { Holds(s, tid) && s.work[tid].pc.RHead? }

  lemma SmoothRun(c: Config, s: Sys, tid: Tid, b: Base, n: nat)
    requires Starts(s, tid) && MayGo(c, s.disk, s.work[tid], b) && 0 < n <= 8
    ensures Leads(c, tid, s.disk, s.work[tid], Smooth(b)[..n],
                  DiskAt(c, s.disk, tid, s.work[tid], s.disk.head, b, n), TaskAt(s.work[tid], s.disk.head, b, n))
  {
    var d, t := s.disk, s.work[tid];
    SmoothLeads(c, d, tid, t, d.head, b, 1, n);
    HeadSeen(c, d, tid, t, b);
    hide Work, DiskAt, TaskAt, MayGo, Leads;
    LeadsOne(c, tid, d, t, Well, DiskAt(c, d, tid, t, d.head, b, 1), TaskAt(t, d.head, b, 1), Smooth(b)[1..n],
             DiskAt(c, d, tid, t, d.head, b, n), TaskAt(t, d.head, b, n));
    assert Smooth(b)[..n] == [Well] + Smooth(b)[1..n];
  }

  lemma HeadSeen(c: Config, d: Disk, tid: Tid, t: Task, b: Base)
    requires t.pc.RHead?
    ensures Work(c, d, tid, t, Well) == (DiskAt(c, d, tid, t, d.head, b, 1), TaskAt(t, d.head, b, 1))
  {}

  /** What an applied call leaves: its base is HEAD, and record, receipt and history say so. */
  function AppliedBy(c: Config, d: Disk, tid: Tid, key: Key, b: Base): Disk {
    d.(head := b, past := d.past + {d.head}, moves := d.moves + [Move(key, tid, d.head, b)],
       fence := Some(Fence(c.token(key), c.claim(key))), dispatched := d.dispatched[key := tid],
       used := d.used + {b}, made := d.made[b := key], records := d.records[key := Record(d.head, Some(b), Some(Applied))],
       receipts := d.receipts[key := Applied], applied := d.applied + [Confirmed(key, d.head, b)])
  }

  lemma AppliedDisk(c: Config, d: Disk, tid: Tid, t: Task, b: Base)
    ensures var u := TaskAt(t, d.head, b, 8);
      Closed(Publish(DiskAt(c, d, tid, t, d.head, b, 8), tid, u), u.key, u.before, u.after, Applied) == AppliedBy(c, d, tid, t.key, b)
  {
    var r0, r1 := Record(d.head, Some(b), None), Record(d.head, Some(b), Some(Applied));
    assert d.records[t.key := r0][t.key := r1] == d.records[t.key := r1];
  }

  /** With nobody in between, the base that was prepared becomes HEAD, and the lock is given back. */
  lemma RunHeldAnswers(c: Config, s: Sys, tid: Tid, b: Base)
    requires Starts(s, tid) && MayGo(c, s.disk, s.work[tid], b) && s.work[tid].key !in s.disk.receipts
    ensures var r := Run(c, s, Own(tid, Smooth(b) + [Well, Well, Well, Well]) + [Go(tid, Well)]);
      r.disk == AppliedBy(c, s.disk, tid, s.work[tid].key, b) && GaveBack(s.locks, tid, r.locks)
  {
    var d, t := s.disk, s.work[tid];
    SmoothRun(c, s, tid, b, 8);
    var e, u := DiskAt(c, d, tid, t, d.head, b, 8), TaskAt(t, d.head, b, 8);
    PublishLeads(c, tid, e, u);
    assert Smooth(b)[..8] == Smooth(b);
    var f, v := Closed(Publish(e, tid, u), u.key, u.before, u.after, Applied), u.(status := Applied, release := true, pc := End);
    AppliedDisk(c, d, tid, t, b);
    hide Work, MayGo, Leads, Run, GaveBack, Own, Smooth, Closed, Publish, DiskAt, AppliedBy;
    LeadsThen(c, tid, d, t, Smooth(b), e, u, [Well, Well, Well, Well], f, v);
    LeadsBack(c, s, tid, Smooth(b) + [Well, Well, Well, Well], f, v);
  }

  // ---- HEAD left the base, or the call gives up ----------------------------------------------------------------------------

  /** HEAD is moved from outside. */
  function MovedTo(d: Disk, x: Option<Base>): Disk {
    if x.None? then d else d.(head := x.value, past := d.past + {d.head}, used := d.used + {x.value})
  }

  function Aside(x: Option<Base>): seq<Step> { if x.None? then [] else [Outside(x.value)] }

  /** A call that gives up leaves its preparations, a record of what it meant to do, and a failed receipt. */
  function FailedBy(c: Config, d: Disk, tid: Tid, t: Task, before: Base, b: Base, m: nat): Disk {
    d.(fence := Some(Fence(c.token(t.key), c.claim(t.key))), dispatched := d.dispatched[t.key := tid],
       used := if m >= 6 then d.used + {b} else d.used, made := if m >= 6 then d.made[b := t.key] else d.made,
       records := d.records[t.key := Record(before, if m >= 6 then Some(b) else t.after, Some(Failed))],
       receipts := d.receipts[t.key := Failed])
  }

  lemma FailedDisk(c: Config, d: Disk, tid: Tid, t: Task, before: Base, b: Base, m: nat)
    requires 4 <= m <= 8
    ensures var u := TaskAt(t, before, b, m);
      Closed(DiskAt(c, d, tid, t, before, b, m), u.key, u.before, u.after, Failed) == FailedBy(c, d, tid, t, before, b, m)
  {
    var a, r := if m >= 7 then Some(b) else t.after, Record(before, if m >= 6 then Some(b) else t.after, Some(Failed));
    assert d.records[t.key := Record(before, a, None)][t.key := r] == d.records[t.key := r];
  }

  /** Which way a call gives up after `m` steps, when HEAD was moved meanwhile or not. */
  predicate Stops(m: nat, moved: bool, hows: seq<How>) {
    || (m == 7 && hows == [Refused])
    || (m == 8 && (hows == [Refused] || (hows == [Well] && moved)))
    || (4 <= m <= 8 && !moved && hows == [Thrown, Well])
  }

  /** Where the move from outside finds the call, and where it leaves it. */
  lemma AsideAt(c: Config, d: Disk, tid: Tid, t: Task, before: Base, b: Base, n: nat, x: Option<Base>)
    requires x.Some? ==> x.value !in d.used && x.value != b
    ensures x.Some? ==> x.value !in DiskAt(c, d, tid, t, before, b, n).used
    ensures MovedTo(DiskAt(c, d, tid, t, before, b, n), x) == DiskAt(c, MovedTo(d, x), tid, t, before, b, n)
  {
    if x.Some? { assert d.used + {b} + {x.value} == d.used + {x.value} + {b}; }
  }

  lemma AsideRun(c: Config, s: Sys, x: Option<Base>)
    requires x.Some? ==> x.value !in s.disk.used
    ensures Lead(c, s, Aside(x)) == s.(disk := MovedTo(s.disk, x))
  {
    if x.Some? { assert Aside(x)[1..] == []; }
  }

  /** `n` steps, a move of HEAD from outside or none, then the rest of the way up to step `m`, and the ways it gives up there. */
  function Cut(tid: Tid, b: Base, n: nat, x: Option<Base>, m: nat, hows: seq<How>): seq<Step>
    requires n <= m <= 8
  {
    Own(tid, Smooth(b)[..n]) + Aside(x) + (Own(tid, Smooth(b)[n..m] + (hows + [Well, Well])) + [Go(tid, Well)])
  }

  /** The second part of it: HEAD is where it was, or has been moved aside. */
  lemma AfterAside(c: Config, s: Sys, tid: Tid, d: Disk, t: Task, before: Base, b: Base, n: nat, x: Option<Base>, m: nat, hows: seq<How>)
    requires Holds(s, tid) && MayGo(c, d, t, b) && t.key !in d.receipts && !t.caught && 0 < n <= m <= 8 && 4 <= m
    requires Stops(m, x.Some?, hows) && (d.head == before <==> x.None?)
    requires s.disk == DiskAt(c, d, tid, t, before, b, n) && s.work[tid] == TaskAt(t, before, b, n)
    ensures var r := Run(c, s, Own(tid, Smooth(b)[n..m] + (hows + [Well, Well])) + [Go(tid, Well)]);
      r.disk == FailedBy(c, d, tid, t, before, b, m) && GaveBack(s.locks, tid, r.locks)
  {
    var e, u := DiskAt(c, d, tid, t, before, b, m), TaskAt(t, before, b, m);
    SmoothLeads(c, d, tid, t, before, b, n, m);
    FailedDisk(c, d, tid, t, before, b, m);
    StopsThere(c, d, tid, t, before, b, x, m, hows);
    assert u.key == t.key && e.receipts == d.receipts;
    hide Work, MayGo, Leads, Run, GaveBack, Own, Smooth, Closed, DiskAt, TaskAt, FailedBy, GivesUp, Stops;
    var v := GivesUpLeads(c, tid, e, u, hows);
    var f := Closed(e, u.key, u.before, u.after, Failed);
    LeadsThen(c, tid, s.disk, s.work[tid], Smooth(b)[n..m], e, u, hows + [Well, Well], f, v);
    LeadsBack(c, s, tid, Smooth(b)[n..m] + (hows + [Well, Well]), f, v);
  }

  lemma StopsThere(c: Config, d: Disk, tid: Tid, t: Task, before: Base, b: Base, x: Option<Base>, m: nat, hows: seq<How>)
    requires !t.caught && 4 <= m <= 8 && Stops(m, x.Some?, hows) && (d.head == before <==> x.None?)
    ensures GivesUp(DiskAt(c, d, tid, t, before, b, m), TaskAt(t, before, b, m), hows)
  {}

  /** A call that is overtaken, refused or interrupted reports a failure, moves nothing and gives the lock back. */
  lemma RunHeldFails(c: Config, s: Sys, tid: Tid, b: Base, n: nat, x: Option<Base>, m: nat, hows: seq<How>)
    requires Starts(s, tid) && MayGo(c, s.disk, s.work[tid], b) && s.work[tid].key !in s.disk.receipts && !s.work[tid].caught
    requires 0 < n <= m <= 8 && 4 <= m && Stops(m, x.Some?, hows)
    requires s.disk.head in s.disk.used && (x.Some? ==> x.value !in s.disk.used && x.value != b)
    ensures var r := Run(c, s, Cut(tid, b, n, x, m, hows));
      r.disk == FailedBy(c, MovedTo(s.disk, x), tid, s.work[tid], s.disk.head, b, m) && GaveBack(s.locks, tid, r.locks)
  {
    var d, t := s.disk, s.work[tid];
    SmoothRun(c, s, tid, b, n);
    var e, u := DiskAt(c, d, tid, t, d.head, b, n), TaskAt(t, d.head, b, n);
    AsideAt(c, d, tid, t, d.head, b, n, x);
    var s1 := s.(work := s.work[tid := u], disk := e);
    var s2 := s1.(disk := MovedTo(e, x));
    assert MayGo(c, MovedTo(d, x), t, b) && t.key !in MovedTo(d, x).receipts;
    assert MovedTo(d, x).head == d.head <==> x.None?;
    hide Work, MayGo, Leads, Run, GaveBack, Own, Smooth, DiskAt, TaskAt, FailedBy, Stops, MovedTo, Aside;
    AfterAside(c, s2, tid, MovedTo(d, x), t, d.head, b, n, x, m, hows);
    LeadsRun(c, s, tid, Smooth(b)[..n], e, u);
    AsideRun(c, s1, x);
    LeadIsRun(c, s, Own(tid, Smooth(b)[..n]));
    LeadIsRun(c, s1, Aside(x));
    RunAppend(c, s, Own(tid, Smooth(b)[..n]), Aside(x));
    RunAppend(c, s, Own(tid, Smooth(b)[..n]) + Aside(x), Own(tid, Smooth(b)[n..m] + (hows + [Well, Well])) + [Go(tid, Well)]);
  }

  // ---- the answer of a call of run --------------------------------------------------------------------------------------------

  /** A call of `run` takes a lock that is free. */
  function Taking(tid: Tid, owner: Owner): seq<Step> { [StartRun(tid, owner), Go(tid, Well), Go(tid, Well)] }

  predicate MayRun(c: Config, s: Sys, tid: Tid, owner: Owner) {
    MayStart(c, s.locks, tid, owner, false) && s.locks.writer.Free? && owner.key !in s.disk.dispatched
  }

  lemma LockTaken(c: Config, s: Sys, tid: Tid, owner: Owner)
    requires MayRun(c, s, tid, owner)
    ensures var r := Lead(c, s, Taking(tid, owner));
      && Starts(r, tid) && r.disk == s.disk && r.work[tid] == Task(owner.key, false, RHead, 0, None, Failed, true, false, false, 0)
      && r.locks == s.locks.(tids := s.locks.tids + {tid}, active := s.locks.active + {owner}, writer := Held(Some(owner), tid),
                             seats := s.locks.seats[tid := Seat(owner, false, Working, owner in s.locks.active, false, owner, 0)])
  {
    var s1 := Start(s, tid, owner, false);
    assert Next(c, s, StartRun(tid, owner)) == s1 by { hide MayStart; }
    var seat := s1.locks.seats[tid];
    var s2 := s1.(locks := Put(s1.locks, tid, seat.(stage := Making)).(writer := Held(None, tid)));
    assert Next(c, s1, Go(tid, Well)) == s2;
    var s3 := s2.(locks := Put(s2.locks, tid, seat.(stage := Working)).(active := s.locks.active + {owner}, writer := Held(Some(owner), tid)));
    assert Next(c, s2, Go(tid, Well)) == s3;
    assert s1.locks.seats[tid := seat.(stage := Making)][tid := seat.(stage := Working)] == s.locks.seats[tid := seat.(stage := Working)];
    hide Next, MayRun;
    LeadStep(c, s2, Go(tid, Well), []);
    LeadStep(c, s1, Go(tid, Well), [Go(tid, Well)]);
    LeadStep(c, s, StartRun(tid, owner), [Go(tid, Well), Go(tid, Well)]);
    assert [Go(tid, Well)] + [] == [Go(tid, Well)];
    assert Taking(tid, owner) == [StartRun(tid, owner)] + ([Go(tid, Well)] + [Go(tid, Well)]);
  }

  /** The locks when the call has gone: as before it came, and the writer lock free. */
  predicate Restored(l: Locks, tid: Tid, owner: Owner, m: Locks) {
    m == l.(tids := l.tids + {tid}, seats := l.seats - {tid}, active := l.active - {owner}, writer := Free)
  }

  lemma GaveBackRestores(l: Locks, tid: Tid, owner: Owner, held: Locks, m: Locks)
    requires tid in held.seats && !held.seats[tid].reconcile && held.seats[tid].owner == owner && GaveBack(held, tid, m)
    requires held.tids == l.tids + {tid} && held.active == l.active + {owner} && held.arbiter == l.arbiter && held.dead == l.dead
    requires held.seats == l.seats[tid := held.seats[tid]]
    ensures Restored(l, tid, owner, m)
  {
    assert l.seats[tid := held.seats[tid]] - {tid} == l.seats - {tid};
    assert l.active + {owner} - {owner} == l.active - {owner};
  }

  /**
   * The answer of an undisturbed call: from every reachable state in which its lock is free, its effect not dispatched,
   * the fence lets it by and the base it prepares is a new one, HEAD goes to that base, record and journal say
   * `completed`, and the lock is free again.
   */
  lemma RunAnswers(c: Config, base: Base, steps: seq<Step>, tid: Tid, owner: Owner, b: Base)
    requires var s := After(c, base, steps);
      MayRun(c, s, tid, owner) && Admits(s.disk.fence, FenceOf(c, owner.key)) && b !in s.disk.used
    ensures var s := After(c, base, steps);
      var r := Run(c, s, Taking(tid, owner) + (Own(tid, Smooth(b) + [Well, Well, Well, Well]) + [Go(tid, Well)]));
      && r.disk == AppliedBy(c, s.disk, tid, owner.key, b) && r.disk.head == b && r.disk.receipts[owner.key] == Applied
      && r.disk.records[owner.key].completed == Some(Applied) && Restored(s.locks, tid, owner, r.locks)
  {
    var s := After(c, base, steps);
    RunFoundedAlways(c, base, steps);
    assert owner.key !in s.disk.receipts;
    LockTaken(c, s, tid, owner);
    var held := Lead(c, s, Taking(tid, owner));
    assert MayGo(c, held.disk, held.work[tid], b);
    var rest := Own(tid, Smooth(b) + [Well, Well, Well, Well]) + [Go(tid, Well)];
    hide After, MayRun, Admits, FenceOf, Founded, Next, Run, Lead, Own, Smooth, MayGo;
    RunHeldAnswers(c, held, tid, b);
    LeadIsRun(c, s, Taking(tid, owner));
    RunAppend(c, s, Taking(tid, owner), rest);
    GaveBackRestores(s.locks, tid, owner, held.locks, Run(c, held, rest).locks);
  }

  /**
   * The answer of a call that is overtaken, refused or interrupted, wherever HEAD is moved meanwhile: a `failed` receipt,
   * no move of its own, and the lock free again.
   */
  lemma RunFails(c: Config, base: Base, steps: seq<Step>, tid: Tid, owner: Owner, b: Base, n: nat, x: Option<Base>, m: nat, hows: seq<How>)
    requires var s := After(c, base, steps);
      MayRun(c, s, tid, owner) && Admits(s.disk.fence, FenceOf(c, owner.key)) && b !in s.disk.used
      && (x.Some? ==> x.value !in s.disk.used && x.value != b)
    requires 0 < n <= m <= 8 && 4 <= m && Stops(m, x.Some?, hows)
    ensures var s := After(c, base, steps);
      var r := Run(c, s, Taking(tid, owner) + Cut(tid, b, n, x, m, hows));
      && r.disk.head == (if x.Some? then x.value else s.disk.head) && r.disk.moves == s.disk.moves && r.disk.applied == s.disk.applied
      && r.disk.receipts == s.disk.receipts[owner.key := Failed] && r.disk.dispatched == s.disk.dispatched[owner.key := tid]
      && r.disk.records == s.disk.records[owner.key := Record(s.disk.head, if m >= 6 then Some(b) else None, Some(Failed))]
      && Restored(s.locks, tid, owner, r.locks)
  {
    var s := After(c, base, steps);
    RunFoundedAlways(c, base, steps);
    assert owner.key !in s.disk.receipts;
    assert s.disk.head in s.disk.used by { RunAlways(c, base, steps); }
    LockTaken(c, s, tid, owner);
    var held := Lead(c, s, Taking(tid, owner));
    assert MayGo(c, held.disk, held.work[tid], b);
    hide After, MayRun, Admits, FenceOf, Founded, Next, Run, Lead, MayGo, Cut, Stops, Always;
    RunHeldFails(c, held, tid, b, n, x, m, hows);
    LeadIsRun(c, s, Taking(tid, owner));
    RunAppend(c, s, Taking(tid, owner), Cut(tid, b, n, x, m, hows));
    GaveBackRestores(s.locks, tid, owner, held.locks, Run(c, held, Cut(tid, b, n, x, m, hows)).locks);
  }
}
