/**
 * The workspace transaction protocol as a state machine. Every call of `run` or `reconcile` is a task that
 * advances one observable step at a time; between any two steps other tasks move, processes die, and the
 * integration branch may be moved from outside.
 */
module Workspace {
  import Observations
  import opened Options

  /** A process, an application key (session and effect), a workspace base, one call. */
  type Inst = nat
  type Key = nat
  type Base = nat
  type Tid = nat

  datatype Status = Applied | Failed | NotExecuted
  datatype Record = Record(before: Base, after: Option<Base>, completed: Option<Status>)
  datatype Owner = Owner(inst: Inst, key: Key)
  datatype Fence = Fence(token: int, claim: string)
  datatype Move = Move(key: Key, tid: Tid, before: Base, after: Base)

  /** What the evidence of an applied receipt says happened. */
  datatype Confirmed = Confirmed(key: Key, before: Base, after: Base)

  /** A lock directory; the owner file comes later than the directory. `holder` is history: no step reads it but one (see `Config`). */
  datatype Lock = Free | Held(owner: Option<Owner>, holder: Tid)

  /**
   * Where a call stands with the locks. `Making` holds a writer lock without owner file; `Working` runs under it.
   * The `Q` stages are those of a reconciliation that finds the lock taken.
   */
  datatype Stage = RLock | Making | Working | QExists | QArbiter | QRead | QProbe | QRemove | QTake | QReady | QDrop

  datatype Seat = Seat(owner: Owner, reconcile: bool, stage: Stage, sawActive: bool, arbiter: bool, sawOwner: Owner, sawHolder: Tid)

  /** Where a call is in its work under the lock. `R` is `run`, `Q` is `reconcile`; `Finish` writes the completed record, `Commit` sends the receipt. */
  datatype Pc = RHead | RFenceRead | RFenceWrite | RDispatch | RRecord | RPrepare | RSaveAfter | RLive | RPublish | RObserve
              | RFinish | RCommit | RCatch | QHead | QDecide | QFinish | QCommit | End

  /** A call's local variables. `recorded` is `record !== null`; `before` and `after` are those of that record. */
  datatype Task = Task(key: Key, reconciles: bool, pc: Pc, before: Base, after: Option<Base>, status: Status, release: bool, recorded: bool,
                       caught: bool, current: Base)

  /**
   * What outlives every process, with the history the properties speak of: `past`, `used`, `made`, `moves`, who dispatched.
   * `applied` lists the completed receipts the journal applied, in commit order; an archived receipt is in `receipts` only.
   */
  datatype Disk = Disk(head: Base, past: set<Base>, used: set<Base>, made: map<Base, Key>, fence: Option<Fence>,
                       dispatched: map<Key, Tid>, records: map<Key, Record>, receipts: map<Key, Status>, applied: seq<Confirmed>, moves: seq<Move>)

  datatype Locks = Locks(seats: map<Tid, Seat>, tids: set<Tid>, dead: set<Inst>, active: set<Owner>, writer: Lock, arbiter: Option<Tid>)

  datatype Sys = Sys(locks: Locks, work: map<Tid, Task>, disk: Disk)

  /**
   * What the callers keep to: with `apart` no two live calls, in whatever processes, are for one key; with `parted` no
   * `reconcile` is live together with a `run` of its key; with `oneAtATime` no two calls of one process are for one key
   * (two `reconcile` calls of one process never are anyway).
   * Two repairs, neither of which the program has: with `readsLate`, `reconcile` looks at `active` when it takes the
   * lock over, not when it is called; with `removesWhatItRead`, a take-over removes the lock only while it is still the
   * one whose owner was read.
   * `token` and `claim` are what the effect's lease says, `session` whose journal the effect is in.
   */
  datatype Config = Config(apart: bool, parted: bool, oneAtATime: bool, readsLate: bool, removesWhatItRead: bool,
                           token: Key -> int, claim: Key -> string, session: Key -> nat)

  predicate AsWritten(c: Config) { !c.readsLate && !c.removesWhatItRead }

  /**
   * How a step goes: as hoped, refused, thrown before or after it took effect, or one of its other ends. A receipt is
   * stored but archived when the session's epoch is no longer the effect's.
   */
  datatype How = Well | Refused | Thrown | ThrownAfter | Fresh(base: Base) | DropArbiter | Archived(thrown: bool)

  datatype Step = StartRun(tid: Tid, owner: Owner) | StartReconcile(tid: Tid, owner: Owner)
                | Go(tid: Tid, how: How) | Crash(inst: Inst) | Outside(base: Base)

  // ---- work under the lock: it touches the disk and the call's own variables only ---------------------------------

  function FenceOf(c: Config, key: Key): Fence { Fence(c.token(key), c.claim(key)) }

  /** An older token, or another claim's equal one, is refused. */
  predicate Admits(fence: Option<Fence>, f: Fence) {
    fence.Some? ==> !(f.token < fence.value.token || (f.token == fence.value.token && f.claim != fence.value.claim))
  }

  /** Where an exception leads: to the catch block, or out of it. */
  function Throw(t: Task): Task { t.(pc := if t.caught then End else RCatch) }

  predicate Commits(d: Disk, key: Key, status: Status) { key in d.receipts ==> d.receipts[key] == status }

  predicate Writes(how: How) { how.Well? || how.ThrownAfter? }

  function Publish(d: Disk, tid: Tid, t: Task): Disk
    requires t.after.Some?
  {
    d.(head := t.after.value, past := d.past + {d.head}, moves := d.moves + [Move(t.key, tid, t.before, t.after.value)])
  }

  function Save(d: Disk, t: Task, completed: Option<Status>): Disk {
    d.(records := d.records[t.key := Record(t.before, t.after, completed)])
  }

  predicate Goes(how: How) { how.Well? || how == Archived(false) }

  /** The receipt is committed, unless the journal holds another for the key; only the first commit of a receipt adds anything. */
  function Store(d: Disk, t: Task, how: How): Disk {
    if !(Writes(how) || how.Archived?) || !Commits(d, t.key, t.status) then d
    else
      var lists := !how.Archived? && t.key !in d.receipts && t.status == Applied && t.after.Some?;
      d.(receipts := d.receipts[t.key := t.status],
         applied := if lists then d.applied + [Confirmed(t.key, t.before, t.after.value)] else d.applied)
  }

  function RunWork(c: Config, d: Disk, tid: Tid, t: Task, how: How): (Disk, Task) {
    match t.pc
    case RHead => if how.Well? then (d, t.(before := d.head, pc := RFenceRead)) else (d, t.(pc := End))
    case RFenceRead => (d, t.(pc := if how.Well? && Admits(d.fence, FenceOf(c, t.key)) then RFenceWrite else End))
    case RFenceWrite =>
      (if Writes(how) then d.(fence := Some(FenceOf(c, t.key))) else d, t.(pc := if how.Well? then RDispatch else End))
    case RDispatch =>
      if !Writes(how) || t.key in d.dispatched then (d, t.(pc := End))
      else
        (d.(dispatched := d.dispatched[t.key := tid]), if how.Well? then t.(release := false, pc := RRecord) else t.(pc := End))
    case RRecord =>
      if how.Refused? then (d, t.(pc := RCatch))
      else
        (if Writes(how) then Save(d, t, None) else d, t.(recorded := true, pc := if how.Well? then RPrepare else RCatch))
    case RPrepare =>
      if how.Fresh? && how.base !in d.used
      then (d.(used := d.used + {how.base}, made := d.made[how.base := t.key]), t.(after := Some(how.base), pc := RSaveAfter))
      else (d, Throw(t))
    case RSaveAfter => (if Writes(how) then Save(d, t, None) else d, if how.Well? then t.(pc := RLive) else Throw(t))
    case RLive =>
      (d, if how.Well? then t.(pc := RPublish) else if how.Refused? then t.(status := Failed, pc := RFinish) else Throw(t))
    case RPublish =>
      if Writes(how) && d.head == t.before && t.after.Some?
      then (Publish(d, tid, t), if how.Well? then t.(pc := RObserve) else Throw(t))
      else (d, if how.Well? || how.Refused? then t.(status := Failed, pc := RFinish) else Throw(t))
    case RObserve =>
      (d, if !how.Well? then Throw(t) else if t.after == Some(d.head) then t.(status := Applied, pc := RFinish) else t.(pc := End))
    case RFinish =>
      (if Writes(how) then Save(d, t, Some(t.status)) else d,
       if how.Well? then t.(pc := RCommit) else if how.Refused? then t.(pc := End) else Throw(t))
    case RCommit =>
      (Store(d, t, how),
       if Goes(how) then t.(release := Commits(d, t.key, t.status), pc := End) else if how.Refused? then t.(pc := End) else Throw(t))
    case RCatch =>
      (d, if how.Well? && t.recorded && d.head == t.before then t.(status := Failed, caught := true, pc := RFinish) else t.(pc := End))
    case _ => (d, t)
  }

  function Expected(r: Record): Option<Base> { if r.completed == Some(Applied) then r.after else Some(r.before) }

  predicate Settled(d: Disk, t: Task, r: Record) { r.completed.Some? && Expected(r) == Some(t.current) && t.key in d.receipts }

  predicate SameBase(a: Base, b: Base) { a == b }

  /** The applications of the session's other effects, in commit order. */
  function Onward(c: Config, applied: seq<Confirmed>, key: Key): seq<Observations.Link<Base>> {
    if |applied| == 0 then []
    else
      var last, links := applied[|applied| - 1], Onward(c, applied[..|applied| - 1], key);
      if last.key != key && c.session(last.key) == c.session(key) then links + [Observations.Link(last.before, last.after)] else links
  }

  /** Later applications explain the head that was seen: the search of `knownSuccessor`. */
  predicate KnownSuccessor(c: Config, applied: seq<Confirmed>, key: Key, r: Record, current: Base) {
    && r.completed == Some(Applied) && r.after.Some?
    && var reached := Observations.Follow(Onward(c, applied, key), r.after.value, SameBase);
       SameBase(reached, current) && reached != r.after.value
  }

  /** What a reconciliation concludes from the head it saw and the record it finds. */
  function Decide(c: Config, d: Disk, t: Task, r: Record): Task {
    if Settled(d, t, r) then t.(release := d.receipts[t.key] == r.completed.value, pc := End)
    else if KnownSuccessor(c, d.applied, t.key, r, t.current) then t.(release := true, pc := End)
    else if r.after != Some(t.current) && r.before != t.current then t.(pc := End)
    else if r.completed.Some? then
      if Expected(r) != Some(t.current) then t.(pc := End)
      else t.(before := r.before, after := r.after, status := r.completed.value, pc := QCommit)
    else
      t.(before := r.before, after := r.after, status := if r.after == Some(t.current) then Applied else NotExecuted, pc := QFinish)
  }

  function ReconcileWork(c: Config, d: Disk, t: Task, how: How): (Disk, Task) {
    match t.pc
    case QHead => (d, if how.Well? then t.(current := d.head, pc := QDecide) else t.(pc := End))
    case QDecide => (d, if how.Well? && t.key in d.records then Decide(c, d, t, d.records[t.key]) else t.(pc := End))
    case QFinish => (if Writes(how) then Save(d, t, Some(t.status)) else d, t.(pc := if how.Well? then QCommit else End))
    case QCommit => (Store(d, t, how), t.(release := Goes(how) && Commits(d, t.key, t.status), pc := End))
    case _ => (d, t)
  }

  function Work(c: Config, d: Disk, tid: Tid, t: Task, how: How): (Disk, Task) {
    if t.pc.QHead? || t.pc.QDecide? || t.pc.QFinish? || t.pc.QCommit? then ReconcileWork(c, d, t, how) else RunWork(c, d, tid, t, how)
  }

  // ---- taking, checking, handing over and dropping the locks ---------------------------------------------------------

  function Put(l: Locks, tid: Tid, seat: Seat): Locks { l.(seats := l.seats[tid := seat]) }
  function Leave(l: Locks, tid: Tid): Locks { l.(seats := l.seats - {tid}) }

  /** What the recovering call makes of the owner it read. */
  predicate MayTakeOver(c: Config, l: Locks, seat: Seat) {
    var alive, active := seat.sawOwner.inst !in l.dead, if c.readsLate then seat.owner in l.active else seat.sawActive;
    !(alive && (seat.sawOwner.inst != seat.owner.inst || active))
  }

  predicate MayRemove(c: Config, l: Locks, seat: Seat) { l.writer.Held? && (c.removesWhatItRead ==> l.writer.holder == seat.sawHolder) }

  function DropArbiterOf(l: Locks, tid: Tid, seat: Seat): Locks {
    if seat.arbiter then Put(l, tid, seat.(arbiter := false)).(arbiter := None) else l
  }

  /** A step with the locks. A working call takes its only one when its work has ended: `release` says whether it gives the lock back. */
  function Turn(c: Config, l: Locks, tid: Tid, seat: Seat, release: bool, how: How): Locks {
    match seat.stage
    case RLock =>
      if how.Well? && l.writer.Free? then Put(l, tid, seat.(stage := Making)).(writer := Held(None, tid)) else Leave(l, tid)
    case Making =>
      if how.DropArbiter? then DropArbiterOf(l, tid, seat)
      else if how.Well? then
        var owned := l.(writer := Held(Some(seat.owner), tid));
        if seat.reconcile then Put(owned, tid, seat.(stage := QReady))
        else Put(owned, tid, seat.(stage := Working)).(active := l.active + {seat.owner})
      else if seat.reconcile then Put(l, tid, seat.(stage := QDrop))
      else Leave(l, tid)
    case Working =>
      Leave(l, tid).(active := if seat.reconcile then l.active else l.active - {seat.owner},
                     writer := if release && how.Well? then Free else l.writer)
    case QExists =>
      if how.Well? then Put(l, tid, seat.(stage := if l.writer.Free? then QTake else QArbiter)) else Leave(l, tid)
    case QArbiter =>
      if how.Well? && l.arbiter.None? then Put(l, tid, seat.(stage := QRead, arbiter := true)).(arbiter := Some(tid))
      else if how.ThrownAfter? && l.arbiter.None? then Leave(l, tid).(arbiter := Some(tid))
      else Leave(l, tid)
    case QRead =>
      if how.Well? && l.writer.Held? && l.writer.owner.Some? && l.writer.owner.value.key == seat.owner.key
      then Put(l, tid, seat.(sawOwner := l.writer.owner.value, sawHolder := l.writer.holder, stage := QProbe))
      else Put(l, tid, seat.(stage := QDrop))
    case QProbe => Put(l, tid, seat.(stage := if how.Well? && MayTakeOver(c, l, seat) then QRemove else QDrop))
    case QRemove =>
      if how.Well? && MayRemove(c, l, seat) then Put(l, tid, seat.(stage := QTake)).(writer := Free)
      else Put(l, tid, seat.(stage := QDrop))
    case QTake =>
      if how.DropArbiter? then DropArbiterOf(l, tid, seat)
      else if how.Well? && l.writer.Free? then Put(l, tid, seat.(stage := Making)).(writer := Held(None, tid))
      else Put(l, tid, seat.(stage := QDrop))
    case QReady =>
      if how.DropArbiter? then DropArbiterOf(l, tid, seat)
      else if seat.arbiter then l
      else Put(l, tid, seat.(stage := Working))
    case QDrop => Leave(l, tid).(arbiter := if seat.arbiter then None else l.arbiter)
  }

  // ---- the whole system ----------------------------------------------------------------------------------------------

  predicate Overlaps(l: Locks, owner: Owner, onlyReconcile: bool) {
    exists t :: t in l.seats && l.seats[t].owner == owner && (onlyReconcile ==> l.seats[t].reconcile)
  }

  predicate Keyed(l: Locks, key: Key) { exists t :: t in l.seats && l.seats[t].owner.key == key }

  /** A live call of the other kind for the key. */
  predicate Mixed(l: Locks, key: Key, reconcile: bool) {
    exists t :: t in l.seats && l.seats[t].owner.key == key && l.seats[t].reconcile != reconcile
  }

  predicate MayStart(c: Config, l: Locks, tid: Tid, owner: Owner, reconcile: bool) {
    && tid !in l.tids && owner.inst !in l.dead && (c.apart ==> !Keyed(l, owner.key)) && (c.parted ==> !Mixed(l, owner.key, reconcile))
    && (c.oneAtATime ==> !Overlaps(l, owner, false))
    && (reconcile ==> !Overlaps(l, owner, true))
  }

  /** A call begins; `active` is looked at when it does. */
  function Start(s: Sys, tid: Tid, owner: Owner, reconcile: bool): Sys {
    var seat := Seat(owner, reconcile, if reconcile then QExists else RLock, owner in s.locks.active, false, owner, 0);
    s.(locks := Put(s.locks, tid, seat).(tids := s.locks.tids + {tid}),
       work := s.work[tid := Task(owner.key, reconcile, if reconcile then QHead else RHead, 0, None, Failed, !reconcile, false, false, 0)])
  }

  /** A process dies: its calls vanish where they are, and so does what it held in memory. */
  function Die(l: Locks, inst: Inst): Locks {
    l.(seats := map t | t in l.seats && l.seats[t].owner.inst != inst :: l.seats[t], dead := l.dead + {inst},
       active := set a | a in l.active && a.inst != inst)
  }

  /** One step; a step that is not possible leaves the system as it is. */
  function Next(c: Config, s: Sys, step: Step): Sys {
    match step
    case StartRun(tid, owner) =>
      if MayStart(c, s.locks, tid, owner, false) && owner.key !in s.disk.dispatched then Start(s, tid, owner, false) else s
    case StartReconcile(tid, owner) =>
      if MayStart(c, s.locks, tid, owner, true) then Start(s, tid, owner, true) else s
    case Go(tid, how) =>
      if tid !in s.locks.seats || tid !in s.work then s
      else
        var seat, t := s.locks.seats[tid], s.work[tid];
        if seat.stage.Working? && !t.pc.End? then
          var next := Work(c, s.disk, tid, t, how);
          s.(work := s.work[tid := next.1], disk := next.0)
        else s.(locks := Turn(c, s.locks, tid, seat, t.release, how))
    case Crash(inst) => s.(locks := Die(s.locks, inst))
    case Outside(base) =>
      if base in s.disk.used then s
      else s.(disk := s.disk.(head := base, past := s.disk.past + {s.disk.head}, used := s.disk.used + {base}))
  }

  function Init(base: Base): Sys {
    Sys(Locks(map[], {}, {}, {}, Free, None), map[], Disk(base, {}, {base}, map[], None, map[], map[], map[], [], []))
  }

  function Run(c: Config, s: Sys, steps: seq<Step>): Sys {
    if |steps| == 0 then s else Next(c, Run(c, s, steps[..|steps| - 1]), steps[|steps| - 1])
  }

  predicate Moved(moves: seq<Move>, key: Key) { exists i :: 0 <= i < |moves| && moves[i].key == key }
}
