/** What the records, receipts, fence and head tell of each other, and how work under the lock keeps it. */
module WorkspaceData {
  import opened Options
  import opened Workspace

  /** HEAD never stands on a base it left, and stands on a prepared base only after a move to it; only the next move leaves it. */
  predicate BasesOk(head: Base, past: set<Base>, used: set<Base>, made: map<Base, Key>, moves: seq<Move>) {
    && head in used && head !in past && past <= used && made.Keys <= used
    && (forall i :: 0 <= i < |moves| ==> moves[i].before in past && moves[i].after in made && made[moves[i].after] == moves[i].key)
    && (forall i, j :: 0 <= i < j < |moves| ==> moves[i].before != moves[j].before)
    && (forall i, j :: 0 <= i < |moves| && 0 <= j < |moves| && moves[i].after == moves[j].before ==> j == i + 1)
    && (forall i :: 0 <= i < |moves| ==> moves[i].after in past || (moves[i].after == head && i == |moves| - 1))
    && (head in made ==> |moves| > 0 && moves[|moves| - 1].after == head)
  }

  /** The key's effect is the last that moved HEAD. */
  predicate Latest(moves: seq<Move>, key: Key) { |moves| > 0 && moves[|moves| - 1].key == key }

  /** Each key moves HEAD at most once, by the very call whose dispatch the journal committed. */
  predicate MovesOk(moves: seq<Move>, dispatched: map<Key, Tid>) {
    && (forall i :: 0 <= i < |moves| ==> moves[i].key in dispatched && dispatched[moves[i].key] == moves[i].tid)
    && (forall i, j :: 0 <= i < j < |moves| ==> moves[i].key != moves[j].key)
  }

  /** A record belongs to a dispatched key, tells its move truly, and is completed as `applied` exactly when the move was made. */
  predicate RecordsOk(records: map<Key, Record>, dispatched: map<Key, Tid>, made: map<Base, Key>, moves: seq<Move>) {
    && (forall k :: k in records ==> k in dispatched && (records[k].after.Some? ==> records[k].after.value in made && made[records[k].after.value] == k))
    && (forall i :: 0 <= i < |moves| ==> moves[i].key in records && Tells(records[moves[i].key], moves[i]))
    && (forall k :: k in records && records[k].completed.Some? ==> (records[k].completed == Some(Applied) <==> Moved(moves, k)))
  }

  predicate Tells(r: Record, m: Move) { r.before == m.before && r.after == Some(m.after) }

  predicate ReceiptsOk(receipts: map<Key, Status>, records: map<Key, Record>, moves: seq<Move>) {
    forall k :: k in receipts ==> k in records && records[k].completed.Some? && (receipts[k] == Applied <==> Moved(moves, k))
  }

  /** The applied receipts tell their moves truly, and were committed in the order of the moves. */
  predicate AppliedOk(applied: seq<Confirmed>, receipts: map<Key, Status>, moves: seq<Move>) {
    && (forall i :: 0 <= i < |applied| ==> applied[i].key in receipts && Moved(moves, applied[i].key))
    && (forall i, p :: 0 <= i < |applied| && 0 <= p < |moves| && moves[p].key == applied[i].key ==>
          applied[i].before == moves[p].before && applied[i].after == moves[p].after)
    && (forall i, j, p, q ::
          (0 <= i < j < |applied| && 0 <= p < |moves| && 0 <= q < |moves|
           && moves[p].key == applied[i].key && moves[q].key == applied[j].key) ==> p < q)
  }

  /** `k` may write after the fence holder: a higher token, or the same token of the same claim. */
  predicate Reaches(f: Fence, g: Fence) { f.token < g.token || f == g }

  predicate FenceOk(c: Config, fence: Option<Fence>, moves: seq<Move>) {
    && (fence.None? ==> |moves| == 0)
    && (forall i :: 0 <= i < |moves| && fence.Some? ==> Reaches(FenceOf(c, moves[i].key), fence.value))
    && (forall i, j :: 0 <= i < j < |moves| ==> Reaches(FenceOf(c, moves[i].key), FenceOf(c, moves[j].key)))
  }

  predicate DiskOk(c: Config, d: Disk) {
    && BasesOk(d.head, d.past, d.used, d.made, d.moves) && MovesOk(d.moves, d.dispatched)
    && RecordsOk(d.records, d.dispatched, d.made, d.moves) && ReceiptsOk(d.receipts, d.records, d.moves) && FenceOk(c, d.fence, d.moves)
    && AppliedOk(d.applied, d.receipts, d.moves)
  }

  // ---- what a working call knows ---------------------------------------------------------------------------------

  /** A call that has dispatched and not published: nobody has moved, recorded or reported its key. */
  predicate Unpublished(dispatched: map<Key, Tid>, moves: seq<Move>, receipts: map<Key, Status>, tid: Tid, key: Key) {
    key in dispatched && dispatched[key] == tid && !Moved(moves, key) && key !in receipts
  }

  /** A prepared base HEAD has not stood on. */
  predicate Prepared(head: Base, past: set<Base>, made: map<Base, Key>, key: Key, after: Option<Base>) {
    after.Some? && after.value in made && made[after.value] == key && after.value !in past && after.value != head
  }

  /** Whatever this call's key moved is what its own record variable says. */
  predicate Truthful(dispatched: map<Key, Tid>, made: map<Base, Key>, moves: seq<Move>, tid: Tid, key: Key, before: Base, after: Option<Base>) {
    && key in dispatched && dispatched[key] == tid
    && (after.Some? ==> after.value in made && made[after.value] == key)
    && (forall i :: 0 <= i < |moves| && moves[i].key == key ==> moves[i].before == before && after == Some(moves[i].after))
  }

  /** The head a reconciliation saw: left by no move, and if prepared, reached by one. */
  predicate Seen(made: map<Base, Key>, moves: seq<Move>, current: Base) {
    && (forall i :: 0 <= i < |moves| ==> moves[i].before != current)
    && (current in made ==> |moves| > 0 && moves[|moves| - 1].after == current)
  }

  predicate NotMine(dispatched: map<Key, Tid>, tid: Tid, key: Key) { key in dispatched ==> dispatched[key] != tid }

  /** A run that has not dispatched: it knows nothing but its key. */
  predicate Opening(dispatched: map<Key, Tid>, tid: Tid, t: Task) {
    t.after.None? && !t.recorded && !t.reconciles && NotMine(dispatched, tid, t.key)
  }

  /**
   * When a call may give the lock back: a reconciliation once the receipt is stored or a successor explains an applied
   * record; a run once its receipt is stored, unless it left no record of a dispatch of its own.
   */
  predicate LetGo(dispatched: map<Key, Tid>, records: map<Key, Record>, receipts: map<Key, Status>, tid: Tid, t: Task) {
    t.release ==>
      || t.key in receipts
      || (if t.reconciles then t.key in records && records[t.key].completed == Some(Applied)
          else NotMine(dispatched, tid, t.key) || t.key !in records)
  }

  /** The status tells whether the key moved HEAD, and if it did nobody has since. */
  predicate Judged(moves: seq<Move>, key: Key, status: Status) {
    (status == Applied <==> Moved(moves, key)) && (status == Applied ==> Latest(moves, key))
  }

  predicate RecordIs(records: map<Key, Record>, key: Key, before: Base, after: Option<Base>) {
    key in records && records[key] == Record(before, after, None)
  }

  /** Between dispatch and publication. */
  predicate Underway(c: Config, d: Disk, tid: Tid, t: Task) {
    && !t.release && !t.reconciles
    && Unpublished(d.dispatched, d.moves, d.receipts, tid, t.key) && d.fence == Some(FenceOf(c, t.key))
    && match t.pc
       case RRecord => t.after.None? && !t.recorded && t.key !in d.records
       case RPrepare => t.recorded && t.after.None? && RecordIs(d.records, t.key, t.before, None)
       case RSaveAfter => t.recorded && Prepared(d.head, d.past, d.made, t.key, t.after) && RecordIs(d.records, t.key, t.before, None)
       case _ => t.recorded && Prepared(d.head, d.past, d.made, t.key, t.after) && RecordIs(d.records, t.key, t.before, t.after)
  }

  /** From publication, or a failure, to the receipt. */
  predicate Concluding(d: Disk, tid: Tid, t: Task) {
    && !t.release && !t.reconciles
    && t.recorded && Truthful(d.dispatched, d.made, d.moves, tid, t.key, t.before, t.after)
    && match t.pc
       case RObserve => Latest(d.moves, t.key)
       case RFinish => Judged(d.moves, t.key, t.status)
       case _ => t.key in d.records && d.records[t.key].completed.Some? && Judged(d.moves, t.key, t.status)
  }

  predicate TaskOk(c: Config, d: Disk, tid: Tid, t: Task) {
    match t.pc
    case RHead => Opening(d.dispatched, tid, t)
    case RFenceRead => Opening(d.dispatched, tid, t)
    case RFenceWrite => Opening(d.dispatched, tid, t) && Admits(d.fence, FenceOf(c, t.key))
    case RDispatch => Opening(d.dispatched, tid, t) && d.fence == Some(FenceOf(c, t.key))
    case RRecord => Underway(c, d, tid, t)
    case RPrepare => Underway(c, d, tid, t)
    case RSaveAfter => Underway(c, d, tid, t)
    case RLive => Underway(c, d, tid, t)
    case RPublish => Underway(c, d, tid, t)
    case RObserve => Concluding(d, tid, t)
    case RFinish => Concluding(d, tid, t)
    case RCommit => Concluding(d, tid, t)
    case RCatch =>
      !t.release && !t.reconciles && (t.recorded ==> Truthful(d.dispatched, d.made, d.moves, tid, t.key, t.before, t.after))
    case QHead => !t.release && t.reconciles
    case QDecide => !t.release && t.reconciles && Seen(d.made, d.moves, t.current)
    case QFinish =>
      !t.release && t.reconciles && RecordIs(d.records, t.key, t.before, t.after) && Judged(d.moves, t.key, t.status)
    case QCommit =>
      !t.release && t.reconciles && t.key in d.records && d.records[t.key] == Record(t.before, t.after, Some(t.status))
      && Judged(d.moves, t.key, t.status)
    case End => LetGo(d.dispatched, d.records, d.receipts, tid, t)
  }

  predicate Kept(c: Config, tid: Tid, next: (Disk, Task)) { DiskOk(c, next.0) && TaskOk(c, next.0, tid, next.1) }

  // ---- work keeps it ---------------------------------------------------------------------------------------------

  lemma FenceKeeps(c: Config, d: Disk, tid: Tid, t: Task, how: How)
    requires (t.pc.RHead? || t.pc.RFenceRead? || t.pc.RFenceWrite?) && DiskOk(c, d) && TaskOk(c, d, tid, t)
    ensures Kept(c, tid, Work(c, d, tid, t, how))
  {
    hide MovesOk, RecordsOk, ReceiptsOk, BasesOk, FenceOk, FenceOf, Admits;
    FenceRaised(c, d, t.key);
  }

  /** An admitted token may replace the fence: every move so far reaches it. */
  lemma FenceRaised(c: Config, d: Disk, key: Key)
    requires FenceOk(c, d.fence, d.moves)
    ensures Admits(d.fence, FenceOf(c, key)) ==> FenceOk(c, Some(FenceOf(c, key)), d.moves)
  {}

  /** A key that was never dispatched was never moved, recorded or reported. */
  lemma Undispatched(d: Disk, tid: Tid, key: Key)
    requires MovesOk(d.moves, d.dispatched) && RecordsOk(d.records, d.dispatched, d.made, d.moves) && ReceiptsOk(d.receipts, d.records, d.moves)
    requires key !in d.dispatched
    ensures var now := d.dispatched[key := tid];
      && MovesOk(d.moves, now) && RecordsOk(d.records, now, d.made, d.moves)
      && Unpublished(now, d.moves, d.receipts, tid, key) && key !in d.records
  {}

  lemma DispatchKeeps(c: Config, d: Disk, tid: Tid, t: Task, how: How)
    requires t.pc.RDispatch? && DiskOk(c, d) && TaskOk(c, d, tid, t)
    ensures Kept(c, tid, Work(c, d, tid, t, how))
  {
    hide BasesOk, RecordsOk, ReceiptsOk, FenceOk, MovesOk, Moved, Truthful, Unpublished, Prepared;
    if t.key !in d.dispatched { Undispatched(d, tid, t.key); }
  }

  /** An uncompleted record may be written while the key is unpublished. */
  lemma OpenRecord(d: Disk, tid: Tid, key: Key, r: Record)
    requires RecordsOk(d.records, d.dispatched, d.made, d.moves) && ReceiptsOk(d.receipts, d.records, d.moves)
    requires Unpublished(d.dispatched, d.moves, d.receipts, tid, key) && r.completed.None?
    requires r.after.Some? ==> Prepared(d.head, d.past, d.made, key, r.after)
    ensures RecordsOk(d.records[key := r], d.dispatched, d.made, d.moves) && ReceiptsOk(d.receipts, d.records[key := r], d.moves)
  {
    assert forall i :: 0 <= i < |d.moves| ==> d.moves[i].key != key;
    hide Moved;
  }

  lemma RecordKeeps(c: Config, d: Disk, tid: Tid, t: Task, how: How)
    requires t.pc.RRecord? && DiskOk(c, d) && TaskOk(c, d, tid, t)
    ensures Kept(c, tid, Work(c, d, tid, t, how))
  {
    hide BasesOk, RecordsOk, ReceiptsOk, FenceOk, MovesOk, Moved, Truthful, Unpublished, Prepared;
    OpenRecord(d, tid, t.key, Record(t.before, t.after, None));
    UnpublishedTruth(d, tid, t);
  }

  /** A fresh base is prepared for one key and stands nowhere yet. */
  lemma FreshBase(d: Disk, base: Base, key: Key)
    requires BasesOk(d.head, d.past, d.used, d.made, d.moves) && RecordsOk(d.records, d.dispatched, d.made, d.moves) && base !in d.used
    ensures BasesOk(d.head, d.past, d.used + {base}, d.made[base := key], d.moves)
    ensures RecordsOk(d.records, d.dispatched, d.made[base := key], d.moves)
    ensures Prepared(d.head, d.past, d.made[base := key], key, Some(base))
  {
    hide Moved;
  }

  lemma PrepareKeeps(c: Config, d: Disk, tid: Tid, t: Task, how: How)
    requires t.pc.RPrepare? && DiskOk(c, d) && TaskOk(c, d, tid, t)
    ensures Kept(c, tid, Work(c, d, tid, t, how))
  {
    hide BasesOk, RecordsOk, ReceiptsOk, FenceOk, MovesOk, Moved, Truthful, Unpublished, Prepared;
    if how.Fresh? && how.base !in d.used { FreshBase(d, how.base, t.key); } else { UnpublishedTruth(d, tid, t); }
  }

  /** Writing the prepared base down, and checking the lease once more. */
  lemma SaveAfterStep(c: Config, d: Disk, tid: Tid, t: Task, how: How)
    requires t.pc.RSaveAfter? || t.pc.RLive?
    ensures var w := Work(c, d, tid, t, how);
      || (w.1 == Throw(t) && (w.0 == d || w.0 == Save(d, t, None)))
      || (w.1 == t.(pc := RLive) && w.0 == Save(d, t, None))
      || (t.pc.RLive? && w.0 == d && (w.1 == t.(pc := RPublish) || w.1 == t.(status := Failed, pc := RFinish)))
  {
    hide Throw, Save;
  }

  lemma SaveAfterKeeps(c: Config, d: Disk, tid: Tid, t: Task, how: How)
    requires (t.pc.RSaveAfter? || t.pc.RLive?) && DiskOk(c, d) && TaskOk(c, d, tid, t)
    ensures Kept(c, tid, Work(c, d, tid, t, how))
  {
    hide BasesOk, RecordsOk, ReceiptsOk, FenceOk, MovesOk, Moved, Truthful, Unpublished, Prepared, Work;
    SaveAfterStep(c, d, tid, t, how);
    OpenRecord(d, tid, t.key, Record(t.before, t.after, None));
    UnpublishedTruth(d, tid, t);
    NotMovedYet(d, tid, t.key);
  }

  lemma NotMovedYet(d: Disk, tid: Tid, key: Key)
    requires Unpublished(d.dispatched, d.moves, d.receipts, tid, key)
    ensures !Moved(d.moves, key) && key in d.dispatched && d.dispatched[key] == tid
  {}

  lemma MovedMore(moves: seq<Move>, m: Move, key: Key)
    ensures Moved(moves + [m], key) <==> Moved(moves, key) || key == m.key
  {
    if Moved(moves, key) {
      var i :| 0 <= i < |moves| && moves[i].key == key;
      assert (moves + [m])[i].key == key;
    }
    assert (moves + [m])[|moves|] == m;
  }

  lemma PublishBases(d: Disk, tid: Tid, t: Task)
    requires BasesOk(d.head, d.past, d.used, d.made, d.moves) && Prepared(d.head, d.past, d.made, t.key, t.after) && d.head == t.before
    ensures var e := Publish(d, tid, t); BasesOk(e.head, e.past, e.used, e.made, e.moves)
  {
    var e := Publish(d, tid, t);
    assert e.moves[|d.moves|].after == e.head;
  }

  lemma PublishRecords(d: Disk, tid: Tid, t: Task)
    requires RecordsOk(d.records, d.dispatched, d.made, d.moves) && ReceiptsOk(d.receipts, d.records, d.moves)
    requires Unpublished(d.dispatched, d.moves, d.receipts, tid, t.key) && t.after.Some? && t.key in d.records && d.records[t.key] == Record(t.before, t.after, None)
    ensures RecordsOk(d.records, d.dispatched, d.made, Publish(d, tid, t).moves)
    ensures ReceiptsOk(d.receipts, d.records, Publish(d, tid, t).moves)
  {
    var m := Move(t.key, tid, t.before, t.after.value);
    forall k ensures Moved(d.moves + [m], k) <==> Moved(d.moves, k) || k == t.key { MovedMore(d.moves, m, k); }
    hide Moved;
  }

  lemma PublishApplied(d: Disk, tid: Tid, t: Task)
    requires AppliedOk(d.applied, d.receipts, d.moves) && Unpublished(d.dispatched, d.moves, d.receipts, tid, t.key) && t.after.Some?
    ensures AppliedOk(d.applied, d.receipts, Publish(d, tid, t).moves)
  {
    var m := Move(t.key, tid, t.before, t.after.value);
    forall i | 0 <= i < |d.applied| ensures Moved(d.moves + [m], d.applied[i].key) { MovedMore(d.moves, m, d.applied[i].key); }
    hide Moved;
  }

  lemma PublishRanks(c: Config, d: Disk, tid: Tid, t: Task)
    requires FenceOk(c, d.fence, d.moves) && d.fence == Some(FenceOf(c, t.key)) && t.after.Some?
    ensures FenceOk(c, d.fence, Publish(d, tid, t).moves)
  {}

  lemma PublishMoves(d: Disk, tid: Tid, t: Task)
    requires MovesOk(d.moves, d.dispatched) && Unpublished(d.dispatched, d.moves, d.receipts, tid, t.key) && t.after.Some?
    ensures MovesOk(Publish(d, tid, t).moves, d.dispatched)
  {}

  lemma PublishedTruth(d: Disk, tid: Tid, t: Task)
    requires Unpublished(d.dispatched, d.moves, d.receipts, tid, t.key) && Prepared(d.head, d.past, d.made, t.key, t.after)
    ensures Truthful(d.dispatched, d.made, Publish(d, tid, t).moves, tid, t.key, t.before, t.after) && Latest(Publish(d, tid, t).moves, t.key)
  {
    var e := Publish(d, tid, t);
    assert e.moves[|d.moves|].key == t.key;
    assert forall i :: 0 <= i < |d.moves| ==> d.moves[i].key != t.key;
  }

  lemma UnpublishedTruth(d: Disk, tid: Tid, t: Task)
    requires Unpublished(d.dispatched, d.moves, d.receipts, tid, t.key) && (t.after.Some? ==> Prepared(d.head, d.past, d.made, t.key, t.after))
    ensures Truthful(d.dispatched, d.made, d.moves, tid, t.key, t.before, t.after)
  {
    assert forall i :: 0 <= i < |d.moves| ==> d.moves[i].key != t.key;
  }

  /** The publishing step alone: HEAD moves and the call goes on, or it does not and the call fails. */
  lemma PublishStep(c: Config, d: Disk, tid: Tid, t: Task, how: How)
    requires t.pc.RPublish? && t.after.Some?
    ensures var w := Work(c, d, tid, t, how);
      if Writes(how) && d.head == t.before then w.0 == Publish(d, tid, t) && (w.1 == t.(pc := RObserve) || w.1 == Throw(t))
      else w.0 == d && (w.1 == t.(status := Failed, pc := RFinish) || w.1 == Throw(t))
  {
    hide Publish, Throw;
  }

  lemma PublishKeeps(c: Config, d: Disk, tid: Tid, t: Task, how: How)
    requires t.pc.RPublish? && DiskOk(c, d) && TaskOk(c, d, tid, t)
    ensures Kept(c, tid, Work(c, d, tid, t, how))
  {
    hide BasesOk, RecordsOk, ReceiptsOk, FenceOk, MovesOk, Moved, Truthful, Unpublished, Prepared, Publish, Work;
    AfterIs(d, t);
    PublishStep(c, d, tid, t, how);
    if Writes(how) && d.head == t.before {
      PublishBases(d, tid, t);
      PublishRecords(d, tid, t);
      PublishRanks(c, d, tid, t);
      PublishMoves(d, tid, t);
      PublishApplied(d, tid, t);
      PublishedTruth(d, tid, t);
      PublishFrame(d, tid, t);
    } else {
      UnpublishedTruth(d, tid, t);
      NotMovedYet(d, tid, t.key);
    }
  }

  lemma AfterIs(d: Disk, t: Task)
    requires Prepared(d.head, d.past, d.made, t.key, t.after)
    ensures t.after.Some?
  {}

  lemma PublishFrame(d: Disk, tid: Tid, t: Task)
    requires t.after.Some?
    ensures var e := Publish(d, tid, t);
      e.used == d.used && e.made == d.made && e.fence == d.fence && e.dispatched == d.dispatched && e.records == d.records && e.receipts == d.receipts
      && e.applied == d.applied
  {}

  lemma LatestMoved(moves: seq<Move>, key: Key)
    requires Latest(moves, key)
    ensures Moved(moves, key)
  {}

  lemma ObserveKeeps(c: Config, d: Disk, tid: Tid, t: Task, how: How)
    requires t.pc.RObserve? && DiskOk(c, d) && TaskOk(c, d, tid, t)
    ensures Kept(c, tid, Work(c, d, tid, t, how))
  {
    hide BasesOk, RecordsOk, ReceiptsOk, FenceOk, MovesOk, AppliedOk, Truthful, Moved, Latest;
    LatestMoved(d.moves, t.key);
  }

  lemma SaveRecords(d: Disk, tid: Tid, t: Task)
    requires RecordsOk(d.records, d.dispatched, d.made, d.moves) && ReceiptsOk(d.receipts, d.records, d.moves) && Truthful(d.dispatched, d.made, d.moves, tid, t.key, t.before, t.after)
    requires t.status == Applied <==> Moved(d.moves, t.key)
    ensures RecordsOk(Save(d, t, Some(t.status)).records, d.dispatched, d.made, d.moves)
    ensures ReceiptsOk(d.receipts, Save(d, t, Some(t.status)).records, d.moves)
  {
    hide Moved;
  }

  lemma FinishKeeps(c: Config, d: Disk, tid: Tid, t: Task, how: How)
    requires t.pc.RFinish? && DiskOk(c, d) && TaskOk(c, d, tid, t)
    ensures Kept(c, tid, Work(c, d, tid, t, how))
  {
    hide BasesOk, RecordsOk, ReceiptsOk, FenceOk, MovesOk, Moved, Truthful, Unpublished, Prepared, Save;
    SaveRecords(d, tid, t);
    SaveFrame(d, t);
  }

  lemma SaveFrame(d: Disk, t: Task)
    ensures var e := Save(d, t, Some(t.status));
      && e == d.(records := e.records) && t.key in e.records && e.records[t.key] == Record(t.before, t.after, Some(t.status))
  {}

  /** The receipt of the latest move, or of no move, goes last. */
  lemma StoreKeeps(d: Disk, t: Task, how: How)
    requires ReceiptsOk(d.receipts, d.records, d.moves) && AppliedOk(d.applied, d.receipts, d.moves)
    requires t.key in d.records && d.records[t.key].completed.Some? && Judged(d.moves, t.key, t.status)
    requires forall i :: 0 <= i < |d.moves| && d.moves[i].key == t.key ==> d.moves[i].before == t.before && t.after == Some(d.moves[i].after)
    requires forall i, j :: 0 <= i < j < |d.moves| ==> d.moves[i].key != d.moves[j].key
    ensures var e := Store(d, t, how);
      && e == d.(receipts := e.receipts, applied := e.applied)
      && ReceiptsOk(e.receipts, d.records, d.moves) && AppliedOk(e.applied, e.receipts, d.moves)
      && (Goes(how) && Commits(d, t.key, t.status) ==> t.key in e.receipts)
  {
    hide Moved;
    if t.status == Applied { assert Latest(d.moves, t.key) && Moved(d.moves, t.key); }
  }

  lemma TruthOf(d: Disk, tid: Tid, t: Task)
    requires Truthful(d.dispatched, d.made, d.moves, tid, t.key, t.before, t.after) && MovesOk(d.moves, d.dispatched)
    ensures forall i :: 0 <= i < |d.moves| && d.moves[i].key == t.key ==> d.moves[i].before == t.before && t.after == Some(d.moves[i].after)
    ensures forall i, j :: 0 <= i < j < |d.moves| ==> d.moves[i].key != d.moves[j].key
  {}

  /** The committing step alone: the receipt is stored or nothing is. */
  lemma CommitStep(c: Config, d: Disk, tid: Tid, t: Task, how: How)
    requires t.pc.RCommit?
    ensures var w := Work(c, d, tid, t, how);
      && w.0 == Store(d, t, how) && (w.1 == Throw(t) || w.1.pc.End?)
      && (w.1.release && !t.release ==> Goes(how) && Commits(d, t.key, t.status)) && w.1.key == t.key && w.1.reconciles == t.reconciles
  {
    hide Store;
  }

  lemma CommitKeeps(c: Config, d: Disk, tid: Tid, t: Task, how: How)
    requires t.pc.RCommit? && DiskOk(c, d) && TaskOk(c, d, tid, t)
    ensures Kept(c, tid, Work(c, d, tid, t, how))
  {
    hide BasesOk, RecordsOk, ReceiptsOk, FenceOk, MovesOk, Moved, Truthful, Unpublished, Prepared, Work, AppliedOk, Store, Commits, Judged;
    TruthOf(d, tid, t);
    StoreKeeps(d, t, how);
    CommitStep(c, d, tid, t, how);
  }

  /** HEAD still on the base the call started from: its key has not moved. */
  lemma NotMoved(d: Disk, tid: Tid, t: Task)
    requires BasesOk(d.head, d.past, d.used, d.made, d.moves) && Truthful(d.dispatched, d.made, d.moves, tid, t.key, t.before, t.after) && d.head == t.before
    ensures !Moved(d.moves, t.key)
  {}

  lemma CatchKeeps(c: Config, d: Disk, tid: Tid, t: Task, how: How)
    requires t.pc.RCatch? && DiskOk(c, d) && TaskOk(c, d, tid, t)
    ensures Kept(c, tid, Work(c, d, tid, t, how))
  {
    hide BasesOk, RecordsOk, ReceiptsOk, FenceOk, MovesOk, AppliedOk, Truthful, Moved, Latest;
    if t.recorded && d.head == t.before { NotMoved(d, tid, t); }
  }

  /** The record and the head a reconciliation saw decide whether the key moved. */
  lemma DecideRight(c: Config, d: Disk, t: Task)
    requires BasesOk(d.head, d.past, d.used, d.made, d.moves) && RecordsOk(d.records, d.dispatched, d.made, d.moves)
    requires Seen(d.made, d.moves, t.current) && t.key in d.records
    ensures d.records[t.key].after == Some(t.current) ==> Moved(d.moves, t.key) && Latest(d.moves, t.key)
    ensures d.records[t.key].before == t.current ==> !Moved(d.moves, t.key)
  {
    var r := d.records[t.key];
    if r.after == Some(t.current) { assert d.made[t.current] == d.moves[|d.moves| - 1].key; }
    forall i | 0 <= i < |d.moves| && d.moves[i].key == t.key ensures r.before == d.moves[i].before { assert Tells(r, d.moves[i]); }
  }

  lemma SeesHead(c: Config, d: Disk, tid: Tid, t: Task, how: How)
    requires t.pc.QHead? && DiskOk(c, d) && TaskOk(c, d, tid, t)
    ensures Kept(c, tid, Work(c, d, tid, t, how))
  {
    hide RecordsOk, ReceiptsOk, FenceOk, MovesOk, AppliedOk;
  }

  lemma CompletedRight(d: Disk, key: Key)
    requires RecordsOk(d.records, d.dispatched, d.made, d.moves) && key in d.records && d.records[key].completed.Some?
    ensures d.records[key].completed == Some(Applied) <==> Moved(d.moves, key)
  {
    hide Moved;
  }

  lemma DecidedOk(c: Config, d: Disk, tid: Tid, t: Task)
    requires BasesOk(d.head, d.past, d.used, d.made, d.moves) && RecordsOk(d.records, d.dispatched, d.made, d.moves)
    requires t.pc.QDecide? && !t.release && t.reconciles && Seen(d.made, d.moves, t.current) && t.key in d.records
    ensures TaskOk(c, d, tid, Decide(c, d, t, d.records[t.key]))
  {
    hide RecordsOk, BasesOk, Moved, Latest, Seen, Underway, Concluding, Onward;
    DecideRight(c, d, t);
    if d.records[t.key].completed.Some? { CompletedRight(d, t.key); }
  }

  lemma DecideKeeps(c: Config, d: Disk, tid: Tid, t: Task, how: How)
    requires t.pc.QDecide? && DiskOk(c, d) && TaskOk(c, d, tid, t)
    ensures Kept(c, tid, Work(c, d, tid, t, how))
  {
    hide RecordsOk, BasesOk, ReceiptsOk, FenceOk, MovesOk, AppliedOk, Moved, Seen, Decide;
    if t.key in d.records { DecidedOk(c, d, tid, t); }
  }

  lemma ReconcileRecords(d: Disk, t: Task)
    requires RecordsOk(d.records, d.dispatched, d.made, d.moves) && ReceiptsOk(d.receipts, d.records, d.moves)
    requires t.key in d.records && d.records[t.key] == Record(t.before, t.after, None) && (t.status == Applied <==> Moved(d.moves, t.key))
    ensures RecordsOk(Save(d, t, Some(t.status)).records, d.dispatched, d.made, d.moves)
    ensures ReceiptsOk(d.receipts, Save(d, t, Some(t.status)).records, d.moves)
  {
    hide Moved;
  }

  lemma SaveKeeps(c: Config, d: Disk, tid: Tid, t: Task, how: How)
    requires t.pc.QFinish? && DiskOk(c, d) && TaskOk(c, d, tid, t)
    ensures Kept(c, tid, Work(c, d, tid, t, how))
  {
    hide BasesOk, RecordsOk, ReceiptsOk, FenceOk, MovesOk, Moved, Truthful, Unpublished, Prepared, Save;
    ReconcileRecords(d, t);
    SaveFrame(d, t);
  }

  lemma RecordTruth(d: Disk, t: Task)
    requires RecordsOk(d.records, d.dispatched, d.made, d.moves) && MovesOk(d.moves, d.dispatched)
    requires t.key in d.records && d.records[t.key] == Record(t.before, t.after, Some(t.status))
    ensures forall i :: 0 <= i < |d.moves| && d.moves[i].key == t.key ==> d.moves[i].before == t.before && t.after == Some(d.moves[i].after)
    ensures forall i, j :: 0 <= i < j < |d.moves| ==> d.moves[i].key != d.moves[j].key
  {
    forall i | 0 <= i < |d.moves| && d.moves[i].key == t.key ensures d.moves[i].before == t.before && t.after == Some(d.moves[i].after) {
      assert Tells(d.records[t.key], d.moves[i]);
    }
  }

  lemma SettleKeeps(c: Config, d: Disk, tid: Tid, t: Task, how: How)
    requires t.pc.QCommit? && DiskOk(c, d) && TaskOk(c, d, tid, t)
    ensures Kept(c, tid, Work(c, d, tid, t, how))
  {
    hide BasesOk, RecordsOk, ReceiptsOk, FenceOk, MovesOk, Moved, AppliedOk, Store, Commits, Judged;
    RecordTruth(d, t);
    StoreKeeps(d, t, how);
  }

  /** A move from outside the protocol to a base nobody has used. */
  lemma OutsideKeeps(c: Config, d: Disk, base: Base)
    requires base !in d.used && DiskOk(c, d)
    ensures DiskOk(c, d.(head := base, past := d.past + {d.head}, used := d.used + {base}))
  {
    hide FenceOk, MovesOk, RecordsOk, ReceiptsOk;
  }

  lemma OutsideKeepsTask(c: Config, d: Disk, base: Base, tid: Tid, t: Task)
    requires base !in d.used && d.made.Keys <= d.used && TaskOk(c, d, tid, t)
    ensures TaskOk(c, d.(head := base, past := d.past + {d.head}, used := d.used + {base}), tid, t)
  {}
}
