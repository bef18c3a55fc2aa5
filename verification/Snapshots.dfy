/** The snapshot store: a cached projection is a shortcut for replaying a journal, never a second truth. */
module Snapshots {
  import opened Options
  import opened JournalTypes
  import opened Replay

  datatype Snapshot = Snapshot(sessionId: Id, revision: int, epoch: int, sequence: int, schemaVersion: string, projection: ReplayState)
  datatype Stored = Stored(body: Snapshot, digest: string)
  datatype Recovered = Recovered(projection: ReplayState, usedSnapshot: bool, replayedFrom: int)

  /** The codec in use: the schema versions it supports and the digest it computes; any will do. */
  datatype Codec = Codec(supports: string -> bool, digest: Snapshot -> string)

  function LoadOf(codec: Codec, snapshots: map<Id, Stored>, sessionId: Id): Result<Option<Stored>> {
    if sessionId !in snapshots then Ok(None)
    else
      var found := snapshots[sessionId];
      if !codec.supports(found.body.schemaVersion) then Err(SchemaMismatch)
      else if codec.digest(found.body) != found.digest then Err(DigestMismatch)
      else Ok(Some(found))
  }

  function UpTo(events: seq<Event>, k: int): seq<Event> {
    if |events| == 0 then []
    else UpTo(events[..|events| - 1], k) + if events[|events| - 1].sequence <= k then [events[|events| - 1]] else []
  }

  function After(events: seq<Event>, k: int): seq<Event> {
    if |events| == 0 then []
    else After(events[..|events| - 1], k) + if events[|events| - 1].sequence > k then [events[|events| - 1]] else []
  }

  /** Refuses a projection that is not what the journal says. */
  function VerifyOf(claimed: ReplayState, events: seq<Event>): Result<ReplayState> {
    match ReplayOf(events, None)
    case Err(code) => Err(code)
    case Ok(state) => if state != claimed then Err(InvariantViolation) else Ok(state)
  }

  function LastOf(state: ReplayState): int { if state.lastSequence.Some? then state.lastSequence.value else -1 }

  function RecoverOf(codec: Codec, snapshots: map<Id, Stored>, sessionId: Id, events: seq<Event>): Result<Recovered> {
    match LoadOf(codec, snapshots, sessionId)
    case Err(code) => Err(code)
    case Ok(loaded) =>
      match ReplayOf(events, None)
      case Err(code) => Err(code)
      case Ok(full) =>
        if loaded.None? then Ok(Recovered(full, false, 0))
        else
          var snapshot := loaded.value.body;
          if snapshot.sessionId != sessionId then Err(InvariantViolation)
          else if snapshot.sequence > LastOf(full) then Err(SequenceGap)
          else if LastOf(snapshot.projection) != snapshot.sequence then Err(SequenceGap)
          else
            match VerifyOf(snapshot.projection, UpTo(events, snapshot.sequence))
            case Err(code) => Err(code)
            case Ok(_) =>
              match ReplayOf(After(events, snapshot.sequence), Some(snapshot.projection))
              case Err(code) => Err(code)
              case Ok(merged) => Ok(Recovered(merged, true, snapshot.sequence + 1))
  }

  class SnapshotStore {
    const codec: Codec
    var snapshots: map<Id, Stored>

    /** A snapshot is filed under the session it was taken of. */
    predicate Valid()
      reads this
    {
      forall id :: id in snapshots ==> snapshots[id].body.sessionId == id
    }

    constructor (codec: Codec)
      ensures Valid() && snapshots == map[] && this.codec == codec
    {
      this.codec, snapshots := codec, map[];
    }

    method Save(input: Snapshot) returns (r: Result<Stored>)
      requires Valid()
      modifies this
      ensures Valid()
      ensures r.Ok? <==> codec.supports(input.schemaVersion) && input.projection.sessionId == input.sessionId
      ensures r.Err? ==> snapshots == old(snapshots)
      ensures r.Err? ==> r.code == if codec.supports(input.schemaVersion) then InvariantViolation else ProtocolUnsupported
      ensures r.Ok? ==> r.value.body == input && snapshots == old(snapshots)[input.sessionId := r.value]
      ensures r.Ok? ==> LoadOf(codec, snapshots, input.sessionId) == Ok(Some(r.value))
    {
      if !codec.supports(input.schemaVersion) { return Err(ProtocolUnsupported); }
      if input.projection.sessionId != input.sessionId { return Err(InvariantViolation); }
      var snapshot := Stored(input, codec.digest(input));
      snapshots := snapshots[input.sessionId := snapshot];
      return Ok(snapshot);
    }

    method Seed(snapshot: Stored)
      requires Valid()
      modifies this
      ensures Valid() && snapshots == old(snapshots)[snapshot.body.sessionId := snapshot]
    {
      snapshots := snapshots[snapshot.body.sessionId := snapshot];
    }

    method Load(sessionId: Id) returns (r: Result<Option<Stored>>)
      ensures r == LoadOf(codec, snapshots, sessionId)
      ensures r == Ok(None) <==> sessionId !in snapshots
      ensures r.Ok? && r.value.Some? <==>
        sessionId in snapshots && var found := snapshots[sessionId];
        codec.supports(found.body.schemaVersion) && codec.digest(found.body) == found.digest
      ensures r.Ok? && r.value.Some? ==> r.value.value == snapshots[sessionId]
      ensures r.Err? ==> r.code == if codec.supports(snapshots[sessionId].body.schemaVersion) then DigestMismatch else SchemaMismatch
    {
      if sessionId !in snapshots { return Ok(None); }
      var snapshot := snapshots[sessionId];
      if !codec.supports(snapshot.body.schemaVersion) { return Err(SchemaMismatch); }
      if codec.digest(snapshot.body) != snapshot.digest { return Err(DigestMismatch); }
      return Ok(Some(snapshot));
    }

    /** Recovery either refuses or gives exactly the replay of the whole journal, snapshot or not. */
    method Recover(sessionId: Id, events: seq<Event>) returns (r: Result<Recovered>)
      requires Valid()
      ensures r == RecoverOf(codec, snapshots, sessionId, events)
      ensures r.Ok? ==> ReplayOf(events, None) == Ok(r.value.projection)
    {
      hide ReplayOf, UpTo, After;
      RecoverAgrees(codec, snapshots, sessionId, events);
      var loaded := Load(sessionId);
      if loaded.Err? { return Err(loaded.code); }
      var full := ReplayEvents(events, None);
      if full.Err? { return Err(full.code); }
      if loaded.value.None? { return Ok(Recovered(full.value, false, 0)); }
      var snapshot := loaded.value.value.body;
      if snapshot.sessionId != sessionId { return Err(InvariantViolation); }
      if snapshot.sequence > LastOf(full.value) { return Err(SequenceGap); }
      if LastOf(snapshot.projection) != snapshot.sequence { return Err(SequenceGap); }
      var replayed := ReplayEvents(UpTo(events, snapshot.sequence), None);
      if replayed.Err? { return Err(replayed.code); }
      if replayed.value != snapshot.projection { return Err(InvariantViolation); }
      var merged := ReplayEvents(After(events, snapshot.sequence), Some(snapshot.projection));
      if merged.Err? { return Err(merged.code); }
      return Ok(Recovered(merged.value, true, snapshot.sequence + 1));
    }
  }

  /** The digest identifies what it was computed of. */
  ghost predicate Injective(digest: Snapshot -> string) { forall a, b :: digest(a) == digest(b) ==> a == b }

  /** Whatever happened to the stored body since, only the snapshot that was saved loads under its digest. */
  lemma LoadsWhatWasSaved(codec: Codec, snapshots: map<Id, Stored>, sessionId: Id, saved: Snapshot)
    requires Injective(codec.digest) && sessionId in snapshots && snapshots[sessionId].digest == codec.digest(saved)
    ensures LoadOf(codec, snapshots, sessionId).Ok? <==> codec.supports(saved.schemaVersion) && snapshots[sessionId].body == saved
  {
    if LoadOf(codec, snapshots, sessionId).Ok? { assert codec.digest(snapshots[sessionId].body) == codec.digest(saved); }
  }

  // ---- why the shortcut is one ------------------------------------------------------------------------------------

  function CutAt(n: nat, k: int): nat { if k < 0 then 0 else if k < n then k + 1 else n }

  lemma {:induction false} UpToCuts(events: seq<Event>, k: int)
    requires forall i :: 0 <= i < |events| ==> events[i].sequence == i
    ensures UpTo(events, k) == events[..CutAt(|events|, k)]
  {
    if |events| > 0 {
      var n := |events| - 1;
      UpToCuts(events[..n], k);
      if k < n {
        assert events[..n][..CutAt(n, k)] == events[..CutAt(n + 1, k)];
      } else {
        assert events[..n] + [events[n]] == events[..n + 1];
      }
    }
  }

  lemma LastOfSlice(events: seq<Event>, c: nat)
    requires c < |events|
    ensures events[..|events| - 1][c..] + [events[|events| - 1]] == events[c..]
  {}

  lemma {:induction false} AfterCuts(events: seq<Event>, k: int)
    requires forall i :: 0 <= i < |events| ==> events[i].sequence == i
    ensures After(events, k) == events[CutAt(|events|, k)..]
  {
    if |events| > 0 {
      var n := |events| - 1;
      AfterCuts(events[..n], k);
      if k < n { LastOfSlice(events, CutAt(n + 1, k)); }
    }
  }

  /** In a journal numbered from 0 the two filters cut it in two. */
  lemma FiltersCut(events: seq<Event>, k: int)
    requires forall i :: 0 <= i < |events| ==> events[i].sequence == i
    ensures var cut := CutAt(|events|, k); UpTo(events, k) == events[..cut] && After(events, k) == events[cut..]
  {
    UpToCuts(events, k);
    AfterCuts(events, k);
  }

  lemma Numbering(events: seq<Event>)
    requires ReplayOf(events, None).Ok?
    ensures |events| > 0 && LastOf(ReplayOf(events, None).value) == |events| - 1
    ensures forall i :: 0 <= i < |events| ==> events[i].sequence == i
  {
    FoldContiguous(events[0].sessionId, Start(events, None), events);
    hide Fold;
  }

  /** A prefix of a journal that replays, replays; and continuing from it gives the whole. */
  lemma Continues(events: seq<Event>, k: nat)
    requires ReplayOf(events, None).Ok? && k < |events|
    ensures ReplayOf(events[..k + 1], None).Ok? && LastOf(ReplayOf(events[..k + 1], None).value) == k
    ensures ReplayOf(events[k + 1..], Some(ReplayOf(events[..k + 1], None).value)) == ReplayOf(events, None)
  {
    var a := events[..k + 1];
    if ReplayOf(a, None).Err? {
      assert a[0] == events[0];
      Stuck(events[0].sessionId, Start(events, None), events, k + 1);
    } else {
      Numbering(a);
      hide ReplayOf;
      ReplayResumes(a, events[k + 1..]);
      assert a + events[k + 1..] == events;
    }
  }

  /** Exactly the snapshots that hold what the journal says at their sequence can be used. */
  predicate Usable(snapshot: Snapshot, sessionId: Id, events: seq<Event>) {
    && snapshot.sessionId == sessionId && 0 <= snapshot.sequence < |events|
    && ReplayOf(events[..snapshot.sequence + 1], None) == Ok(snapshot.projection)
  }

  lemma RecoverIff(codec: Codec, snapshots: map<Id, Stored>, sessionId: Id, events: seq<Event>)
    ensures RecoverOf(codec, snapshots, sessionId, events).Ok? <==>
      && LoadOf(codec, snapshots, sessionId).Ok? && ReplayOf(events, None).Ok?
      && (sessionId in snapshots ==> Usable(snapshots[sessionId].body, sessionId, events))
  {
    if LoadOf(codec, snapshots, sessionId).Ok? && ReplayOf(events, None).Ok? && sessionId in snapshots {
      var snapshot := snapshots[sessionId].body;
      Numbering(events);
      if snapshot.sequence < |events| {
        FiltersCut(events, snapshot.sequence);
        if snapshot.sequence >= 0 { Continues(events, snapshot.sequence); }
      }
      assert events[..0] == [];
      assert ReplayOf([], None).Err?;
    }
    hide ReplayOf, UpTo, After;
  }

  /** Whatever was saved or seeded, recovery never returns anything but the replay of the whole journal. */
  lemma RecoverAgrees(codec: Codec, snapshots: map<Id, Stored>, sessionId: Id, events: seq<Event>)
    ensures RecoverOf(codec, snapshots, sessionId, events).Ok? ==>
      ReplayOf(events, None) == Ok(RecoverOf(codec, snapshots, sessionId, events).value.projection)
  {
    RecoverIff(codec, snapshots, sessionId, events);
    if RecoverOf(codec, snapshots, sessionId, events).Ok? && sessionId in snapshots {
      var snapshot := snapshots[sessionId].body;
      Numbering(events);
      FiltersCut(events, snapshot.sequence);
      Continues(events, snapshot.sequence);
    }
    hide ReplayOf, UpTo, After;
  }

  /** A snapshot taken of any prefix of a journal that replays is used, and only what follows it is replayed. */
  lemma SavedPrefixIsUsed(codec: Codec, snapshots: map<Id, Stored>, stored: Stored, events: seq<Event>, k: nat)
    requires ReplayOf(events, None).Ok? && k < |events| && ReplayOf(events[..k + 1], None) == Ok(stored.body.projection)
    requires stored.body.sequence == k && stored.body.sessionId in snapshots && snapshots[stored.body.sessionId] == stored
    requires codec.supports(stored.body.schemaVersion) && stored.digest == codec.digest(stored.body)
    ensures RecoverOf(codec, snapshots, stored.body.sessionId, events) == Ok(Recovered(ReplayOf(events, None).value, true, k + 1))
  {
    RecoverIff(codec, snapshots, stored.body.sessionId, events);
    RecoverAgrees(codec, snapshots, stored.body.sessionId, events);
    hide ReplayOf, UpTo, After;
  }

  /** Why recovery refuses, the first reason first. */
  lemma RecoverRefusal(codec: Codec, snapshots: map<Id, Stored>, sessionId: Id, events: seq<Event>)
    ensures var r := RecoverOf(codec, snapshots, sessionId, events);
      if LoadOf(codec, snapshots, sessionId).Err? then r == Err(LoadOf(codec, snapshots, sessionId).code)
      else if ReplayOf(events, None).Err? then r == Err(ReplayOf(events, None).code)
      else if sessionId !in snapshots then r == Ok(Recovered(ReplayOf(events, None).value, false, 0))
      else
        var snapshot := snapshots[sessionId].body;
        && (snapshot.sessionId != sessionId ==> r == Err(InvariantViolation))
        && (snapshot.sessionId == sessionId && (snapshot.sequence >= |events| || LastOf(snapshot.projection) != snapshot.sequence) ==> r == Err(SequenceGap))
        && ((snapshot.sessionId == sessionId && 0 <= snapshot.sequence < |events| && LastOf(snapshot.projection) == snapshot.sequence
             && ReplayOf(events[..snapshot.sequence + 1], None) != Ok(snapshot.projection)) ==> r == Err(InvariantViolation))
  {
    if LoadOf(codec, snapshots, sessionId).Ok? && ReplayOf(events, None).Ok? && sessionId in snapshots {
      var snapshot := snapshots[sessionId].body;
      Numbering(events);
      FiltersCut(events, snapshot.sequence);
      if 0 <= snapshot.sequence < |events| { Continues(events, snapshot.sequence); }
    }
    hide ReplayOf, UpTo, After;
  }
}
