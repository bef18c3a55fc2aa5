/** What a receipt says of a prompt, and what an undisturbed execution leaves in the session file and in memory. */
module PiAnswers {
  import opened Options
  import opened PiBinding

  predicate Prompted(prompts: seq<Prompt>, f: Effect) { exists i :: 0 <= i < |prompts| && prompts[i].effect == f }

  /** A receipt that was there at first, or of a prompted effect, or one of `modest`. */
  predicate Justified(first: seq<Entry>, prompts: seq<Prompt>, modest: set<Status>, e: Entry) {
    e.kind == ReceiptEntry ==>
      e in first || (e.effect.Some? && e.receipt.Some? && (Prompted(prompts, e.effect.value) || e.receipt.value.status in modest))
  }

  /** Receipts of unprompted effects: in the file `not-executed`, in memory perhaps `unknown`. */
  predicate AllJustified(first: seq<Entry>, s: Sys) {
    && (forall i :: 0 <= i < |s.host.log| ==> Justified(first, s.prompts, {NotExecuted}, s.host.log[i]))
    && (forall b :: b in s.bindings ==> Remembers(first, s.prompts, s.bindings[b].memory))
    && (forall b :: b in s.bindings && s.bindings[b].active.Some? && s.bindings[b].active.value.started ==>
          Prompted(s.prompts, s.bindings[b].active.value.effect))
  }

  predicate Remembers(first: seq<Entry>, prompts: seq<Prompt>, m: Memory) {
    forall id :: id in m.effects ==> Justified(first, prompts, {NotExecuted, Unknown}, m.effects[id])
  }

  lemma JustifiedMore(first: seq<Entry>, prompts: seq<Prompt>, p: Prompt, modest: set<Status>, e: Entry)
    requires Justified(first, prompts, modest, e)
    ensures Justified(first, prompts + [p], modest, e)
  {
    if e.kind == ReceiptEntry && e !in first && Prompted(prompts, e.effect.value) { PromptedMore(prompts, p, e.effect.value); }
  }

  lemma PromptedMore(prompts: seq<Prompt>, p: Prompt, f: Effect)
    requires Prompted(prompts, f)
    ensures Prompted(prompts + [p], f)
  {
    var i :| 0 <= i < |prompts| && prompts[i].effect == f;
    assert (prompts + [p])[i].effect == f;
  }

  /** One prompt more takes nothing back. */
  lemma MorePrompts(first: seq<Entry>, s: Sys, p: Prompt)
    requires AllJustified(first, s)
    ensures AllJustified(first, s.(prompts := s.prompts + [p]))
  {
    forall i | 0 <= i < |s.host.log| ensures Justified(first, s.prompts + [p], {NotExecuted}, s.host.log[i]) {
      JustifiedMore(first, s.prompts, p, {NotExecuted}, s.host.log[i]);
    }
    forall b | b in s.bindings ensures Remembers(first, s.prompts + [p], s.bindings[b].memory) {
      var m := s.bindings[b].memory;
      assert Remembers(first, s.prompts, m);
      forall id | id in m.effects ensures Justified(first, s.prompts + [p], {NotExecuted, Unknown}, m.effects[id]) {
        JustifiedMore(first, s.prompts, p, {NotExecuted, Unknown}, m.effects[id]);
      }
    }
    forall b | b in s.bindings && s.bindings[b].active.Some? && s.bindings[b].active.value.started
      ensures Prompted(s.prompts + [p], s.bindings[b].active.value.effect)
    {
      PromptedMore(s.prompts, p, s.bindings[b].active.value.effect);
    }
    hide Justified, Prompted, Remembers;
  }

  lemma {:induction false} RestoreJustified(first: seq<Entry>, prompts: seq<Prompt>, m: Memory, log: seq<Entry>)
    requires Remembers(first, prompts, m) && forall i :: 0 <= i < |log| ==> Justified(first, prompts, {NotExecuted}, log[i])
    ensures Remembers(first, prompts, Restore(m, log).0)
  {
    if |log| > 0 {
      RestoreJustified(first, prompts, m, log[..|log| - 1]);
      hide Conflicts;
      assert Justified(first, prompts, {NotExecuted}, log[|log| - 1]);
    }
  }

  lemma AttachJustified(first: seq<Entry>, s: Sys, i: nat)
    requires AllJustified(first, s) && i in s.bindings
    ensures var r := Attach(s.host, s.bindings[i]); AllJustified(first, s.(host := r.0, bindings := s.bindings[i := r.1]))
  {
    RestoreJustified(first, s.prompts, s.bindings[i].memory, s.host.log);
    hide Restore, Readable, Remembers, Prompted, HostIdle;
  }

  /** What is written is justified, and so is what is noted in its place when the write fails. */
  lemma AppendJustified(first: seq<Entry>, s: Sys, i: nat, e: Entry, b: Binding, how: How)
    requires AllJustified(first, s) && i in s.bindings && e.effect.Some? && Justified(first, s.prompts, {NotExecuted}, e)
    requires b.memory == s.bindings[i].memory && (b.active.Some? && how.Well? ==> b.active.value.started ==> Prompted(s.prompts, b.active.value.effect))
    ensures AllJustified(first, Append(s, i, e, b, how))
  {
    var t, lost := Append(s, i, e, b, how), Entry(ReceiptEntry, e.effect, Some(Receipt(Unknown, "")));
    assert Remembers(first, s.prompts, b.memory);
    assert Justified(first, s.prompts, {NotExecuted, Unknown}, lost) && Justified(first, s.prompts, {NotExecuted, Unknown}, e) by { hide Prompted; }
    assert Remembers(first, s.prompts, t.bindings[i].memory) by { hide Prompted, Justified; }
    hide Remembers, Prompted, Justified, Note;
  }

  lemma LaunchJustified(first: seq<Entry>, s: Sys, i: nat, run: Run, how: How)
    requires AllJustified(first, s) && i in s.bindings && s.bindings[i].active == Some(run) && !run.started
    ensures AllJustified(first, LaunchOf(s, i, run, how))
  {
    var b, h, f := s.bindings[i], s.host, run.effect;
    if !Gate(h, b) || how.Gone? {
    } else if run.interrupted {
      AppendJustified(first, s, i, Entry(ReceiptEntry, Some(f), Some(Receipt(NotExecuted, ""))), b.(active := None), how);
    } else if b.idle && HostIdle(h) {
      if how.Well? {
        var p := Prompt(f, |h.log| + 1);
        var u := s.(prompts := s.prompts + [p]);
        MorePrompts(first, s, p);
        assert Prompted(u.prompts, f) by { assert u.prompts[|s.prompts|].effect == f; }
        AppendJustified(first, u, i, Entry(DispatchEntry, Some(f), None), b.(active := Some(run.(started := true))), how);
      } else {
        AppendJustified(first, s, i, Entry(DispatchEntry, Some(f), None), b.(active := Some(run.(started := true))), how);
      }
    }
    hide Remembers, Prompted, Justified, Note, Gate, HostIdle;
  }

  lemma SettleJustified(first: seq<Entry>, s: Sys, i: nat, run: Run, receipt: Receipt, how: How)
    requires AllJustified(first, s) && i in s.bindings && s.bindings[i].active == Some(run) && run.started
    ensures AllJustified(first, SettleOf(s, i, run, receipt, how))
  {
    var b, e := s.bindings[i], Entry(ReceiptEntry, Some(run.effect), Some(receipt));
    assert Prompted(s.prompts, run.effect);
    AppendJustified(first, s, i, e, b.(active := None), how);
    assert Remembers(first, s.prompts, b.memory.(effects := b.memory.effects[run.effect.effectId := e])) by {
      assert Remembers(first, s.prompts, b.memory);
      hide Prompted;
    }
    hide Remembers, Prompted, Justified, Append;
  }

  lemma NextJustified(c: Config, first: seq<Entry>, s: Sys, step: Step)
    requires AllJustified(first, s)
    ensures AllJustified(first, Next(c, s, step))
  {
    hide Attach, LaunchOf, SettleOf, Begins, Prompted, Justified;
    match step
    case SessionStart(i) => if i in s.bindings { AttachJustified(first, s, i); }
    case Launch(i, how) =>
      if i in s.bindings && s.bindings[i].active.Some? && !s.bindings[i].active.value.started {
        LaunchJustified(first, s, i, s.bindings[i].active.value, how);
      }
    case Settle(i, receipt, how) =>
      if i in s.bindings && s.bindings[i].active.Some? && s.bindings[i].active.value.started {
        SettleJustified(first, s, i, s.bindings[i].active.value, receipt, how);
      }
    case _ =>
  }

  /**
   * In every run, whatever the host does: a receipt written for an effect that was never prompted says `not-executed`, and
   * one that is only remembered says `not-executed` or `unknown`.
   */
  lemma {:induction false} UnpromptedReceipts(c: Config, first: seq<Entry>, steps: seq<Step>)
    ensures AllJustified(first, After(c, Init(first), steps))
  {
    if |steps| > 0 {
      UnpromptedReceipts(c, first, steps[..|steps| - 1]);
      hide Next, AllJustified;
      NextJustified(c, first, After(c, Init(first), steps[..|steps| - 1]), steps[|steps| - 1]);
    } else {
      forall e | e in first ensures Justified(first, [], {NotExecuted}, e) {}
    }
  }

  // ---- undisturbed executions ---------------------------------------------------------------------------------------------------

  /** An execution nothing disturbs: its dispatch is written, it is prompted, and its own receipt is written and remembered. */
  lemma ExecutionAnswers(c: Config, s: Sys, i: nat, f: Effect, receipt: Receipt)
    requires i in s.bindings && Begins(s.host, s.bindings[i], f)
    ensures var r := Next(c, Next(c, Next(c, s, Execute(i, f)), Launch(i, Well)), Settle(i, receipt, Well));
      && r.host.log == s.host.log + [Entry(DispatchEntry, Some(f), None), Entry(ReceiptEntry, Some(f), Some(receipt))]
      && r.prompts == s.prompts + [Prompt(f, |s.host.log| + 1)]
      && i in r.bindings && r.bindings[i].active.None? && f.effectId in r.bindings[i].memory.effects
      && r.bindings[i].memory.effects[f.effectId] == Entry(ReceiptEntry, Some(f), Some(receipt))
      && f.key in r.bindings[i].memory.byKey && r.bindings[i].memory.byKey[f.key] == f.effectId
  {
    var run, b, h := Run(f, false, false), s.bindings[i], s.host;
    var s1 := s.(bindings := s.bindings[i := b.(active := Some(run))]);
    assert Next(c, s, Execute(i, f)) == s1;
    var e := Entry(DispatchEntry, Some(f), None);
    var s2 := Sys(h.(log := h.log + [e], running := h.running + {f}),
                  s.bindings[i := b.(active := Some(run.(started := true)), memory := Note(b.memory, e))], s.prompts + [Prompt(f, |h.log| + 1)]);
    assert s1.bindings[i := s2.bindings[i]] == s2.bindings;
    assert Next(c, s1, Launch(i, Well)) == s2;
  }

  /** A run cancelled before its prompt: no prompt, and a receipt that says so. */
  lemma CancelledAnswers(c: Config, s: Sys, i: nat, f: Effect)
    requires i in s.bindings && Begins(s.host, s.bindings[i], f)
    ensures var r := Next(c, Next(c, Next(c, s, Execute(i, f)), Cancel(i)), Launch(i, Well));
      var e := Entry(ReceiptEntry, Some(f), Some(Receipt(NotExecuted, "")));
      && r.host.log == s.host.log + [e] && r.prompts == s.prompts && r.host.running == s.host.running
      && i in r.bindings && r.bindings[i].active.None? && f.effectId in r.bindings[i].memory.effects
      && r.bindings[i].memory.effects[f.effectId] == e
  {
    var run, b := Run(f, false, false), s.bindings[i];
    var s1 := s.(bindings := s.bindings[i := b.(active := Some(run))]);
    assert Next(c, s, Execute(i, f)) == s1;
    var s2 := s1.(bindings := s1.bindings[i := b.(active := Some(run.(interrupted := true)))]);
    assert Next(c, s1, Cancel(i)) == s2;
  }

  /** A write that throws: the file may have the entry, the binding is at fault, and of the effect it remembers that its outcome is unknown. */
  lemma LostAnswers(c: Config, s: Sys, i: nat, how: How)
    requires i in s.bindings && s.bindings[i].active.Some? && !s.bindings[i].active.value.started && !s.bindings[i].active.value.interrupted
    requires Gate(s.host, s.bindings[i]) && s.bindings[i].idle && HostIdle(s.host) && (how.Thrown? || how.ThrownAfter?)
    ensures var r, f := Next(c, s, Launch(i, how)), s.bindings[i].active.value.effect;
      && r.prompts == s.prompts && r.host == (if how.ThrownAfter? then s.host.(log := s.host.log + [Entry(DispatchEntry, Some(f), None)]) else s.host)
      && i in r.bindings && r.bindings[i].fault && !r.bindings[i].idle && r.bindings[i].active.None?
      && r.bindings[i].memory == s.bindings[i].memory.(effects := s.bindings[i].memory.effects[f.effectId := Entry(ReceiptEntry, Some(f), Some(Receipt(Unknown, "")))])
  {}

  /** A run that ends with its binding detached leaves its receipt in memory alone. */
  lemma DetachedAnswers(c: Config, s: Sys, i: nat, receipt: Receipt, how: How)
    requires i in s.bindings && s.bindings[i].active.Some? && s.bindings[i].active.value.started
    requires !s.bindings[i].attached || !s.host.here || how.Gone?
    ensures var r, f := Next(c, s, Settle(i, receipt, how)), s.bindings[i].active.value.effect;
      && r.host == s.host && r.prompts == s.prompts && i in r.bindings && r.bindings[i].active.None?
      && r.bindings[i].memory == s.bindings[i].memory.(effects := s.bindings[i].memory.effects[f.effectId := Entry(ReceiptEntry, Some(f), Some(receipt))])
  {}

  /** A run that is turned away before its prompt leaves nothing behind. */
  lemma TurnedAway(c: Config, s: Sys, i: nat, how: How)
    requires i in s.bindings && s.bindings[i].active.Some? && !s.bindings[i].active.value.started
    requires !Gate(s.host, s.bindings[i]) || how.Gone? || (!s.bindings[i].active.value.interrupted && (!s.bindings[i].idle || !HostIdle(s.host)))
    ensures var r := Next(c, s, Launch(i, how));
      r == s.(bindings := s.bindings[i := s.bindings[i].(active := None)])
  {}

  // ---- reading a session file back ------------------------------------------------------------------------------------------------

  /** Entry `i` is the last one before `j` about this effect. */
  predicate LastBefore(log: seq<Entry>, j: nat, id: Id, i: int)
    requires j <= |log|
  {
    && 0 <= i < j && log[i].effect.Some? && log[i].effect.value.effectId == id
    && forall k :: i < k < j && log[k].effect.Some? ==> log[k].effect.value.effectId != id
  }

  /** No earlier entry gives the effect another content, or its key to another effect. */
  predicate SameContent(log: seq<Entry>, j: nat, f: Effect)
    requires j <= |log|
  {
    forall i :: 0 <= i < j && log[i].effect.Some? && log[i].effect.value.effectId == f.effectId ==> log[i].effect.value == f
  }

  predicate SameOwner(log: seq<Entry>, j: nat, f: Effect)
    requires j <= |log|
  {
    forall i :: 0 <= i < j && log[i].effect.Some? && log[i].effect.value.key == f.key ==> log[i].effect.value.effectId == f.effectId
  }

  /** The entry before it about the effect does not bring an unlike receipt. */
  predicate SameReceipt(log: seq<Entry>, j: nat, id: Id)
    requires j < |log|
  {
    forall i :: 0 <= i < j && LastBefore(log, j, id, i) && log[i].receipt.Some? && log[j].receipt.Some? ==> log[i].receipt == log[j].receipt
  }

  /** What an entry must agree with of those before it: one content to an effect, one effect to a key, one receipt after another. */
  predicate Agrees(log: seq<Entry>, j: nat)
    requires j < |log|
  {
    log[j].effect.Some? ==>
      SameContent(log, j, log[j].effect.value) && SameOwner(log, j, log[j].effect.value) && SameReceipt(log, j, log[j].effect.value.effectId)
  }

  predicate About(e: Entry, id: Id) { e.effect.Some? && e.effect.value.effectId == id }
  predicate Keyed(e: Entry, key: Id) { e.effect.Some? && e.effect.value.key == key }

  ghost predicate IdsRead(log: seq<Entry>, n: nat, m: Memory)
    requires n <= |log|
  {
    forall id :: id in m.effects <==> exists i :: 0 <= i < n && About(log[i], id)
  }

  ghost predicate LastRead(log: seq<Entry>, n: nat, m: Memory)
    requires n <= |log|
  {
    forall id, i :: 0 <= i < n && LastBefore(log, n, id, i) ==> id in m.effects && m.effects[id] == log[i]
  }

  ghost predicate OneContent(log: seq<Entry>, n: nat)
    requires n <= |log|
  {
    forall i, k :: 0 <= i < k < n && log[i].effect.Some? && About(log[k], log[i].effect.value.effectId) ==> log[i].effect == log[k].effect
  }

  ghost predicate KeysRead(log: seq<Entry>, n: nat, m: Memory)
    requires n <= |log|
  {
    && (forall key :: key in m.byKey ==> exists i :: 0 <= i < n && Keyed(log[i], key))
    && (forall i :: 0 <= i < n && log[i].effect.Some? ==> log[i].effect.value.key in m.byKey && m.byKey[log[i].effect.value.key] == log[i].effect.value.effectId)
  }

  /** What has been read of a file all of whose entries agree: the last entry of each effect, and the effect of each key. */
  ghost predicate HasRead(log: seq<Entry>, n: nat, m: Memory)
    requires n <= |log|
  {
    IdsRead(log, n, m) && LastRead(log, n, m) && OneContent(log, n) && KeysRead(log, n, m)
  }

  lemma {:induction false} LastExists(log: seq<Entry>, n: nat, id: Id, k: nat) returns (i: nat)
    requires k < n <= |log| && log[k].effect.Some? && log[k].effect.value.effectId == id
    ensures i < n && LastBefore(log, n, id, i)
    decreases n
  {
    if log[n - 1].effect.Some? && log[n - 1].effect.value.effectId == id {
      i := n - 1;
    } else {
      i := LastExists(log, n - 1, id, k);
    }
  }

  lemma ContentIff(log: seq<Entry>, n: nat, m: Memory, f: Effect)
    requires n <= |log| && HasRead(log, n, m)
    ensures SameContent(log, n, f) <==> (f.effectId in m.effects ==> m.effects[f.effectId].effect == Some(f))
  {
    if f.effectId in m.effects {
      var k :| 0 <= k < n && About(log[k], f.effectId);
      var i := LastExists(log, n, f.effectId, k);
      assert m.effects[f.effectId] == log[i];
      assert forall j :: 0 <= j < n && About(log[j], f.effectId) ==> log[j].effect == log[i].effect by { hide LastBefore, KeysRead, IdsRead, LastRead; }
    } else {
      assert forall j :: 0 <= j < n ==> !About(log[j], f.effectId);
    }
    hide LastBefore, KeysRead, OneContent, IdsRead, LastRead;
  }

  lemma OwnerIff(log: seq<Entry>, n: nat, m: Memory, f: Effect)
    requires n <= |log| && KeysRead(log, n, m)
    ensures SameOwner(log, n, f) <==> (f.key in m.byKey ==> m.byKey[f.key] == f.effectId)
  {
    if f.key in m.byKey {
      var k :| 0 <= k < n && Keyed(log[k], f.key);
      assert m.byKey[f.key] == log[k].effect.value.effectId;
    }
  }

  lemma ReceiptIff(log: seq<Entry>, n: nat, m: Memory, id: Id)
    requires n < |log| && IdsRead(log, n, m) && LastRead(log, n, m)
    ensures SameReceipt(log, n, id) <==>
      (id in m.effects && m.effects[id].receipt.Some? && log[n].receipt.Some? ==> m.effects[id].receipt == log[n].receipt)
  {
    if id in m.effects {
      var k :| 0 <= k < n && About(log[k], id);
      var i := LastExists(log, n, id, k);
      assert m.effects[id] == log[i];
      assert forall j :: 0 <= j < n && LastBefore(log, n, id, j) ==> j == i;
    } else {
      assert forall j :: 0 <= j < n ==> !About(log[j], id);
      assert forall j :: 0 <= j < n ==> !LastBefore(log, n, id, j);
    }
    hide LastBefore, IdsRead, LastRead;
  }

  /** The next entry agrees with those before it exactly when it conflicts with nothing that was read of them. */
  lemma AgreesIff(log: seq<Entry>, n: nat, m: Memory)
    requires n < |log| && HasRead(log, n, m)
    ensures Agrees(log, n) <==> !Conflicts(m, log[n])
  {
    if log[n].effect.Some? {
      var f := log[n].effect.value;
      ContentIff(log, n, m, f);
      OwnerIff(log, n, m, f);
      ReceiptIff(log, n, m, f.effectId);
    }
    hide IdsRead, LastRead, OneContent, KeysRead, SameContent, SameOwner, SameReceipt;
  }

  lemma IdsReadOn(log: seq<Entry>, n: nat, m: Memory)
    requires n < |log| && IdsRead(log, n, m)
    ensures IdsRead(log, n + 1, Note(m, log[n]))
  {
    var next := Note(m, log[n]);
    forall id ensures id in next.effects <==> exists i :: 0 <= i < n + 1 && About(log[i], id) {
      if id in m.effects {
        var i :| 0 <= i < n && About(log[i], id);
        assert About(log[i], id);
      }
      if About(log[n], id) { assert id in next.effects; }
      if exists i :: 0 <= i < n && About(log[i], id) { assert id in m.effects; }
    }
  }

  lemma LastReadOn(log: seq<Entry>, n: nat, m: Memory)
    requires n < |log| && LastRead(log, n, m)
    ensures LastRead(log, n + 1, Note(m, log[n]))
  {
    var next := Note(m, log[n]);
    forall id, i | 0 <= i < n + 1 && LastBefore(log, n + 1, id, i) ensures id in next.effects && next.effects[id] == log[i] {
      if i < n {
        assert LastBefore(log, n, id, i);
        assert !About(log[n], id);
      }
    }
  }

  lemma KeysReadOn(log: seq<Entry>, n: nat, m: Memory)
    requires n < |log| && KeysRead(log, n, m) && Agrees(log, n)
    ensures KeysRead(log, n + 1, Note(m, log[n]))
  {
    var next := Note(m, log[n]);
    forall key | key in next.byKey ensures exists i :: 0 <= i < n + 1 && Keyed(log[i], key) {
      if key in m.byKey {
        var i :| 0 <= i < n && Keyed(log[i], key);
        assert Keyed(log[i], key);
      } else {
        assert Keyed(log[n], key);
      }
    }
    hide LastBefore;
  }

  lemma ReadsOn(log: seq<Entry>, n: nat, m: Memory)
    requires n < |log| && HasRead(log, n, m) && Agrees(log, n)
    ensures HasRead(log, n + 1, Note(m, log[n]))
  {
    IdsReadOn(log, n, m);
    LastReadOn(log, n, m);
    KeysReadOn(log, n, m);
    assert OneContent(log, n + 1) by { hide LastBefore; }
    hide IdsRead, LastRead, KeysRead, Note, Agrees;
  }

  /**
   * A session file is read back exactly when each of its entries agrees with those before it: no effect under two
   * contents, no key of two effects, no receipt after an unlike one; then the last entry of each effect is known.
   */
  lemma {:induction false} RestoreMeans(log: seq<Entry>, n: nat)
    requires n <= |log|
    ensures var r := Restore(Memory(map[], map[]), log[..n]);
      (r.1 <==> forall j :: 0 <= j < n ==> Agrees(log, j)) && (r.1 ==> HasRead(log, n, r.0))
  {
    if n > 0 {
      RestoreMeans(log, n - 1);
      assert log[..n][..n - 1] == log[..n - 1];
      var before := Restore(Memory(map[], map[]), log[..n - 1]);
      if before.1 {
        AgreesIff(log, n - 1, before.0);
        if Agrees(log, n - 1) { ReadsOn(log, n - 1, before.0); }
      }
      hide Agrees, HasRead, Conflicts, Note;
    }
  }

  /** Starting a session: a file that reads back attaches the binding, which announces itself in it the first time only; any other poisons it. */
  lemma AttachAnswers(h: Host, b: Binding)
    ensures var r, readable := Attach(h, b), forall i :: 0 <= i < |h.log| ==> Readable(h.log[i]);
      var restored := Restore(b.memory, h.log);
      if h.here && readable && restored.1 then
        && r.1 == b.(memory := restored.0, attached := true, idle := h.running == {} && !h.userBusy)
        && r.0 == if exists i :: 0 <= i < |h.log| && h.log[i].kind == BindingEntry then h else h.(log := h.log + [Entry(BindingEntry, None, None)])
      else r.0 == h && r.1.fault && !r.1.idle && r.1.attached == b.attached
  {
    hide Restore, Readable;
  }

  /** Whoever is stopped is detached, and its run cannot be taken for a settled one. */
  lemma StopAnswers(c: Config, s: Sys, i: nat)
    requires i in s.bindings
    ensures var r := Next(c, s, Stop(i));
      && r.host == s.host && r.prompts == s.prompts && r.bindings.Keys == s.bindings.Keys
      && !r.bindings[i].attached && !r.bindings[i].idle && r.bindings[i].memory == s.bindings[i].memory
      && (r.bindings[i].active.Some? <==> s.bindings[i].active.Some?) && (r.bindings[i].active.Some? ==> r.bindings[i].active.value.interrupted)
  {}
}
