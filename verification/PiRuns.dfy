/** At most one prompt per delivery key, and exactly when that can be relied on. */
module PiRuns {
  import opened Options
  import opened PiBinding

  /** Memory agrees with itself: an effect is filed under its id, a key under an effect that is filed. */
  predicate MemoryOk(m: Memory) {
    && (forall id :: id in m.effects ==> m.effects[id].effect.Some? && m.effects[id].effect.value.effectId == id)
    && (forall k :: k in m.byKey ==> m.byKey[k] in m.effects)
  }

  predicate KnowsEntry(m: Memory, e: Entry) {
    e.effect.Some? ==>
      && e.effect.value.effectId in m.effects && m.effects[e.effect.value.effectId].effect == e.effect
      && e.effect.value.key in m.byKey && m.byKey[e.effect.value.key] == e.effect.value.effectId
  }

  /** Everything in the session file is known. */
  predicate Knows(m: Memory, log: seq<Entry>) { forall i :: 0 <= i < |log| ==> KnowsEntry(m, log[i]) }

  /** Every effect and key in the session file is filed. */
  predicate Covers(m: Memory, log: seq<Entry>) {
    forall i :: 0 <= i < |log| && log[i].effect.Some? ==> log[i].effect.value.effectId in m.effects && log[i].effect.value.key in m.byKey
  }

  /**
   * A preparing run that nothing interrupted is an attached binding's, for an effect and a key it knows nothing of; a
   * prompting one has its entry in the file.
   */
  predicate RunOk(b: Binding, log: seq<Entry>) {
    b.active.Some? ==>
      var run := b.active.value;
      if run.started then Entry(DispatchEntry, Some(run.effect), None) in log
      else !run.interrupted ==>
        b.attached && (!b.fault ==> run.effect.effectId !in b.memory.effects && run.effect.key !in b.memory.byKey)
  }

  predicate BindingOk(b: Binding, log: seq<Entry>) {
    MemoryOk(b.memory) && RunOk(b, log) && (b.attached && !b.fault ==> Covers(b.memory, log))
  }

  /** The last entry before the prompt was its effect's dispatch entry. */
  predicate Announced(p: Prompt, log: seq<Entry>) { 0 < p.at <= |log| && log[p.at - 1] == Entry(DispatchEntry, Some(p.effect), None) }

  /** Each prompt comes right after its own dispatch entry, and no two are for one key. */
  predicate PromptsOk(prompts: seq<Prompt>, log: seq<Entry>) {
    && (forall i :: 0 <= i < |prompts| ==> Announced(prompts[i], log))
    && (forall i, j :: 0 <= i < j < |prompts| ==> prompts[i].at < prompts[j].at)
    && (forall i, j :: 0 <= i < j < |prompts| ==> prompts[i].effect.key != prompts[j].effect.key)
  }

  predicate OneAttached(bindings: map<nat, Binding>) {
    forall i, j :: i in bindings && j in bindings && bindings[i].attached && bindings[j].attached ==> i == j
  }

  predicate SysOk(s: Sys) {
    && OneAttached(s.bindings) && PromptsOk(s.prompts, s.host.log)
    && forall i :: i in s.bindings ==> BindingOk(s.bindings[i], s.host.log)
  }

  // ---- restoring ---------------------------------------------------------------------------------------------------

  /** The entry's effect and key are unknown, or known to belong together. */
  predicate Fits(m: Memory, e: Entry) {
    e.effect.Some? ==>
      && (e.effect.value.effectId in m.effects ==> m.effects[e.effect.value.effectId].effect == e.effect)
      && (e.effect.value.key in m.byKey ==> m.byKey[e.effect.value.key] == e.effect.value.effectId)
  }

  lemma NoteKeeps(m: Memory, log: seq<Entry>, e: Entry)
    requires MemoryOk(m) && Knows(m, log) && Fits(m, e)
    ensures MemoryOk(Note(m, e)) && Knows(Note(m, e), log + [e])
  {
    forall i | 0 <= i <= |log| ensures KnowsEntry(Note(m, e), (log + [e])[i]) {
      if i < |log| { assert KnowsEntry(m, log[i]); }
    }
  }

  lemma {:induction false} RestoreKnows(m: Memory, log: seq<Entry>)
    requires MemoryOk(m)
    ensures MemoryOk(Restore(m, log).0) && (Restore(m, log).1 ==> Knows(Restore(m, log).0, log))
  {
    if |log| > 0 {
      var init, last := log[..|log| - 1], log[|log| - 1];
      RestoreKnows(m, init);
      if Restore(m, init).1 && !Conflicts(Restore(m, init).0, last) { NoteKeeps(Restore(m, init).0, init, last); }
      assert init + [last] == log;
    }
  }

  lemma KnownIsCovered(m: Memory, log: seq<Entry>)
    requires Knows(m, log)
    ensures Covers(m, log)
  {
    forall i | 0 <= i < |log| && log[i].effect.Some? ensures log[i].effect.value.effectId in m.effects && log[i].effect.value.key in m.byKey {
      assert KnowsEntry(m, log[i]);
    }
  }

  /** Reading a covered file back brings nothing new under an unknown id or key. */
  lemma {:induction false} RestoreSame(m: Memory, log: seq<Entry>)
    requires Covers(m, log)
    ensures Restore(m, log).0.effects.Keys == m.effects.Keys && Restore(m, log).0.byKey.Keys == m.byKey.Keys
  {
    if |log| > 0 {
      var init := log[..|log| - 1];
      RestoreSame(m, init);
      hide Conflicts;
    }
  }

  // ---- steps ---------------------------------------------------------------------------------------------------------

  lemma AppendPrompts(prompts: seq<Prompt>, log: seq<Entry>, e: Entry)
    requires PromptsOk(prompts, log)
    ensures PromptsOk(prompts, log + [e])
  {}

  /** A key the memory does not know has no entry in a file it covers, and so no prompt. */
  lemma FreshKey(m: Memory, log: seq<Entry>, prompts: seq<Prompt>, key: Id)
    requires Covers(m, log) && PromptsOk(prompts, log) && key !in m.byKey
    ensures forall i :: 0 <= i < |prompts| ==> prompts[i].effect.key != key
  {
    forall i | 0 <= i < |prompts| ensures prompts[i].effect.key != key { assert log[prompts[i].at - 1].effect == Some(prompts[i].effect); }
  }

  lemma NewPrompt(prompts: seq<Prompt>, log: seq<Entry>, f: Effect)
    requires PromptsOk(prompts, log) && forall i :: 0 <= i < |prompts| ==> prompts[i].effect.key != f.key
    ensures PromptsOk(prompts + [Prompt(f, |log| + 1)], log + [Entry(DispatchEntry, Some(f), None)])
  {}

  lemma AttachKeeps(h: Host, b: Binding)
    requires BindingOk(b, h.log)
    ensures BindingOk(Attach(h, b).1, Attach(h, b).0.log)
    ensures Attach(h, b).0.log == h.log || Attach(h, b).0.log == h.log + [Entry(BindingEntry, None, None)]
  {
    RestoreKnows(b.memory, h.log);
    if Restore(b.memory, h.log).1 { KnownIsCovered(Restore(b.memory, h.log).0, h.log); }
    if b.attached && !b.fault { RestoreSame(b.memory, h.log); }
    hide Restore, Note, Conflicts, Knows;
  }

  lemma NoteCovers(m: Memory, log: seq<Entry>, e: Entry)
    requires MemoryOk(m) && e.effect.Some?
    ensures MemoryOk(Note(m, e)) && (Covers(m, log) ==> Covers(Note(m, e), log + [e]))
  {}

  /** A binding that is not attached need not know what is written. */
  lemma OthersKeep(b: Binding, log: seq<Entry>, e: Entry)
    requires BindingOk(b, log) && !b.attached
    ensures BindingOk(b, log + [e])
  {
    if b.active.Some? && b.active.value.started {
      var k :| 0 <= k < |log| && log[k] == Entry(DispatchEntry, Some(b.active.value.effect), None);
      assert (log + [e])[k] == log[k];
    }
    hide MemoryOk, Covers;
  }

  /** What the one attached binding writes, it covers. */
  lemma AppendKeeps(s: Sys, i: nat, e: Entry, b: Binding, how: How)
    requires SysOk(s) && i in s.bindings && s.bindings[i].attached && e.effect.Some? && b.attached
    requires MemoryOk(b.memory) && (!b.fault ==> Covers(b.memory, s.host.log))
    requires b.active.Some? ==> b.active.value.started && e == Entry(DispatchEntry, Some(b.active.value.effect), None)
    ensures SysOk(Append(s, i, e, b, how))
  {
    hide PromptsOk, Note, Covers, BindingOk;
    AppendPrompts(s.prompts, s.host.log, e);
    AppendOwn(s, i, e, b, how);
    var t := Append(s, i, e, b, how);
    forall j | j in t.bindings ensures BindingOk(t.bindings[j], t.host.log) {
      if j != i { OthersKeep(s.bindings[j], s.host.log, e); }
    }
  }

  lemma AppendOwn(s: Sys, i: nat, e: Entry, b: Binding, how: How)
    requires i in s.bindings && e.effect.Some? && b.attached && MemoryOk(b.memory) && (!b.fault ==> Covers(b.memory, s.host.log))
    requires b.active.Some? ==> b.active.value.started && e == Entry(DispatchEntry, Some(b.active.value.effect), None)
    ensures var t := Append(s, i, e, b, how); i in t.bindings && BindingOk(t.bindings[i], t.host.log)
  {
    NoteCovers(b.memory, s.host.log, e);
    hide Note, Covers;
  }

  lemma LaunchKeeps(s: Sys, i: nat, run: Run, how: How)
    requires i in s.bindings && s.bindings[i].active == Some(run) && !run.started
    requires SysOk(s)
    ensures SysOk(LaunchOf(s, i, run, how))
  {
    var b, h := s.bindings[i], s.host;
    assert BindingOk(b, h.log);
    if !Gate(h, b) || how.Gone? {
      hide PromptsOk, MemoryOk, Covers;
    } else if run.interrupted {
      AppendKeeps(s, i, Entry(ReceiptEntry, Some(run.effect), Some(Receipt(NotExecuted, ""))), b.(active := None), how);
    } else if !b.idle || !HostIdle(h) {
      hide PromptsOk, MemoryOk, Covers;
    } else {
      PromptKeeps(s, i, run, how);
    }
    hide SysOk, BindingOk;
  }

  /** A prompt goes out only for a key no prompt went out for. */
  lemma PromptKeeps(s: Sys, i: nat, run: Run, how: How)
    requires i in s.bindings && s.bindings[i].active == Some(run) && !run.started && !run.interrupted && !s.bindings[i].fault
    requires SysOk(s)
    ensures var next := Append(s, i, Entry(DispatchEntry, Some(run.effect), None), s.bindings[i].(active := Some(run.(started := true))), how);
      && SysOk(next)
      && (how.Well? ==> SysOk(next.(prompts := s.prompts + [Prompt(run.effect, |next.host.log|)], host := next.host.(running := s.host.running + {run.effect}))))
  {
    var b, f, e := s.bindings[i], run.effect, Entry(DispatchEntry, Some(run.effect), None);
    assert BindingOk(b, s.host.log);
    AppendKeeps(s, i, e, b.(active := Some(run.(started := true))), how);
    FreshKey(b.memory, s.host.log, s.prompts, f.key);
    NewPrompt(s.prompts, s.host.log, f);
    hide PromptsOk, BindingOk;
  }

  lemma SettleKeeps(s: Sys, i: nat, run: Run, receipt: Receipt, how: How)
    requires i in s.bindings && s.bindings[i].active == Some(run) && run.started
    requires SysOk(s)
    ensures SysOk(SettleOf(s, i, run, receipt, how))
  {
    var b, e := s.bindings[i], Entry(ReceiptEntry, Some(run.effect), Some(receipt));
    assert BindingOk(b, s.host.log);
    if b.attached && s.host.here && !how.Gone? {
      AppendKeeps(s, i, e, b.(active := None), how);
    } else {
      RememberKeeps(b, s.host.log, run.effect, e);
    }
    hide PromptsOk, BindingOk;
  }

  /** Remembering the receipt of an effect without writing it. */
  lemma RememberKeeps(b: Binding, log: seq<Entry>, f: Effect, e: Entry)
    requires BindingOk(b, log) && e.effect == Some(f)
    ensures BindingOk(b.(active := None, memory := b.memory.(effects := b.memory.effects[f.effectId := e])), log)
  {}

  lemma NextKeeps(c: Config, s: Sys, step: Step)
    requires c.exclusive && SysOk(s)
    ensures SysOk(Next(c, s, step))
  {
    match step
    case SessionStart(i) =>
      if i in s.bindings && !OtherAttached(s, i) {
        AttachKeeps(s.host, s.bindings[i]);
        AppendPrompts(s.prompts, s.host.log, Entry(BindingEntry, None, None));
        var t := Next(c, s, step);
        forall j | j in t.bindings ensures BindingOk(t.bindings[j], t.host.log) {
          if j != i { OthersKeep(s.bindings[j], s.host.log, Entry(BindingEntry, None, None)); }
        }
        hide Attach, BindingOk, PromptsOk;
      }
    case Launch(i, how) =>
      if i in s.bindings && s.bindings[i].active.Some? && !s.bindings[i].active.value.started { LaunchKeeps(s, i, s.bindings[i].active.value, how); }
      hide LaunchOf, SysOk;
    case Settle(i, receipt, how) =>
      if i in s.bindings && s.bindings[i].active.Some? && s.bindings[i].active.value.started {
        SettleKeeps(s, i, s.bindings[i].active.value, receipt, how);
      }
      hide SettleOf, SysOk;
    case Execute(i, f) =>
      if i in s.bindings && Begins(s.host, s.bindings[i], f) { BeginKeeps(s.host, s.bindings[i], f); }
      hide BindingOk, Begins, PromptsOk;
    case _ => hide MemoryOk, Covers, PromptsOk;
  }

  /** A run only begins for an effect and a key the binding knows nothing of. */
  lemma BeginKeeps(h: Host, b: Binding, f: Effect)
    requires Begins(h, b, f) && BindingOk(b, h.log)
    ensures BindingOk(b.(active := Some(Run(f, false, false))), h.log)
  {
    hide Covers;
  }

  lemma {:induction false} AfterKeeps(c: Config, s: Sys, steps: seq<Step>)
    requires c.exclusive && SysOk(s)
    ensures SysOk(After(c, s, steps))
  {
    if |steps| > 0 {
      AfterKeeps(c, s, steps[..|steps| - 1]);
      hide SysOk, Next;
      NextKeeps(c, After(c, s, steps[..|steps| - 1]), steps[|steps| - 1]);
    }
  }

  predicate AtMostOnce(prompts: seq<Prompt>) { forall i, j :: 0 <= i < j < |prompts| ==> prompts[i].effect.key != prompts[j].effect.key }

  /** Whatever happens, each key is prompted at most once, and each prompt has its own entry, written just before it. */
  lemma PromptedOnce(c: Config, log: seq<Entry>, steps: seq<Step>)
    requires c.exclusive
    ensures var s := After(c, Init(log), steps);
      && AtMostOnce(s.prompts)
      && (forall i :: 0 <= i < |s.prompts| ==> Announced(s.prompts[i], s.host.log))
      && (forall i, j :: 0 <= i < j < |s.prompts| ==> s.prompts[i].at < s.prompts[j].at)
  {
    AfterKeeps(c, Init(log), steps);
    hide After, BindingOk;
  }

  predicate AtMostOne(running: set<Effect>) { forall f, g :: f in running && g in running ==> f == g }

  /** A step starts a prompt only while none is in flight. */
  lemma NextInFlight(c: Config, s: Sys, step: Step)
    requires AtMostOne(s.host.running)
    ensures AtMostOne(Next(c, s, step).host.running)
  {
    hide Restore, Note, Conflicts, Readable;
    var running := Next(c, s, step).host.running;
    if step.Launch? && !(running <= s.host.running) {
      var f := s.bindings[step.i].active.value.effect;
      assert s.host.running == {} && running == s.host.running + {f};
    }
  }

  /** Whatever is loaded, the host never runs two of the kernel's prompts at once. */
  lemma {:induction false} OneInFlight(c: Config, log: seq<Entry>, steps: seq<Step>)
    ensures AtMostOne(After(c, Init(log), steps).host.running)
  {
    if |steps| > 0 {
      OneInFlight(c, log, steps[..|steps| - 1]);
      hide Next, AtMostOne;
      NextInFlight(c, After(c, Init(log), steps[..|steps| - 1]), steps[|steps| - 1]);
    }
  }

  lemma AfterMore(c: Config, s: Sys, steps: seq<Step>, step: Step)
    ensures After(c, s, steps + [step]) == Next(c, After(c, s, steps), step)
  {
    assert (steps + [step])[..|steps|] == steps;
    hide Next;
  }

  function Loaded(): Binding { Binding(false, false, false, None, Memory(map[], map[])) }
  function Attached(): Binding { Binding(true, true, false, None, Memory(map[], map[])) }

  ghost predicate Leads(c: Config, s: Sys, t: Sys) { exists steps :: After(c, s, steps) == t }

  lemma ThenStep(c: Config, s: Sys, t: Sys, step: Step)
    requires Leads(c, s, t)
    ensures Leads(c, s, Next(c, t, step))
  {
    var steps :| After(c, s, steps) == t;
    AfterMore(c, s, steps, step);
  }

  /** One binding executes the effect while the other has read nothing of it. */
  lemma Prompts(c: Config, s: Sys, t: Sys, i: nat, f: Effect)
    requires Leads(c, s, t) && i in t.bindings && t.bindings[i] == Attached() && t.host.here && HostIdle(t.host)
    ensures Leads(c, s, Sys(t.host.(log := t.host.log + [Entry(DispatchEntry, Some(f), None)], running := {f}),
                            t.bindings[i := Next(c, Next(c, t, Execute(i, f)), Launch(i, Well)).bindings[i]], t.prompts + [Prompt(f, |t.host.log| + 1)]))
  {
    hide Leads;
    ThenStep(c, s, t, Execute(i, f));
    var u := Next(c, t, Execute(i, f));
    assert u == t.(bindings := t.bindings[i := Attached().(active := Some(Run(f, false, false)))]);
    ThenStep(c, s, u, Launch(i, Well));
    var v := Next(c, u, Launch(i, Well));
    assert v.bindings == t.bindings[i := v.bindings[i]] && t.host.running + {f} == {f};
  }

  /** A second binding, attached while the first is, has not read what the first writes, and prompts again. */
  lemma TwoBindings(c: Config)
    requires !c.exclusive
    ensures exists steps :: !AtMostOnce(After(c, Init([]), steps).prompts)
  {
    var f, s := Effect("e", "k", ""), Init([]);
    assert After(c, s, []) == s;
    ThenStep(c, s, s, Bind(1));
    ThenStep(c, s, Next(c, s, Bind(1)), Bind(2));
    var t := s.(bindings := map[1 := Loaded(), 2 := Loaded()]);
    assert Next(c, Next(c, s, Bind(1)), Bind(2)) == t;
    ThenStep(c, s, t, SessionStart(1));
    ThenStep(c, s, Next(c, t, SessionStart(1)), SessionStart(2));
    var u := Sys(Host([Entry(BindingEntry, None, None)], true, {}, false), map[1 := Attached(), 2 := Attached()], []);
    BothAttach(c, t, u);
    hide Leads, Next;
    PromptsTwice(c, s, u, f);
  }

  lemma PromptsTwice(c: Config, s: Sys, t: Sys, f: Effect)
    requires Leads(c, s, t) && 1 in t.bindings && 2 in t.bindings && t.bindings[1] == t.bindings[2] == Attached()
    requires t.host.here && HostIdle(t.host)
    ensures exists steps :: !AtMostOnce(After(c, s, steps).prompts)
  {
    Prompts(c, s, t, 1, f);
    var after := Next(c, Next(c, t, Execute(1, f)), Launch(1, Well)).bindings[1];
    var u := Sys(t.host.(log := t.host.log + [Entry(DispatchEntry, Some(f), None)], running := {f}),
                 t.bindings[1 := after], t.prompts + [Prompt(f, |t.host.log| + 1)]);
    ThenStep(c, s, u, PromptEnds(f));
    var v := u.(host := u.host.(running := {}));
    assert Next(c, u, PromptEnds(f)) == v;
    Prompts(c, s, v, 2, f);
    hide Next;
    var w := Sys(v.host.(log := v.host.log + [Entry(DispatchEntry, Some(f), None)], running := {f}),
                 v.bindings[2 := Next(c, Next(c, v, Execute(2, f)), Launch(2, Well)).bindings[2]], v.prompts + [Prompt(f, |v.host.log| + 1)]);
    var steps :| After(c, s, steps) == w;
    var n := |t.prompts|;
    assert w.prompts[n].effect.key == w.prompts[n + 1].effect.key;
    assert !AtMostOnce(After(c, s, steps).prompts);
  }

  lemma BothAttach(c: Config, s: Sys, t: Sys)
    requires !c.exclusive && s == Sys(Host([], true, {}, false), map[1 := Loaded(), 2 := Loaded()], [])
    requires t == Sys(Host([Entry(BindingEntry, None, None)], true, {}, false), map[1 := Attached(), 2 := Attached()], [])
    ensures Next(c, Next(c, s, SessionStart(1)), SessionStart(2)) == t
  {
    var hello, m := Entry(BindingEntry, None, None), Memory(map[], map[]);
    assert Restore(m, []) == (m, true);
    assert [hello][..0] == [] && Restore(m, [hello]) == (m, true);
    var u := Sys(Host([hello], true, {}, false), map[1 := Attached(), 2 := Loaded()], []);
    assert Next(c, s, SessionStart(1)) == u by { assert [] + [hello] == [hello]; }
    assert [hello][0].kind == BindingEntry;
    assert Next(c, u, SessionStart(2)) == t;
  }

  /** Every key is prompted at most once in every run exactly when the host never has two bindings attached at a time. */
  lemma AtMostOnceIff(c: Config)
    ensures (forall steps :: AtMostOnce(After(c, Init([]), steps).prompts)) <==> c.exclusive
  {
    if c.exclusive {
      forall steps ensures AtMostOnce(After(c, Init([]), steps).prompts) { PromptedOnce(c, [], steps); }
    } else {
      TwoBindings(c);
    }
  }
}
