/**
 * The binding to a persistent host session: an effect is prompted at most once, whatever crashes, restarts, unloads
 * and session switches happen, because its dispatch entry is written to the session file first and read back.
 */
module PiBinding {
  import opened Options

  type Id = string

  datatype Effect = Effect(effectId: Id, key: Id, content: string)
  datatype Status = Completed | Failed | Cancelled | NotExecuted | Unknown
  datatype Receipt = Receipt(status: Status, content: string)
  datatype Kind = BindingEntry | DispatchEntry | ReceiptEntry
  datatype Entry = Entry(kind: Kind, effect: Option<Effect>, receipt: Option<Receipt>)

  /** What a binding remembers: the last entry of each effect, and which effect owns a delivery key. */
  datatype Memory = Memory(effects: map<Id, Entry>, byKey: map<Id, Id>)

  /** `record`, after the entry is written. */
  function Note(m: Memory, e: Entry): Memory {
    if e.effect.None? then m
    else Memory(m.effects[e.effect.value.effectId := e], m.byKey[e.effect.value.key := e.effect.value.effectId])
  }

  /** An entry as `readPiRecords` demands it; one that is not fails the whole read-back. */
  predicate Readable(e: Entry) { (e.kind != BindingEntry ==> e.effect.Some?) && (e.kind == ReceiptEntry ==> e.receipt.Some?) }

  /** Same effect id with other content, a key of another effect, or a second receipt unlike the first. */
  predicate Conflicts(m: Memory, e: Entry) {
    && e.effect.Some?
    && var f := e.effect.value;
       || (f.effectId in m.effects && m.effects[f.effectId].effect != e.effect)
       || (f.key in m.byKey && m.byKey[f.key] != f.effectId)
       || (f.effectId in m.effects && m.effects[f.effectId].receipt.Some? && e.receipt.Some? && m.effects[f.effectId].receipt != e.receipt)
  }

  /** Reading entries back into memory, up to the first conflict. */
  function Restore(m: Memory, log: seq<Entry>): (Memory, bool) {
    if |log| == 0 then (m, true)
    else
      var before := Restore(m, log[..|log| - 1]);
      var e := log[|log| - 1];
      if !before.1 || Conflicts(before.0, e) then (before.0, false) else (Note(before.0, e), true)
  }

  lemma {:induction false} RestoreStuck(m: Memory, log: seq<Entry>, k: nat)
    requires k <= |log| && !Restore(m, log[..k]).1
    ensures Restore(m, log) == Restore(m, log[..k])
    decreases |log| - k
  {
    if k < |log| {
      assert log[..k + 1][..k] == log[..k];
      RestoreStuck(m, log, k + 1);
    } else { assert log[..k] == log; }
  }

  /** The restoring loop of `session_start`. */
  method RestoreAll(m: Memory, log: seq<Entry>) returns (next: Memory, ok: bool)
    ensures (next, ok) == Restore(m, log)
  {
    next := m;
    for i := 0 to |log|
      invariant Restore(m, log[..i]) == (next, true)
    {
      assert log[..i + 1][..i] == log[..i] && log[..i + 1][i] == log[i];
      if log[i].effect.None? { continue; }
      if Conflicts(next, log[i]) { RestoreStuck(m, log, i + 1); return next, false; }
      next := Note(next, log[i]);
    }
    assert log[..|log|] == log;
    ok := true;
  }

  // ---- the binding and its host ----------------------------------------------------------------------------------

  datatype Run = Run(effect: Effect, started: bool, interrupted: bool)
  datatype Binding = Binding(attached: bool, idle: bool, fault: bool, active: Option<Run>, memory: Memory)

  /** The session file, whether the bound session is the open one, the kernel's prompts in flight, and other activity. */
  datatype Host = Host(log: seq<Entry>, here: bool, running: set<Effect>, userBusy: bool)

  /** A prompt that was sent, with how long the session file was then. */
  datatype Prompt = Prompt(effect: Effect, at: nat)

  datatype Sys = Sys(host: Host, bindings: map<nat, Binding>, prompts: seq<Prompt>)

  /** `exclusive`: the host starts a session for a binding only while no other one is attached, as one that loads a single binding does. */
  datatype Config = Config(exclusive: bool)

  datatype How = Well | Gone | Thrown | ThrownAfter

  datatype Step = Bind(i: nat) | SessionStart(i: nat) | Stop(i: nat) | Execute(i: nat, effect: Effect) | Cancel(i: nat)
                | Launch(i: nat, how: How) | Settle(i: nat, receipt: Receipt, how: How) | AgentStart(i: nat) | AgentSettled(i: nat)
                | Poison(i: nat) | Unload(i: nat) | PromptEnds(effect: Effect) | User(busy: bool) | Leave | Return | Crash

  predicate HostIdle(h: Host) { h.running == {} && !h.userBusy }

  predicate Gate(h: Host, b: Binding) { b.attached && h.here && !b.fault }

  /** Detaches; a run under way is marked interrupted. */
  function StopOf(b: Binding): Binding {
    b.(attached := false, idle := false, active := if b.active.Some? then Some(b.active.value.(interrupted := true)) else None)
  }

  /** `session_start`: reads the session file back, attaches, and writes the binding entry the first time. */
  function Attach(h: Host, b: Binding): (Host, Binding) {
    if !h.here || exists i :: 0 <= i < |h.log| && !Readable(h.log[i]) then (h, b.(fault := true, idle := false))
    else
      var r := Restore(b.memory, h.log);
      if !r.1 then (h, b.(memory := r.0, fault := true, idle := false))
      else
        (if exists i :: 0 <= i < |h.log| && h.log[i].kind == BindingEntry then h else h.(log := h.log + [Entry(BindingEntry, None, None)]),
         b.(memory := r.0, attached := true, idle := HostIdle(h)))
  }

  /** Whether `execute` starts a run for the effect; every other answer leaves the binding as it is. */
  predicate Begins(h: Host, b: Binding, f: Effect) {
    && Gate(h, b) && (f.key in b.memory.byKey ==> b.memory.byKey[f.key] == f.effectId) && f.effectId !in b.memory.effects
    && b.idle && b.active.None? && HostIdle(h)
  }

  /** The last check, the entry and the prompt: nothing else runs in between. `Gone` is an expired or refused preparation. */
  function LaunchOf(s: Sys, i: nat, run: Run, how: How): Sys
    requires i in s.bindings
  {
    var b, h, f := s.bindings[i], s.host, run.effect;
    var ended := b.(active := None);
    if !Gate(h, b) || how.Gone? then s.(bindings := s.bindings[i := ended])
    else if run.interrupted then
      var e := Entry(ReceiptEntry, Some(f), Some(Receipt(NotExecuted, "")));
      Append(s, i, e, ended, how)
    else if !b.idle || !HostIdle(h) then s.(bindings := s.bindings[i := ended])
    else
      var next := Append(s, i, Entry(DispatchEntry, Some(f), None), b.(active := Some(run.(started := true))), how);
      if how.Well? then next.(prompts := s.prompts + [Prompt(f, |next.host.log|)], host := next.host.(running := h.running + {f})) else next
  }

  /** Writes an entry and notes it; a write that throws leaves the binding at fault, whether or not the entry got through. */
  function Append(s: Sys, i: nat, e: Entry, b: Binding, how: How): Sys
    requires e.effect.Some?
  {
    if how.Well? then
      Sys(s.host.(log := s.host.log + [e]), s.bindings[i := b.(memory := Note(b.memory, e))], s.prompts)
    else
      var lost := Entry(ReceiptEntry, e.effect, Some(Receipt(Unknown, "")));
      var memory := b.memory.(effects := b.memory.effects[e.effect.value.effectId := lost]);
      Sys(if how.ThrownAfter? then s.host.(log := s.host.log + [e]) else s.host,
          s.bindings[i := b.(memory := memory, fault := true, idle := false, active := None)], s.prompts)
  }

  /** The end of a run that prompted: its receipt is written if the binding is still attached, else only remembered. */
  function SettleOf(s: Sys, i: nat, run: Run, receipt: Receipt, how: How): Sys
    requires i in s.bindings
  {
    var b := s.bindings[i];
    var e := Entry(ReceiptEntry, Some(run.effect), Some(receipt));
    var ended := b.(active := None);
    if b.attached && s.host.here && !how.Gone? then Append(s, i, e, ended, how)
    else s.(bindings := s.bindings[i := ended.(memory := b.memory.(effects := b.memory.effects[run.effect.effectId := e]))])
  }

  predicate OtherAttached(s: Sys, i: nat) { exists j :: j in s.bindings && j != i && s.bindings[j].attached }

  /** One step; one that is not possible leaves everything as it is. */
  function Next(c: Config, s: Sys, step: Step): Sys {
    match step
    case Bind(i) =>
      if i in s.bindings then s
      else s.(bindings := s.bindings[i := Binding(false, false, false, None, Memory(map[], map[]))])
    case SessionStart(i) =>
      if i !in s.bindings || (c.exclusive && OtherAttached(s, i)) then s
      else var r := Attach(s.host, s.bindings[i]); s.(host := r.0, bindings := s.bindings[i := r.1])
    case Stop(i) => if i in s.bindings then s.(bindings := s.bindings[i := StopOf(s.bindings[i])]) else s
    case Execute(i, f) =>
      if i in s.bindings && Begins(s.host, s.bindings[i], f)
      then s.(bindings := s.bindings[i := s.bindings[i].(active := Some(Run(f, false, false)))]) else s
    case Cancel(i) =>
      if i in s.bindings && s.bindings[i].active.Some? && !s.bindings[i].active.value.started
      then s.(bindings := s.bindings[i := s.bindings[i].(active := Some(s.bindings[i].active.value.(interrupted := true)))]) else s
    case Launch(i, how) =>
      if i in s.bindings && s.bindings[i].active.Some? && !s.bindings[i].active.value.started
      then LaunchOf(s, i, s.bindings[i].active.value, how) else s
    case Settle(i, receipt, how) =>
      if i in s.bindings && s.bindings[i].active.Some? && s.bindings[i].active.value.started
      then SettleOf(s, i, s.bindings[i].active.value, receipt, how) else s
    case AgentStart(i) => if i in s.bindings then s.(bindings := s.bindings[i := s.bindings[i].(idle := false)]) else s
    case AgentSettled(i) => if i in s.bindings then s.(bindings := s.bindings[i := s.bindings[i].(idle := true)]) else s
    case Poison(i) => if i in s.bindings then s.(bindings := s.bindings[i := s.bindings[i].(fault := true, idle := false)]) else s
    case Unload(i) => s.(bindings := s.bindings - {i})
    case PromptEnds(f) => s.(host := s.host.(running := s.host.running - {f}))
    case User(busy) => s.(host := s.host.(userBusy := busy))
    case Leave => s.(host := s.host.(here := false))
    case Return => s.(host := s.host.(here := true))
    case Crash => Sys(s.host.(running := {}, userBusy := false), map[], s.prompts)
  }

  function After(c: Config, s: Sys, steps: seq<Step>): Sys {
    if |steps| == 0 then s else Next(c, After(c, s, steps[..|steps| - 1]), steps[|steps| - 1])
  }

  /** Any session file may be there at first. */
  function Init(log: seq<Entry>): Sys { Sys(Host(log, true, {}, false), map[], []) }
}
