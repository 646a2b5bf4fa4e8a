/**
 One batch of tool calls (`executeToolCalls`) as a state machine: a shared/exclusive scheduler, the
 interrupts that run beside it, and the results it emits. The environment decides when tools finish
 and when steering, peer interrupts, pauses and the external abort arrive.
 */
module ToolBatch {
  import opened JsonGrammar

  /** What is fixed about a call: how it is scheduled, whether it is a pure wait, whether validation failed. */
  datatype Call = Call(exclusive: bool, interruptible: bool, invalid: bool)

  /** Whether the loop interrupts at once, and whether there is a hook after each call. */
  datatype Config = Config(immediate: bool, hook: bool)

  /** The result message a call ends with. */
  datatype Kind =
    | Real(isError: bool)        // what the tool, or its failure, produced
    | InvalidArguments
    | AbortNotice                // not executed: its signal was aborted
    | Placeholder(partly: bool)  // skipped or cut short by an interrupt

  datatype Phase =
    | Queued
    | Parked                                                   // waits at the pause gate
    | Running
    | Hooking(completed: bool, isError: bool, executed: bool)  // in the hook after the call
    | Checking                                                 // result emitted, polling for steering
    | Settled(ok: bool)                                        // its promise is fulfilled or rejected

  datatype Record = Record(phase: Phase, begun: bool, started: bool, completed: bool, result: Option<Kind>)

  datatype Emitted = StartEvent(call: nat) | EndEvent(call: nat) | ResultMessage(call: nat, kind: Kind)

  datatype Batch = Batch(
    config: Config, calls: seq<Call>, records: seq<Record>, log: seq<Emitted>,
    external: bool,   // the run's own signal is aborted
    steering: bool,   // interruptible waits are aborted by queued steering
    irc: bool,        // interruptible waits are aborted by a peer
    triggered: bool,
    paused: bool)

  datatype Event =
    | Begin(i: nat)                     // the start promise is fulfilled
    | FailDependent(i: nat)             // the start promise is rejected
    | Unpark(i: nat)
    | FailEarly(i: nat)                 // unknown tool, failed preparation or blocked call
    | AbortEarly(i: nat)                // the signal is found aborted before the tool runs
    | Finish(i: nat, isError: bool)     // the tool returns
    | Throw(i: nat)                     // the tool throws after it was entered
    | HookDone(i: nat, isError: bool)
    | Checked(i: nat, ok: bool)         // the poll after the call returns or throws
    | External
    | Steer
    | Irc
    | Pause(on: bool)

  // ---------- scheduling ----------

  predicate NoExclusiveBetween(calls: seq<Call>, i: nat, j: nat) {
    forall k :: i < k < j && k < |calls| ==> !calls[k].exclusive
  }

  /** Call j's start promise waits for call i. */
  predicate WaitsFor(calls: seq<Call>, j: nat, i: nat) {
    i < j < |calls| && NoExclusiveBetween(calls, i, j) && (calls[i].exclusive || calls[j].exclusive)
  }

  /**
   The scheduling loop: an exclusive call waits for the last exclusive call and every shared call since,
   a shared call for the last exclusive call only.
   */
  method Schedule(calls: seq<Call>) returns (starts: seq<seq<nat>>)
    ensures |starts| == |calls|
    ensures forall j: nat, i: nat :: j < |calls| ==> (i in starts[j] <==> WaitsFor(calls, j, i))
  {
    starts := [];
    var lastExclusive: seq<nat> := [];
    var sharedTasks: seq<nat> := [];
    for index := 0 to |calls|
      invariant |starts| == index
      invariant forall j: nat, i: nat :: j < index ==> (i in starts[j] <==> WaitsFor(calls, j, i))
      invariant forall i: nat :: i in lastExclusive <==> i < index && calls[i].exclusive && NoExclusiveBetween(calls, i, index)
      invariant forall i: nat :: i in sharedTasks <==> i < index && !calls[i].exclusive && NoExclusiveBetween(calls, i, index)
    {
      if calls[index].exclusive {
        starts := starts + [lastExclusive + sharedTasks];
        lastExclusive := [index];
        sharedTasks := [];
      } else {
        starts := starts + [lastExclusive];
        sharedTasks := sharedTasks + [index];
      }
    }
  }

  // ---------- steps ----------

  function Initial(config: Config, calls: seq<Call>, external: bool): Batch {
    Batch(config, calls, seq(|calls|, _ => Record(Queued, false, false, false, None)), [], external, false, false, false, false)
  }

  predicate Aborted(b: Batch, i: nat)
    requires i < |b.calls|
  {
    b.external || (b.calls[i].interruptible && (b.steering || b.irc))
  }

  predicate IsSettled(b: Batch, i: nat) {
    i < |b.records| && b.records[i].phase.Settled?
  }

  predicate Ready(b: Batch, j: nat) {
    forall i: nat :: i < |b.records| && WaitsFor(b.calls, j, i) ==> b.records[i].phase == Settled(true)
  }

  predicate In(b: Batch, i: nat) {
    i < |b.calls| && i < |b.records|
  }

  predicate Enabled(b: Batch, e: Event) {
    match e
    case Begin(i) => In(b, i) && b.records[i].phase == Queued && Ready(b, i)
    case FailDependent(i) =>
      In(b, i) && b.records[i].phase == Queued
      && Orphaned(b, i)
    case Unpark(i) => In(b, i) && b.records[i].phase == Parked && (!b.paused || Aborted(b, i))
    case FailEarly(i) => In(b, i) && b.records[i].phase == Running
    case AbortEarly(i) => In(b, i) && b.records[i].phase == Running && Aborted(b, i)
    case Finish(i, _) => In(b, i) && b.records[i].phase == Running
    case Throw(i) => In(b, i) && b.records[i].phase == Running
    case HookDone(i, _) => In(b, i) && b.records[i].phase.Hooking?
    case Checked(i, _) => In(b, i) && b.records[i].phase == Checking
    case Steer => b.config.immediate
    case Irc => b.config.immediate
    case External | Pause(_) => true
  }

  function Put(b: Batch, i: nat, r: Record): Batch
    requires i < |b.records|
  {
    b.(records := b.records[i := r])
  }

  /** `emitToolResult`, and the phase the call is in after it. */
  function Emit(b: Batch, i: nat, kind: Kind, phase: Phase): Batch
    requires i < |b.records|
  {
    var r := b.records[i];
    if r.result.Some? then Put(b, i, r.(phase := phase))
    else
      Put(b, i, r.(phase := phase, result := Some(kind))).(
        log := b.log + (if r.started then [] else [StartEvent(i)]) + [EndEvent(i), ResultMessage(i, kind)])
  }

  /** `runTool` from the pause gate on: an invalid or aborted call ends here, any other starts. */
  function Enter(b: Batch, i: nat): Batch
    requires In(b, i)
  {
    var r := b.records[i].(begun := true);
    var begun := Put(b, i, r);
    if b.calls[i].invalid then Emit(begun, i, InvalidArguments, Settled(true))
    else if Aborted(b, i) then Emit(begun, i, AbortNotice, Settled(true))
    else Put(b, i, r.(phase := Running, started := true)).(log := b.log + [StartEvent(i)])
  }

  /** The end of `runTool`: a call cut short by an interrupt gets a placeholder, any other its own result. */
  function Conclude(b: Batch, i: nat, completed: bool, isError: bool, executed: bool): Batch
    requires In(b, i)
  {
    if b.triggered && Aborted(b, i) && isError && !completed then Emit(b, i, Placeholder(executed), Checking)
    else Emit(b, i, Real(isError), Checking)
  }

  /** The tool is done, one way or another: the hook runs unless the call was aborted without completing. */
  function AfterTool(b: Batch, i: nat, completed: bool, isError: bool, executed: bool): Batch
    requires In(b, i)
  {
    var done := Put(b, i, b.records[i].(completed := completed));
    if b.config.hook && (!Aborted(b, i) || completed)
    then Put(done, i, done.records[i].(phase := Hooking(completed, isError, executed)))
    else Conclude(done, i, completed, isError, executed)
  }

  function Apply(b: Batch, e: Event): Batch
    requires Enabled(b, e)
  {
    match e
    case Begin(i) =>
      if b.triggered && b.calls[i].interruptible then Put(b, i, b.records[i].(phase := Settled(true), begun := true))
      else if b.paused then Put(b, i, b.records[i].(phase := Parked, begun := true))
      else Enter(b, i)
    case FailDependent(i) => Put(b, i, b.records[i].(phase := Settled(false)))
    case Unpark(i) => Enter(b, i)
    case FailEarly(i) => AfterTool(b, i, false, true, false)
    case AbortEarly(i) => Conclude(b, i, false, true, false)
    case Finish(i, isError) => AfterTool(b, i, true, isError, true)
    case Throw(i) => AfterTool(b, i, false, true, true)
    case HookDone(i, isError) =>
      var h := b.records[i].phase;
      Conclude(b, i, h.completed, isError, h.executed)
    case Checked(i, ok) => Put(b, i, b.records[i].(phase := Settled(ok)))
    case External => b.(external := true)
    case Steer => b.(triggered := true, steering := true)
    // the poll looked at the flags before it waited, so this may come after another interrupt
    case Irc => b.(triggered := true, irc := true)
    case Pause(on) => b.(paused := on)
  }

  predicate IsRun(b: Batch, events: seq<Event>)
    decreases |events|
  {
    events == [] || (Enabled(b, events[0]) && IsRun(Apply(b, events[0]), events[1..]))
  }

  function After(b: Batch, events: seq<Event>): Batch
    requires IsRun(b, events)
    decreases |events|
  {
    if events == [] then b else After(Apply(b, events[0]), events[1..])
  }

  /** The sweep after all calls have settled: a placeholder for every call that has no result. */
  function Sweep(b: Batch, i: nat): Batch
    requires i <= |b.records|
    decreases |b.records| - i
  {
    if i == |b.records| then b
    else Sweep(Emit(b, i, Placeholder(false), b.records[i].phase), i + 1)
  }

  predicate AllSettled(b: Batch) {
    forall i: nat :: i < |b.records| ==> IsSettled(b, i)
  }

  // ---------- what is emitted for a call ----------

  function For(log: seq<Emitted>, i: nat): seq<Emitted> {
    if log == [] then []
    else For(log[..|log| - 1], i) + (if log[|log| - 1].call == i then [log[|log| - 1]] else [])
  }

  lemma {:induction false} ForAppend(log: seq<Emitted>, more: seq<Emitted>, i: nat)
    ensures For(log + more, i) == For(log, i) + For(more, i)
    decreases |more|
  {
    if more == [] {
      assert log + more == log;
    } else {
      var all := log + more;
      assert all[..|all| - 1] == log + more[..|more| - 1];
      assert all[|all| - 1] == more[|more| - 1];
      ForAppend(log, more[..|more| - 1], i);
    }
  }

  /** The events of a call so far: none, its start, or start, end and result. */
  function Expected(r: Record, i: nat): seq<Emitted> {
    if r.result.Some? then [StartEvent(i), EndEvent(i), ResultMessage(i, r.result.value)]
    else if r.started then [StartEvent(i)] else []
  }

  // ---------- the invariant ----------

  predicate PhaseOk(b: Batch, r: Record, c: Call) {
    match r.phase
    case Queued => !r.begun && !r.started && !r.completed && r.result.None?
    case Parked => r.begun && !r.started && !r.completed && r.result.None?
    case Running => r.begun && r.started && !r.completed && r.result.None?
    case Hooking(completed, _, _) => r.begun && r.started && r.completed == completed && r.result.None?
    case Checking => r.begun && r.started && r.result.Some?
    case Settled(ok) =>
      if r.begun then r.result.Some? || (ok && c.interruptible && b.triggered && !r.started && !r.completed)
      else !ok && !r.started && !r.completed && r.result.None?
  }

  predicate ResultOk(b: Batch, r: Record, c: Call) {
    r.result.Some? ==>
      && (r.completed ==> r.result.value.Real?)
      && (r.result.value.Placeholder? ==> b.triggered)
      && (r.result.value.Placeholder? || r.result.value == AbortNotice ==>
           b.external || (c.interruptible && (b.steering || b.irc)))
  }

  predicate RecordOk(b: Batch, i: nat)
    requires In(b, i)
  {
    var r := b.records[i];
    && PhaseOk(b, r, b.calls[i]) && ResultOk(b, r, b.calls[i])
    && For(b.log, i) == Expected(r, i)
    && (r.begun ==> Ready(b, i))
    && (r.phase == Settled(false) && !r.begun ==> Orphaned(b, i))
  }

  /** A call that i waits for was rejected. */
  predicate Orphaned(b: Batch, i: nat) {
    exists k: nat :: k < |b.records| && WaitsFor(b.calls, i, k) && b.records[k].phase == Settled(false)
  }

  predicate BatchOk(b: Batch) {
    && |b.records| == |b.calls|
    && (forall i: nat :: i < |b.calls| ==> RecordOk(b, i))
    && (b.steering || b.irc ==> b.triggered)
    && (forall k :: 0 <= k < |b.log| ==> b.log[k].call < |b.calls|)
  }

  lemma InitialOk(config: Config, calls: seq<Call>, external: bool)
    ensures BatchOk(Initial(config, calls, external))
  {
  }

  // ---------- every step keeps it ----------

  /** What a step on call i may do to the batch: change its record and add events of its own. */
  predicate Touches(b: Batch, c: Batch, i: nat) {
    && In(b, i) && |c.records| == |b.records|
    && c == b.(records := c.records, log := c.log)
    && (forall k: nat :: k < |b.records| && k != i ==> c.records[k] == b.records[k])
    && b.log <= c.log
    && (forall k :: |b.log| <= k < |c.log| ==> c.log[k].call == i)
  }

  lemma {:induction false} ForOthers(more: seq<Emitted>, i: nat, k: nat)
    requires i != k && forall j :: 0 <= j < |more| ==> more[j].call == i
    ensures For(more, k) == []
  {
    if more != [] {
      ForOthers(more[..|more| - 1], i, k);
    }
  }

  lemma TouchesOthers(b: Batch, c: Batch, i: nat, k: nat)
    requires Touches(b, c, i) && k != i
    ensures For(c.log, k) == For(b.log, k)
  {
    var more := c.log[|b.log|..];
    assert c.log == b.log + more;
    ForAppend(b.log, more, k);
    ForOthers(more, i, k);
  }

  lemma OrphanStays(b: Batch, c: Batch, i: nat, k: nat)
    requires Touches(b, c, i) && !b.records[i].phase.Settled? && Orphaned(b, k)
    ensures Orphaned(c, k)
  {
    var d: nat :| d < |b.records| && WaitsFor(b.calls, k, d) && b.records[d].phase == Settled(false);
    assert c.records[d] == b.records[d];
  }

  /** A call may only leave a phase other than settled, so what others wait for stays settled. */
  lemma TouchKeepsOthers(b: Batch, c: Batch, i: nat)
    requires BatchOk(b) && Touches(b, c, i) && !b.records[i].phase.Settled?
    requires RecordOk(c, i)
    ensures BatchOk(c)
  {
    forall k: nat | k < |c.calls| ensures RecordOk(c, k) {
      if k != i {
        assert RecordOk(b, k);
        TouchesOthers(b, c, i, k);
        if c.records[k].begun {
          assert Ready(b, k);
          assert Ready(c, k);
        }
        if Orphaned(b, k) {
          OrphanStays(b, c, i, k);
        }
      }
    }
    forall k | 0 <= k < |c.log| ensures c.log[k].call < |c.calls| {
      if k < |b.log| {
        assert c.log[k] == b.log[k];
      }
    }
  }

  function EmittedBy(b: Batch, i: nat, kind: Kind): seq<Emitted>
    requires i < |b.records|
  {
    (if b.records[i].started then [] else [StartEvent(i)]) + [EndEvent(i), ResultMessage(i, kind)]
  }

  lemma EmitTouches(b: Batch, i: nat, kind: Kind, phase: Phase)
    requires In(b, i) && b.records[i].result.None?
    ensures var c := Emit(b, i, kind, phase);
      && Touches(b, c, i)
      && c.records[i] == b.records[i].(phase := phase, result := Some(kind))
      && For(c.log, i) == For(b.log, i) + EmittedBy(b, i, kind)
  {
    hide For;
    var more := EmittedBy(b, i, kind);
    var c := Emit(b, i, kind, phase);
    assert c.log == b.log + more;
    ForAppend(b.log, more, i);
    ForOwn(more, i);
  }

  lemma {:induction false} ForOwn(more: seq<Emitted>, i: nat)
    requires forall j :: 0 <= j < |more| ==> more[j].call == i
    ensures For(more, i) == more
  {
    if more != [] {
      ForOwn(more[..|more| - 1], i);
      assert more == more[..|more| - 1] + [more[|more| - 1]];
    }
  }

  /** Emitting the one result of a begun call. */
  lemma EmitOk(b: Batch, i: nat, kind: Kind, phase: Phase)
    requires BatchOk(b) && In(b, i) && b.records[i].result.None? && b.records[i].begun
    requires !b.records[i].phase.Settled?
    requires (phase == Checking && b.records[i].started) || phase == Settled(true)
    requires b.records[i].completed ==> kind.Real?
    requires kind.Placeholder? ==> b.triggered
    requires kind.Placeholder? || kind == AbortNotice ==> Aborted(b, i)
    ensures BatchOk(Emit(b, i, kind, phase))
  {
    hide For;
    EmitTouches(b, i, kind, phase);
    var c := Emit(b, i, kind, phase);
    assert RecordOk(b, i);
    assert Ready(c, i);
    assert RecordOk(c, i);
    TouchKeepsOthers(b, c, i);
  }

  /** Changing only the record of call i. */
  lemma PutOk(b: Batch, i: nat, r: Record)
    requires BatchOk(b) && In(b, i) && !b.records[i].phase.Settled?
    requires r.phase == Settled(false) && !r.begun ==> Orphaned(b, i)
    requires r.result == b.records[i].result && r.started == b.records[i].started
    requires PhaseOk(b, r, b.calls[i]) && ResultOk(b, r, b.calls[i]) && (r.begun ==> Ready(b, i))
    ensures BatchOk(Put(b, i, r))
  {
    var c := Put(b, i, r);
    assert RecordOk(b, i);
    assert r.begun ==> Ready(c, i);
    if Orphaned(b, i) {
      OrphanStays(b, c, i, i);
    }
    assert RecordOk(c, i);
    TouchKeepsOthers(b, c, i);
  }

  /** The call has passed its gate and is about to begin. */
  lemma EnterOk(b: Batch, i: nat)
    requires BatchOk(b) && In(b, i) && Ready(b, i)
    requires b.records[i].phase == Queued || b.records[i].phase == Parked
    ensures BatchOk(Enter(b, i))
  {
    hide For;
    assert RecordOk(b, i);
    var r := b.records[i].(begun := true);
    // seen from the gate, the call is parked
    var parked := Put(b, i, r.(phase := Parked));
    PutOk(b, i, r.(phase := Parked));
    var begun := Put(b, i, r);
    if b.calls[i].invalid || Aborted(b, i) {
      var kind := if b.calls[i].invalid then InvalidArguments else AbortNotice;
      EmitOk(parked, i, kind, Settled(true));
      EmitSame(parked, begun, i, kind, Settled(true));
    } else {
      var c := Enter(b, i);
      StartLogged(b, i);
      assert Touches(b, c, i);
      assert Ready(c, i);
      assert RecordOk(c, i);
      TouchKeepsOthers(b, c, i);
    }
  }

  /** The phase a call is in does not show in what is emitted for it. */
  lemma EmitSame(b: Batch, c: Batch, i: nat, kind: Kind, phase: Phase)
    requires In(b, i) && In(c, i) && c == Put(b, i, b.records[i].(phase := c.records[i].phase))
    requires b.records[i].result.None?
    ensures Emit(b, i, kind, phase) == Emit(c, i, kind, phase)
  {
    var r := b.records[i].(phase := phase, result := Some(kind));
    assert b.records[i := r] == c.records[i := r];
  }

  lemma StartLogged(b: Batch, i: nat)
    ensures For(b.log + [StartEvent(i)], i) == For(b.log, i) + [StartEvent(i)]
  {
    ForAppend(b.log, [StartEvent(i)], i);
    ForOwn([StartEvent(i)], i);
  }

  lemma ConcludeOk(b: Batch, i: nat, completed: bool, isError: bool, executed: bool)
    requires BatchOk(b) && In(b, i) && b.records[i].completed == completed
    requires b.records[i].phase.Running? || b.records[i].phase.Hooking? 
    requires b.records[i].begun && b.records[i].started && b.records[i].result.None?
    ensures BatchOk(Conclude(b, i, completed, isError, executed))
  {
    if b.triggered && Aborted(b, i) && isError && !completed {
      EmitOk(b, i, Placeholder(executed), Checking);
    } else {
      EmitOk(b, i, Real(isError), Checking);
    }
  }

  lemma AfterToolOk(b: Batch, i: nat, completed: bool, isError: bool, executed: bool)
    requires BatchOk(b) && In(b, i) && b.records[i].phase == Running
    ensures BatchOk(AfterTool(b, i, completed, isError, executed))
  {
    assert RecordOk(b, i);
    var r := b.records[i].(completed := completed);
    var hooking := r.(phase := Hooking(completed, isError, executed));
    PutOk(b, i, hooking);
    var done := Put(b, i, r);
    assert Put(done, i, hooking) == Put(b, i, hooking);
    hide BatchOk, Conclude;
    if !(b.config.hook && (!Aborted(b, i) || completed)) {
      var c := Put(b, i, hooking);
      ConcludeOk(c, i, completed, isError, executed);
      ConcludeSame(c, done, i, completed, isError, executed);
    }
  }

  lemma ConcludeSame(b: Batch, c: Batch, i: nat, completed: bool, isError: bool, executed: bool)
    requires In(b, i) && In(c, i) && c == Put(b, i, b.records[i].(phase := c.records[i].phase))
    requires b.records[i].result.None?
    ensures Conclude(b, i, completed, isError, executed) == Conclude(c, i, completed, isError, executed)
  {
    hide Emit;
    EmitSame(b, c, i, Placeholder(executed), Checking);
    EmitSame(b, c, i, Real(isError), Checking);
  }

  /** Every step keeps the invariant. */
  lemma StepOk(b: Batch, e: Event)
    requires BatchOk(b) && Enabled(b, e)
    ensures BatchOk(Apply(b, e))
  {
    match e
    case Begin(i) =>
      assert RecordOk(b, i);
      if b.triggered && b.calls[i].interruptible {
        PutOk(b, i, b.records[i].(phase := Settled(true), begun := true));
      } else if b.paused {
        PutOk(b, i, b.records[i].(phase := Parked, begun := true));
      } else {
        EnterOk(b, i);
      }
    case FailDependent(i) =>
      assert RecordOk(b, i);
      PutOk(b, i, b.records[i].(phase := Settled(false)));
    case Unpark(i) =>
      assert RecordOk(b, i);
      EnterOk(b, i);
    case FailEarly(i) => AfterToolOk(b, i, false, true, false);
    case AbortEarly(i) =>
      assert RecordOk(b, i);
      ConcludeOk(b, i, false, true, false);
    case Finish(i, isError) => AfterToolOk(b, i, true, isError, true);
    case Throw(i) => AfterToolOk(b, i, false, true, true);
    case HookDone(i, isError) =>
      assert RecordOk(b, i);
      var h := b.records[i].phase;
      ConcludeOk(b, i, h.completed, isError, h.executed);
    case Checked(i, ok) =>
      assert RecordOk(b, i);
      PutOk(b, i, b.records[i].(phase := Settled(ok)));
    case External | Steer | Irc | Pause(_) =>
      var c := Apply(b, e);
      forall i: nat | i < |c.calls| ensures RecordOk(c, i) {
        assert RecordOk(b, i);
        assert Ready(b, i) ==> Ready(c, i);
        assert Orphaned(b, i) ==> Orphaned(c, i);
      }
  }

  lemma {:induction false} RunOk(b: Batch, events: seq<Event>)
    requires BatchOk(b) && IsRun(b, events)
    ensures BatchOk(After(b, events))
    decreases |events|
  {
    if events != [] {
      StepOk(b, events[0]);
      RunOk(Apply(b, events[0]), events[1..]);
    }
  }

  // ---------- exclusion ----------

  /** Of two calls of which one is exclusive, the later begins only after the earlier has settled. */
  lemma {:induction false} Exclusion(b: Batch, i: nat, j: nat)
    requires BatchOk(b) && i < j < |b.calls| && (b.calls[i].exclusive || b.calls[j].exclusive)
    requires b.records[j].begun
    ensures b.records[i].phase == Settled(true)
    decreases j - i
  {
    assert RecordOk(b, j);
    if NoExclusiveBetween(b.calls, i, j) {
      assert WaitsFor(b.calls, j, i);
    } else {
      var k: nat := LastExclusive(b.calls, i, j);
      assert WaitsFor(b.calls, j, k);
      assert RecordOk(b, k);
      Exclusion(b, i, k);
    }
  }

  lemma {:induction false} LastExclusive(calls: seq<Call>, i: nat, j: nat) returns (k: nat)
    requires i < j < |calls| && !NoExclusiveBetween(calls, i, j)
    ensures i < k < j && calls[k].exclusive && NoExclusiveBetween(calls, k, j)
    decreases j - i
  {
    k :| i < k < j && calls[k].exclusive;
    if !NoExclusiveBetween(calls, k, j) {
      k := LastExclusive(calls, k, j);
    }
  }

  /** In every run of every batch. */
  lemma ExclusionInEveryRun(config: Config, calls: seq<Call>, external: bool, events: seq<Event>, i: nat, j: nat)
    requires IsRun(Initial(config, calls, external), events)
    requires i < j < |calls| && (calls[i].exclusive || calls[j].exclusive)
    ensures var b := After(Initial(config, calls, external), events);
      j < |b.records| && (b.records[j].begun ==> b.records[i].phase == Settled(true))
  {
    InitialOk(config, calls, external);
    RunOk(Initial(config, calls, external), events);
    CallsFixed(Initial(config, calls, external), events);
    var b := After(Initial(config, calls, external), events);
    if b.records[j].begun {
      Exclusion(b, i, j);
    }
  }

  /** From b to c only the record of call i has changed, and only its phase went past `most`. */
  predicate Moved(b: Batch, c: Batch, i: nat, most: nat) {
    && i < |b.records| && |c.records| == |b.records| && c.calls == b.calls
    && c.records == b.records[i := c.records[i]]
    && Weight(c.records[i].phase) <= most
  }

  lemma EmitMoves(b: Batch, i: nat, kind: Kind, phase: Phase)
    requires i < |b.records|
    ensures Moved(b, Emit(b, i, kind, phase), i, Weight(phase))
  {
  }

  lemma ConcludeMoves(b: Batch, i: nat, completed: bool, isError: bool, executed: bool)
    requires In(b, i)
    ensures Moved(b, Conclude(b, i, completed, isError, executed), i, 1)
  {
    hide Emit;
    EmitMoves(b, i, Placeholder(executed), Checking);
    EmitMoves(b, i, Real(isError), Checking);
  }

  lemma AfterToolMoves(b: Batch, i: nat, completed: bool, isError: bool, executed: bool)
    requires In(b, i)
    ensures Moved(b, AfterTool(b, i, completed, isError, executed), i, 2)
  {
    hide Conclude;
    var done := Put(b, i, b.records[i].(completed := completed));
    ConcludeMoves(done, i, completed, isError, executed);
  }

  lemma EnterMoves(b: Batch, i: nat)
    requires In(b, i)
    ensures Moved(b, Enter(b, i), i, 3)
  {
    hide Emit;
    var begun := Put(b, i, b.records[i].(begun := true));
    EmitMoves(begun, i, InvalidArguments, Settled(true));
    EmitMoves(begun, i, AbortNotice, Settled(true));
  }

  /** A step of a call changes its own record only and brings it further. */
  lemma StepMoves(b: Batch, e: Event)
    requires Enabled(b, e) && OfCall(e)
    ensures e.i < |b.records| && Weight(b.records[e.i].phase) > 0
    ensures Moved(b, Apply(b, e), e.i, Weight(b.records[e.i].phase) - 1)
  {
    hide Conclude, AfterTool, Enter, Ready, Orphaned, Aborted;
    match e
    case Begin(i) => EnterMoves(b, i);
    case FailDependent(i) =>
    case Unpark(i) => EnterMoves(b, i);
    case FailEarly(i) => AfterToolMoves(b, i, false, true, false);
    case AbortEarly(i) => ConcludeMoves(b, i, false, true, false);
    case Finish(i, isError) => AfterToolMoves(b, i, true, isError, true);
    case Throw(i) => AfterToolMoves(b, i, false, true, true);
    case HookDone(i, isError) => ConcludeMoves(b, i, b.records[i].phase.completed, isError, b.records[i].phase.executed);
    case Checked(i, ok) =>
  }

  lemma CallsKept(b: Batch, e: Event)
    requires Enabled(b, e)
    ensures Apply(b, e).calls == b.calls && |Apply(b, e).records| == |b.records|
  {
    if OfCall(e) {
      hide Apply, Enabled;
      StepMoves(b, e);
    }
  }

  lemma {:induction false} CallsFixed(b: Batch, events: seq<Event>)
    requires IsRun(b, events)
    ensures After(b, events).calls == b.calls && |After(b, events).records| == |b.records|
    decreases |events|
  {
    if events != [] {
      CallsKept(b, events[0]);
      hide Apply, Enabled;
      CallsFixed(Apply(b, events[0]), events[1..]);
    }
  }

  // ---------- progress ----------

  /** Some event lets call i go on; a parked call goes on once the gate is opened. */
  predicate CanMove(b: Batch, i: nat) {
    In(b, i) &&
    match b.records[i].phase
    case Queued => Enabled(b, Begin(i)) || Enabled(b, FailDependent(i))
    case Parked => Enabled(b, Pause(false)) && Enabled(Apply(b, Pause(false)), Unpark(i))
    case Running => Enabled(b, Finish(i, false)) && Enabled(b, Throw(i))
    case Hooking(_, _, _) => Enabled(b, HookDone(i, false))
    case Checking => Enabled(b, Checked(i, true))
    case Settled(_) => false
  }

  /** No deadlock: while a call is unsettled, some unsettled call can go on, a parked one through the open gate. */
  lemma SomeCallCanMove(b: Batch) returns (i: nat)
    requires BatchOk(b) && !AllSettled(b)
    ensures i < |b.calls| && !IsSettled(b, i) && CanMove(b, i)
  {
    i := 0;
    while IsSettled(b, i)
      invariant i < |b.records| || exists k: nat :: k < |b.records| && !IsSettled(b, k) && k >= i
      invariant forall k: nat :: k < i && k < |b.records| ==> IsSettled(b, k)
      invariant i <= |b.records|
      decreases |b.records| - i
    {
      i := i + 1;
      if i == |b.records| {
        assert AllSettled(b);
      }
    }
    assert RecordOk(b, i);
    if b.records[i].phase == Queued && !Ready(b, i) {
      var k: nat :| k < |b.records| && WaitsFor(b.calls, i, k) && b.records[k].phase != Settled(true);
      assert IsSettled(b, k);
      assert Orphaned(b, i);
    }
  }

  /** Steps a call still has before it. */
  function Weight(p: Phase): nat {
    match p
    case Queued => 5
    case Parked => 4
    case Running => 3
    case Hooking(_, _, _) => 2
    case Checking => 1
    case Settled(_) => 0
  }

  function Remaining(records: seq<Record>): nat {
    if records == [] then 0 else Weight(records[0].phase) + Remaining(records[1..])
  }

  lemma {:induction false} RemainingPut(records: seq<Record>, i: nat, r: Record)
    requires i < |records| && Weight(r.phase) < Weight(records[i].phase)
    ensures Remaining(records[i := r]) < Remaining(records)
    decreases |records|
  {
    if i == 0 {
      assert records[i := r][1..] == records[1..];
    } else {
      assert records[i := r][1..] == records[1..][i - 1 := r];
      RemainingPut(records[1..], i - 1, r);
    }
  }

  predicate OfCall(e: Event) {
    !(e.External? || e.Steer? || e.Irc? || e.Pause?)
  }

  /** Every step of a call uses up one of boundedly many, so no batch runs for ever by itself. */
  lemma CallStepsRunOut(b: Batch, e: Event)
    requires Enabled(b, e)
    ensures OfCall(e) ==> Remaining(Apply(b, e).records) < Remaining(b.records)
    ensures !OfCall(e) ==> Apply(b, e).records == b.records
  {
    if OfCall(e) {
      hide Apply, Enabled;
      StepMoves(b, e);
      var i := e.i;
      var c := Apply(b, e);
      RemainingPut(b.records, i, c.records[i]);
    }
  }

  // ---------- one result per call ----------

  /** What the batch returns for call i: its events once and in order, and a result that is fair to it. */
  ghost predicate FairlyAnswered(b: Batch, log: seq<Emitted>, i: nat)
    requires In(b, i)
  {
    exists kind ::
      && For(log, i) == [StartEvent(i), EndEvent(i), ResultMessage(i, kind)]
      && (b.records[i].completed ==> kind.Real?)
      && (kind == AbortNotice && !b.calls[i].interruptible ==> b.external)
      && (kind.Placeholder? && !b.calls[i].interruptible ==> b.external || PollThrew(b, i))
  }

  /** The poll after an earlier call threw. */
  predicate PollThrew(b: Batch, i: nat) {
    exists k: nat :: k < i && k < |b.records| && b.records[k].begun && b.records[k].phase == Settled(false)
  }

  lemma {:induction false} OrphanCause(b: Batch, i: nat)
    requires BatchOk(b) && i < |b.calls| && Orphaned(b, i)
    ensures PollThrew(b, i)
    decreases i
  {
    var k: nat :| k < |b.records| && WaitsFor(b.calls, i, k) && b.records[k].phase == Settled(false);
    assert RecordOk(b, k);
    if !b.records[k].begun {
      OrphanCause(b, k);
      var d: nat :| d < k && d < |b.records| && b.records[d].begun && b.records[d].phase == Settled(false);
      assert PollThrew(b, i);
    }
  }

  lemma SweptOne(b: Batch, k: nat, i: nat)
    requires k < |b.records| && i < |b.records|
    ensures var c := Emit(b, k, Placeholder(false), b.records[k].phase);
      For(c.log, i) == For(b.log, i) + (if k == i && b.records[i].result.None? then EmittedBy(b, i, Placeholder(false)) else [])
  {
    if b.records[k].result.None? {
      var more := EmittedBy(b, k, Placeholder(false));
      assert b.log + (if b.records[k].started then [] else [StartEvent(k)]) + [EndEvent(k), ResultMessage(k, Placeholder(false))]
          == b.log + more;
      ForAppend(b.log, more, i);
      if k == i {
        ForOwn(more, i);
      } else {
        ForOthers(more, k, i);
      }
    }
  }

  lemma {:induction false} SweepLog(b: Batch, k: nat, i: nat)
    requires k <= |b.records| && i < |b.records|
    ensures For(Sweep(b, k).log, i)
         == For(b.log, i) + (if k <= i && b.records[i].result.None? then EmittedBy(b, i, Placeholder(false)) else [])
    decreases |b.records| - k
  {
    if k < |b.records| {
      hide For;
      var c := Emit(b, k, Placeholder(false), b.records[k].phase);
      SweptOne(b, k, i);
      SweepLog(c, k + 1, i);
    }
  }

  /**
   Once all calls have settled, the sweep leaves exactly one start event, one end event and one result
   for each of them, in this order. A completed call keeps its own result, and a call that is no pure
   wait is only passed over when the run was aborted or a poll threw.
   */
  lemma OneResultPerCall(b: Batch, i: nat)
    requires BatchOk(b) && AllSettled(b) && i < |b.calls|
    ensures FairlyAnswered(b, Sweep(b, 0).log, i)
  {
    hide For;
    assert RecordOk(b, i) && IsSettled(b, i);
    SweepLog(b, 0, i);
    var r := b.records[i];
    if r.result.Some? {
      assert For(Sweep(b, 0).log, i) == [StartEvent(i), EndEvent(i), ResultMessage(i, r.result.value)];
    } else {
      assert For(Sweep(b, 0).log, i) == [StartEvent(i), EndEvent(i), ResultMessage(i, Placeholder(false))];
      if !r.begun {
        OrphanCause(b, i);
      }
    }
  }

  /** In every run of every batch that has settled. */
  lemma EveryCallAnswered(config: Config, calls: seq<Call>, external: bool, events: seq<Event>, i: nat)
    requires IsRun(Initial(config, calls, external), events) && i < |calls|
    requires AllSettled(After(Initial(config, calls, external), events))
    ensures var b := After(Initial(config, calls, external), events);
      In(b, i) && FairlyAnswered(b, Sweep(b, 0).log, i)
  {
    InitialOk(config, calls, external);
    RunOk(Initial(config, calls, external), events);
    CallsFixed(Initial(config, calls, external), events);
    OneResultPerCall(After(Initial(config, calls, external), events), i);
  }
}
