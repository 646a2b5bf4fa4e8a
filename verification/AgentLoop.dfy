/**
 The agent loop (`runLoopBody`) as a state machine: its turns, the soft tool requirement, paused
 turns, leak retries, deadlines and queued messages. The environment decides what the model
 answers, what the hooks return, in which order a batch of calls ends and when the deadline passes.
 */
module AgentLoop {
  import opened JsonGrammar

  const MAX_PAUSED_TURN_CONTINUATIONS: nat := 8
  const MAX_SOFT_TOOL_ESCALATIONS: nat := 3
  const MAX_LEAK_RETRIES: nat := 2
  const MAX_LEAK_RESUMES: nat := 2

  datatype Stop = ToolUse | EndTurn | Length | Error | Aborted

  /** A tool call in an assistant message; `shape` stands for its arguments. */
  datatype Block = Block(id: int, name: int, shape: int, execResolved: bool)

  /** `Executed`: the result is the one the batch of calls returned. */
  datatype Outcome = Executed | Failed | Skipped | Truncated

  datatype Message =
    | Assistant(stop: Stop, blocks: seq<Block>, paused: bool)
    | ToolResult(call: Block, outcome: Outcome)
    | Plain(id: int)   // prompts, steering, asides, follow-ups and reminders

  datatype HardChoice = Unset | Auto | NoTool | AnyTool | Computer | Named(tool: int)

  const COMPUTER_TOOL: int := -1

  datatype Requirement = Requirement(tool: int, accepts: Option<set<int>>)

  datatype Directive = NoDirective | HardDirective | Soft(id: int, requirement: Requirement, reminder: seq<int>)

  // ---------- pairing ----------

  function Runnable(blocks: seq<Block>): seq<Block> {
    if blocks == [] then []
    else (if blocks[0].execResolved then [] else [blocks[0]]) + Runnable(blocks[1..])
  }

  function Calls(m: Message): seq<Block> {
    if m.Assistant? then Runnable(m.blocks) else []
  }

  /** The calls that a run of result messages answers. */
  function AnsweredBy(results: seq<Message>): seq<Block> {
    if results == [] then []
    else (if results[0].ToolResult? then [results[0].call] else []) + AnsweredBy(results[1..])
  }

  predicate AllResults(ms: seq<Message>) {
    forall k :: 0 <= k < |ms| ==> ms[k].ToolResult? && !ms[k].call.execResolved
  }

  /** The results answer each call of the message once, in whatever order. */
  predicate Paired(m: Message, results: seq<Message>) {
    AllResults(results) && |results| == |Calls(m)| && multiset(AnsweredBy(results)) == multiset(Calls(m))
  }

  /** A result that belongs to no call before it. */
  predicate Stray(m: Message) {
    m.ToolResult? && !m.call.execResolved
  }

  /**
   Every assistant message is directly followed by exactly one result for each of its calls, and no
   result stands anywhere else. Results of blocks the provider resolved itself may stand anywhere.
   */
  predicate WellPaired(ms: seq<Message>) {
    if ms == [] then true
    else if Stray(ms[0]) then false
    else
      var k := |Calls(ms[0])|;
      1 + k <= |ms| && Paired(ms[0], ms[1..1 + k]) && WellPaired(ms[1 + k..])
  }

  lemma Parts(m: Message, results: seq<Message>, rest: seq<Message>)
    ensures var ms := [m] + (results + rest);
      ms[0] == m && ms[1..1 + |results|] == results && ms[1 + |results|..] == rest && |ms| == 1 + |results| + |rest|
  {
  }

  lemma Whole(a: seq<Message>, k: nat)
    requires 1 <= k <= |a|
    ensures a == [a[0]] + (a[1..k] + a[k..])
  {
  }

  lemma UnitAhead(ms: seq<Message>)
    requires ms != [] && !Stray(ms[0]) && 1 + |Calls(ms[0])| <= |ms|
    requires Paired(ms[0], ms[1..1 + |Calls(ms[0])|]) && WellPaired(ms[1 + |Calls(ms[0])|..])
    ensures WellPaired(ms)
  {
    hide Paired, Calls, Stray;
  }

  lemma UnitThenPaired(m: Message, results: seq<Message>, rest: seq<Message>)
    requires !Stray(m) && Paired(m, results) && WellPaired(rest)
    ensures WellPaired([m] + (results + rest))
  {
    PairedLength(m, results);
    hide Paired, WellPaired, Calls, Stray;
    Parts(m, results, rest);
    UnitAhead([m] + (results + rest));
  }

  lemma PairedLength(m: Message, results: seq<Message>)
    requires Paired(m, results)
    ensures |results| == |Calls(m)|
  {
  }

  lemma Regroup(a: seq<Message>, b: seq<Message>, c: seq<Message>)
    ensures (a + b) + c == a + (b + c)
  {
  }

  lemma HeadUnit(a: seq<Message>)
    requires WellPaired(a) && a != []
    ensures !Stray(a[0]) && 1 + |Calls(a[0])| <= |a|
    ensures Paired(a[0], a[1..1 + |Calls(a[0])|]) && WellPaired(a[1 + |Calls(a[0])|..])
  {
    hide Paired, Calls, Stray;
  }

  lemma FirstUnit(a: seq<Message>) returns (results: seq<Message>, rest: seq<Message>)
    requires WellPaired(a) && a != []
    ensures !Stray(a[0]) && Paired(a[0], results) && WellPaired(rest)
    ensures a == [a[0]] + (results + rest) && |rest| < |a|
  {
    HeadUnit(a);
    hide Paired, WellPaired, Calls, Stray;
    var k := 1 + |Calls(a[0])|;
    results, rest := a[1..k], a[k..];
    Whole(a, k);
  }

  lemma Chain(m: Message, results: seq<Message>, rest: seq<Message>, b: seq<Message>)
    ensures ([m] + (results + rest)) + b == [m] + (results + (rest + b))
  {
  }

  lemma {:induction false} PairedThenPaired(a: seq<Message>, b: seq<Message>)
    requires WellPaired(a) && WellPaired(b)
    ensures WellPaired(a + b)
    decreases |a|
  {
    hide Paired, WellPaired, Calls, Stray;
    if a == [] {
      assert a + b == b;
    } else {
      var results, rest := FirstUnit(a);
      PairedThenPaired(rest, b);
      UnitThenPaired(a[0], results, rest + b);
      Chain(a[0], results, rest, b);
    }
  }

  lemma TurnIsPaired(m: Message, results: seq<Message>)
    requires !Stray(m) && Paired(m, results)
    ensures WellPaired([m] + results)
  {
    UnitThenPaired(m, results, []);
    assert results + [] == results;
  }

  function Plains(ids: seq<int>): seq<Message> {
    seq(|ids|, i requires 0 <= i < |ids| => Plain(ids[i]))
  }

  lemma {:induction false} PlainsArePaired(ids: seq<int>)
    ensures WellPaired(Plains(ids))
    decreases |ids|
  {
    if ids != [] {
      var ms := Plains(ids);
      assert ms[1..] == Plains(ids[1..]);
      assert ms[1..1] == [];
      PlainsArePaired(ids[1..]);
    }
  }

  // ---------- results of a turn ----------

  function Placeholders(blocks: seq<Block>, outcome: Outcome): seq<Message> {
    if blocks == [] then [] else [ToolResult(blocks[0], outcome)] + Placeholders(blocks[1..], outcome)
  }

  /** The results of an executed batch, in the order in which its calls ended. */
  function Executions(blocks: seq<Block>, order: seq<nat>): seq<Message>
    requires forall k :: 0 <= k < |order| ==> order[k] < |blocks|
  {
    if order == [] then [] else [ToolResult(blocks[order[0]], Executed)] + Executions(blocks, order[1..])
  }

  /** Each of n calls once. */
  predicate EachOnce(order: seq<nat>, n: nat) {
    && |order| == n
    && (forall k :: 0 <= k < |order| ==> order[k] < n)
    && (forall j, k :: 0 <= j < k < |order| ==> order[j] != order[k])
  }

  // ---------- the state ----------

  datatype Point =
    | Entry
    | Head                        // the inner loop's test
    | Calling                     // a model call is under way
    | Answered(message: Message)  // the answer is in the context, its turn is open
    | Boundary                    // the turn has ended, the queues are about to be polled
    | Draining                    // the loop would stop here
    | Done
    | Thrown

  datatype Emitted =
    | TurnStart
    | ModelCall(at: nat)                                         // the context's length then
    | TurnEnd(message: Message, results: seq<Message>, at: nat)  // likewise
    | AgentEnd

  /** What has happened so far. */
  datatype Tally = Tally(
    calls: nat,        // calls of the model
    answers: nat,      // calls that ended a turn
    toolTurns: nat,    // turns with calls in them
    pauses: nat,       // turns that ended with a pause and were continued
    escalations: nat,  // turns that a soft requirement forced
    injections: nat,   // times the loop went on because of queued messages
    activations: nat)  // soft requirements taken up, and one carried in

  datatype Loop = Loop(
    choice: HardChoice, context: seq<Message>, produced: seq<Message>, log: seq<Emitted>, point: Point,
    pending: seq<int>, turnOpen: bool, hasMore: bool, retry: nat, resumes: nat, paused: nat,
    resolved: bool, required: Option<Requirement>, softId: Option<int>, escalations: nat, forced: Option<int>,
    tally: Tally)

  datatype Event =
    | Begin(late: bool, queued: seq<int>, order: seq<nat>, terminal: bool)
    | Leave                                             // nothing more to do in the inner loop
    | Late                                              // the deadline has passed at the head
    | Stop(directive: Directive)                        // the gate stops the run before the model call
    | Call(directive: Directive)
    | Reply(message: Message)
    | Leak                                              // the answer leaked and is dropped
    | Recover(message: Message)                         // it leaked and is cut short
    | Close(late: bool, order: seq<nat>, terminal: bool)
    | Poll(late: bool, steering: seq<int>, asides: seq<int>)
    | Drain(late: bool, queued: seq<int>)
    | Fail(partial: Option<Message>)                    // a hook or the provider throws

  function Start(choice: HardChoice, context: seq<Message>, prompts: seq<Message>, softId: Option<int>, escalations: nat, forced: Option<int>): Loop {
    Loop(choice, context, prompts, [], Entry, [], false, true, 0, 0, 0, false, None, softId, escalations, forced,
      Tally(0, 0, 0, 0, 0, 0, if softId.Some? then 1 else 0))
  }

  // ---------- the parts of a step ----------

  /** The assistant message at the end of the context whose calls are still to be run (`unpairedToolCallTail`). */
  function UnpairedTail(ms: seq<Message>): Option<Message> {
    if ms == [] then None
    else
      var tail := ms[|ms| - 1];
      if tail.Assistant? && (tail.stop == ToolUse || tail.stop == EndTurn) && Calls(tail) != [] then Some(tail) else None
  }

  function HardToolChoiceBlocks(choice: HardChoice, tool: int): bool {
    match choice
    case Unset => false
    case Auto => false
    case NoTool => true
    case AnyTool => false
    case Computer => tool != COMPUTER_TOOL
    case Named(name) => name != tool
  }

  predicate Satisfies(r: Requirement, b: Block) {
    if r.accepts.Some? then b.shape in r.accepts.value else b.name == r.tool
  }

  function Add(s: Loop, ms: seq<Message>): Loop {
    s.(context := s.context + ms, produced := s.produced + ms)
  }

  function Log(s: Loop, es: seq<Emitted>): Loop {
    s.(log := s.log + es)
  }

  /** `emitTurnEnd`, after the results have been added. */
  function EndTurnWith(s: Loop, m: Message, results: seq<Message>): Loop {
    var added := Add(s, results);
    Log(added.(turnOpen := false), [TurnEnd(m, results, |added.context|)])
  }

  function Finish(s: Loop): Loop {
    Log(s, [AgentEnd]).(point := Done)
  }

  /** The messages that wait are put into the context. */
  function Inject(s: Loop): Loop {
    Add(s, Plains(s.pending)).(pending := [])
  }

  /** The directive of this turn, asked for once and kept over leak retries. */
  function Resolve(s: Loop, d: Directive): Loop {
    if s.resolved then s
    else
      match d
      case Soft(id, requirement, reminder) =>
        var known := s.(resolved := true, required := Some(requirement));
        if s.softId == Some(id) then known
        else
          Add(known, Plains(reminder)).(softId := Some(id), escalations := 0, forced := None,
            tally := s.tally.(activations := s.tally.activations + 1))
      case _ => s.(resolved := true, required := None, softId := None, escalations := 0, forced := None)
  }

  function OpenTurn(s: Loop): Loop {
    if s.turnOpen then s else Log(s.(turnOpen := true), [TurnStart])
  }

  const GATE_STOP := Assistant(Aborted, [], false)

  function Stopped(s: Loop): Loop {
    if s.turnOpen then Finish(EndTurnWith(Add(s, [GATE_STOP]), GATE_STOP, [])) else Finish(s)
  }

  function Called(s: Loop): Loop {
    var inTurn := OpenTurn(s);
    Log(inTurn, [ModelCall(|s.context|)]).(point := Calling, tally := s.tally.(calls := s.tally.calls + 1))
  }

  /** The answer is taken into the context, however it came about. */
  function Accept(s: Loop, m: Message): Loop {
    Add(s, [m]).(point := Answered(m), forced := None, resolved := false, retry := 0,
      tally := s.tally.(answers := s.tally.answers + 1))
  }

  /** The soft requirement is in force and the turn did something else than call the tool. */
  predicate NonCompliant(s: Loop, calls: seq<Block>) {
    && s.required.Some?
    && !HardToolChoiceBlocks(s.choice, s.required.value.tool)
    && !(calls != [] && forall k :: 0 <= k < |calls| ==> Satisfies(s.required.value, calls[k]))
  }

  /** The turn's results, and whether the loop goes on because of them. */
  function Results(s: Loop, m: Message, late: bool, order: seq<nat>): (seq<Message>, bool)
    requires forall k :: 0 <= k < |order| ==> order[k] < |Calls(m)|
    requires m.Assistant?
  {
    var calls := Calls(m);
    if NonCompliant(s, calls) then (Placeholders(calls, Skipped), true)
    else if (m.stop == ToolUse || m.stop == EndTurn) && calls != [] && !late then (Executions(calls, order), true)
    else if late then (Placeholders(calls, Failed), false)
    else if m.stop == Length then (Placeholders(calls, Truncated), calls != [])
    else (Placeholders(calls, Skipped), false)
  }

  function CloseTurn(s: Loop, m: Message, late: bool, order: seq<nat>, terminal: bool): Loop
    requires forall k :: 0 <= k < |order| ==> order[k] < |Calls(m)|
    requires m.Assistant?
  {
    var calls := Calls(m);
    if m.stop == Error || m.stop == Aborted then Finish(EndTurnWith(s, m, Placeholders(calls, Failed)))
    else if NonCompliant(s, calls) && s.escalations >= MAX_SOFT_TOOL_ESCALATIONS then s.(point := Thrown)
    else
      var gated := NonCompliant(s, calls);
      var (results, more) := Results(s, m, late, order);
      var hasMore := more && !terminal;
      var pauses := calls == [] && !hasMore && m.stop == EndTurn && m.paused && s.paused < MAX_PAUSED_TURN_CONTINUATIONS;
      var tally := s.tally.(
        toolTurns := s.tally.toolTurns + (if calls != [] then 1 else 0),
        escalations := s.tally.escalations + (if gated then 1 else 0),
        pauses := s.tally.pauses + (if pauses then 1 else 0));
      var counted := s.(
        escalations := s.escalations + (if gated then 1 else 0),
        forced := if gated then Some(s.required.value.tool) else s.forced,
        paused := if calls != [] then 0 else if pauses then s.paused + 1 else s.paused,
        hasMore := hasMore || pauses,
        tally := tally);
      EndTurnWith(counted, m, results).(point := Boundary)
  }

  function Injected(s: Loop, queued: seq<int>): Loop {
    s.(pending := queued, tally := s.tally.(injections := s.tally.injections + (if queued == [] then 0 else 1)))
  }

  predicate GoesOn(s: Loop) {
    s.hasMore || s.pending != []
  }

  predicate Enabled(s: Loop, e: Event) {
    match e
    case Begin(_, _, order, _) =>
      s.point == Entry
      && (UnpairedTail(s.context).Some? ==> EachOnce(order, |Calls(UnpairedTail(s.context).value)|))
    case Leave => s.point == Head && !GoesOn(s)
    case Late => s.point == Head && GoesOn(s)
    case Stop(_) => s.point == Head && GoesOn(s)
    case Call(_) => s.point == Head && GoesOn(s)
    case Reply(m) => s.point == Calling && m.Assistant?
    case Leak => s.point == Calling
    case Recover(m) => s.point == Calling && m.Assistant?
    case Close(_, order, _) => s.point.Answered? && s.point.message.Assistant? && EachOnce(order, |Calls(s.point.message)|)
    case Poll(_, _, _) => s.point == Boundary
    case Drain(_, _) => s.point == Draining
    case Fail(partial) =>
      && s.point != Done && s.point != Thrown && (partial.Some? ==> s.point == Calling && partial.value.Assistant?)
  }

  function Begun(s: Loop, late: bool, queued: seq<int>, order: seq<nat>, terminal: bool): Loop
    requires Enabled(s, Begin(late, queued, order, terminal))
  {
    if late then Finish(s)
    else
      var tail := UnpairedTail(s.context);
      var polled := s.(pending := queued, point := Head);
      if tail.None? then polled
      else
        var ended := EndTurnWith(OpenTurn(polled), tail.value, Executions(Calls(tail.value), order));
        if terminal then Finish(ended) else ended
  }

  function Apply(s: Loop, e: Event): Loop
    requires Enabled(s, e)
  {
    match e
    case Begin(late, queued, order, terminal) => Begun(s, late, queued, order, terminal)
    case Leave => s.(point := Draining)
    case Late => Finish(s)
    case Stop(d) => Stopped(Resolve(Inject(s), d))
    case Call(d) => Called(Resolve(Inject(s), d))
    case Reply(m) => Accept(s, m).(resumes := 0)
    case Leak => if s.retry >= MAX_LEAK_RETRIES then s.(point := Thrown) else s.(point := Head, retry := s.retry + 1)
    case Recover(m) => if s.resumes >= MAX_LEAK_RESUMES then s.(point := Thrown) else Accept(s, m).(resumes := s.resumes + 1)
    case Close(late, order, terminal) => CloseTurn(s, s.point.message, late, order, terminal)
    case Poll(late, steering, asides) =>
      if late then Finish(s)
      else Injected(s, if s.hasMore then steering + asides else steering).(point := Head)
    case Drain(late, queued) =>
      if late || queued == [] then Finish(s) else Injected(s, queued).(point := Head, hasMore := true)
    case Fail(partial) =>
      (if partial.Some? then s.(context := s.context + [partial.value]) else s).(point := Thrown)
  }

  predicate IsRun(s: Loop, events: seq<Event>)
    decreases |events|
  {
    events == [] || (Enabled(s, events[0]) && IsRun(Apply(s, events[0]), events[1..]))
  }

  function After(s: Loop, events: seq<Event>): Loop
    requires IsRun(s, events)
    decreases |events|
  {
    if events == [] then s else After(Apply(s, events[0]), events[1..])
  }

  // ---------- the results answer the calls ----------

  lemma {:induction false} PlaceholdersAnswer(calls: seq<Block>, outcome: Outcome)
    ensures AnsweredBy(Placeholders(calls, outcome)) == calls
    ensures |Placeholders(calls, outcome)| == |calls|
    ensures (forall k :: 0 <= k < |calls| ==> !calls[k].execResolved) ==> AllResults(Placeholders(calls, outcome))
  {
    if calls != [] {
      PlaceholdersAnswer(calls[1..], outcome);
    }
  }

  lemma {:induction false} RunnableAreNotResolved(blocks: seq<Block>)
    ensures forall k :: 0 <= k < |Runnable(blocks)| ==> !Runnable(blocks)[k].execResolved
  {
    if blocks != [] {
      RunnableAreNotResolved(blocks[1..]);
    }
  }

  lemma PlaceholdersPair(m: Message, outcome: Outcome)
    requires m.Assistant?
    ensures Paired(m, Placeholders(Calls(m), outcome))
  {
    PlaceholdersAnswer(Calls(m), outcome);
    RunnableAreNotResolved(m.blocks);
  }

  /** The blocks picked out by an order. */
  function Picked(blocks: seq<Block>, order: seq<nat>): seq<Block>
    requires forall k :: 0 <= k < |order| ==> order[k] < |blocks|
  {
    if order == [] then [] else [blocks[order[0]]] + Picked(blocks, order[1..])
  }

  lemma {:induction false} ExecutionsAnswer(blocks: seq<Block>, order: seq<nat>)
    requires forall k :: 0 <= k < |order| ==> order[k] < |blocks|
    ensures AnsweredBy(Executions(blocks, order)) == Picked(blocks, order)
    ensures |Executions(blocks, order)| == |order|
    ensures (forall k :: 0 <= k < |blocks| ==> !blocks[k].execResolved) ==> AllResults(Executions(blocks, order))
  {
    if order != [] {
      ExecutionsAnswer(blocks, order[1..]);
    }
  }

  function Without(order: seq<nat>, k: nat): seq<nat>
    requires k < |order|
  {
    order[..k] + order[k + 1..]
  }

  lemma {:induction false} PickedWithout(blocks: seq<Block>, order: seq<nat>, k: nat)
    requires k < |order| && forall j :: 0 <= j < |order| ==> order[j] < |blocks|
    ensures multiset(Picked(blocks, order)) == multiset(Picked(blocks, Without(order, k))) + multiset{blocks[order[k]]}
    decreases |order|
  {
    if k == 0 {
      assert Without(order, k) == order[1..];
    } else {
      assert Without(order, k)[0] == order[0];
      assert Without(order, k)[1..] == Without(order[1..], k - 1);
      PickedWithout(blocks, order[1..], k - 1);
    }
  }

  /** An order that names one of n numbers more than once leaves another out. */
  lemma {:induction false} HasLast(order: seq<nat>, n: nat) returns (k: nat)
    requires EachOnce(order, n) && n > 0
    ensures k < n && order[k] == n - 1
  {
    if !exists j :: 0 <= j < n && order[j] == n - 1 {
      TooMany(order, n - 1);
    }
    k :| k < n && order[k] == n - 1;
  }

  lemma {:induction false} TooMany(order: seq<nat>, n: nat)
    requires |order| > n && forall k :: 0 <= k < |order| ==> order[k] < n
    requires forall j, k :: 0 <= j < k < |order| ==> order[j] != order[k]
    ensures false
    decreases n
  {
    assert order[0] < n;
    if k :| 0 <= k < |order| && order[k] == n - 1 {
      TooMany(Without(order, k), n - 1);
    } else {
      TooMany(order, n - 1);
    }
  }

  lemma WithoutLast(order: seq<nat>, n: nat, k: nat)
    requires EachOnce(order, n) && k < n && order[k] == n - 1
    ensures EachOnce(Without(order, k), n - 1)
  {
  }

  lemma OneMore(blocks: seq<Block>, n: nat)
    requires n < |blocks|
    ensures multiset(blocks[..n + 1]) == multiset(blocks[..n]) + multiset{blocks[n]}
  {
    assert blocks[..n + 1] == blocks[..n] + [blocks[n]];
  }

  lemma {:induction false} PickedEach(blocks: seq<Block>, order: seq<nat>, n: nat)
    requires EachOnce(order, n) && n <= |blocks|
    ensures multiset(Picked(blocks, order)) == multiset(blocks[..n])
    decreases n
  {
    if n > 0 {
      var k := HasLast(order, n);
      WithoutLast(order, n, k);
      PickedWithout(blocks, order, k);
      OneMore(blocks, n - 1);
      hide Picked, EachOnce, Without;
      PickedEach(blocks, Without(order, k), n - 1);
    }
  }

  lemma ExecutionsPair(m: Message, order: seq<nat>)
    requires m.Assistant? && EachOnce(order, |Calls(m)|)
    ensures Paired(m, Executions(Calls(m), order))
  {
    ExecutionsAnswer(Calls(m), order);
    PickedEach(Calls(m), order, |Calls(m)|);
    assert Calls(m)[..|Calls(m)|] == Calls(m);
    RunnableAreNotResolved(m.blocks);
  }

  lemma ResultsPair(s: Loop, m: Message, late: bool, order: seq<nat>)
    requires m.Assistant? && EachOnce(order, |Calls(m)|)
    ensures Paired(m, Results(s, m, late, order).0)
  {
    PlaceholdersPair(m, Skipped);
    PlaceholdersPair(m, Failed);
    PlaceholdersPair(m, Truncated);
    ExecutionsPair(m, order);
  }

  // ---------- every turn ends paired ----------

  /** The context up to the end of the turn closes with the turn's message and its results. */
  predicate EndsAt(context: seq<Message>, e: Emitted) {
    e.TurnEnd? ==>
      && Paired(e.message, e.results) && 1 + |e.results| <= e.at <= |context|
      && context[e.at - |e.results| - 1..e.at] == [e.message] + e.results
  }

  /** At a model call the context is well paired. */
  predicate CallsOn(context: seq<Message>, e: Emitted) {
    e.ModelCall? ==> e.at <= |context| && WellPaired(context[..e.at])
  }

  predicate LogOk(s: Loop) {
    forall k :: 0 <= k < |s.log| ==> EndsAt(s.context, s.log[k]) && CallsOn(s.context, s.log[k])
  }

  /** All is well paired but for an assistant message at the end. */
  predicate PairedBefore(ms: seq<Message>) {
    ms != [] && ms[|ms| - 1].Assistant? && WellPaired(ms[..|ms| - 1])
  }

  predicate ContextOk(s: Loop) {
    match s.point
    case Entry => WellPaired(s.context) || (UnpairedTail(s.context).Some? && PairedBefore(s.context))
    case Answered(m) => PairedBefore(s.context) && s.context[|s.context| - 1] == m
    case Thrown => WellPaired(s.context) || PairedBefore(s.context)
    // a run whose deadline has passed before it began leaves the context as it was
    case Done => WellPaired(s.context) || (PairedBefore(s.context) && s.log == [AgentEnd])
    case _ => WellPaired(s.context)
  }

  lemma GrowsKeeps(context: seq<Message>, more: seq<Message>, e: Emitted)
    requires EndsAt(context, e) && CallsOn(context, e)
    ensures EndsAt(context + more, e) && CallsOn(context + more, e)
  {
    if e.TurnEnd? {
      assert (context + more)[e.at - |e.results| - 1..e.at] == context[e.at - |e.results| - 1..e.at];
    } else if e.ModelCall? {
      assert (context + more)[..e.at] == context[..e.at];
    }
  }

  lemma AddKeeps(s: Loop, ms: seq<Message>)
    requires LogOk(s)
    ensures LogOk(Add(s, ms))
  {
    hide EndsAt, CallsOn;
    forall k | 0 <= k < |s.log| ensures EndsAt(s.context + ms, s.log[k]) && CallsOn(s.context + ms, s.log[k]) {
      GrowsKeeps(s.context, ms, s.log[k]);
    }
  }

  lemma LogKeeps(s: Loop, e: Emitted)
    requires LogOk(s) && EndsAt(s.context, e) && CallsOn(s.context, e)
    ensures LogOk(Log(s, [e]))
  {
    hide EndsAt, CallsOn;
    var c := Log(s, [e]);
    forall k | 0 <= k < |c.log| ensures EndsAt(c.context, c.log[k]) && CallsOn(c.context, c.log[k]) {
      if k < |s.log| {
        assert c.log[k] == s.log[k];
      } else {
        assert c.log[k] == e;
      }
    }
  }

  lemma PlainLogKeeps(s: Loop, e: Emitted)
    requires LogOk(s) && (e == TurnStart || e == AgentEnd)
    ensures LogOk(Log(s, [e]))
  {
    hide LogOk;
    LogKeeps(s, e);
  }

  lemma TurnAppended(before: seq<Message>, m: Message, results: seq<Message>)
    requires WellPaired(before) && m.Assistant? && Paired(m, results)
    ensures WellPaired(before + ([m] + results))
  {
    TurnIsPaired(m, results);
    PairedThenPaired(before, [m] + results);
  }

  lemma SplitLast(ms: seq<Message>, m: Message)
    requires PairedBefore(ms) && ms[|ms| - 1] == m
    ensures WellPaired(ms[..|ms| - 1]) && ms == ms[..|ms| - 1] + [m] && m.Assistant?
  {
  }

  lemma EndsHere(before: seq<Message>, m: Message, results: seq<Message>)
    requires Paired(m, results)
    ensures EndsAt(before + ([m] + results), TurnEnd(m, results, |before + ([m] + results)|))
  {
    hide Paired;
    var all := before + ([m] + results);
    assert all[|all| - |results| - 1..|all|] == [m] + results;
  }

  /** The results after the message close its turn. */
  lemma EndTurnOk(s: Loop, m: Message, results: seq<Message>)
    requires LogOk(s) && PairedBefore(s.context) && s.context[|s.context| - 1] == m && Paired(m, results)
    ensures LogOk(EndTurnWith(s, m, results)) && WellPaired(EndTurnWith(s, m, results).context)
  {
    hide LogOk, WellPaired, Paired;
    SplitLast(s.context, m);
    hide PairedBefore, EndsAt;
    var before := s.context[..|s.context| - 1];
    TurnAppended(before, m, results);
    EndsHere(before, m, results);
    Regroup(before, [m], results);
    AddKeeps(s, results);
    EndTurnLogged(Add(s, results), TurnEnd(m, results, |s.context + results|));
  }

  lemma EndTurnLogged(added: Loop, e: Emitted)
    requires LogOk(added) && e.TurnEnd? && EndsAt(added.context, e)
    ensures LogOk(Log(added.(turnOpen := false), [e]))
  {
    LogKeeps(added.(turnOpen := false), e);
  }

  /** Well paired, and the log agrees with it. */
  predicate Sound(s: Loop) {
    WellPaired(s.context) && LogOk(s)
  }

  lemma InjectSound(s: Loop, ids: seq<int>)
    requires Sound(s)
    ensures Sound(Add(s, Plains(ids)))
  {
    PlainsArePaired(ids);
    PairedThenPaired(s.context, Plains(ids));
    hide LogOk, WellPaired;
    AddKeeps(s, Plains(ids));
  }

  lemma SameSound(s: Loop, c: Loop)
    requires Sound(s) && c.context == s.context && c.log == s.log
    ensures Sound(c)
  {
  }

  lemma PreparedSound(s: Loop, d: Directive)
    requires Sound(s)
    ensures Sound(Resolve(Inject(s), d))
  {
    hide Sound, Plains;
    InjectSound(s, s.pending);
    var i := Inject(s);
    SameSound(Add(s, Plains(s.pending)), i);
    if !i.resolved && d.Soft? && i.softId != Some(d.id) {
      InjectSound(i, d.reminder);
      SameSound(Add(i, Plains(d.reminder)), Resolve(i, d));
    } else {
      SameSound(i, Resolve(i, d));
    }
  }

  lemma CalledSound(s: Loop)
    requires Sound(s)
    ensures Sound(Called(s))
  {
    var inTurn := OpenTurn(s);
    PlainLogKeeps(s, TurnStart);
    SameSound(if s.turnOpen then s else Log(s, [TurnStart]), inTurn);
    assert s.context[..|s.context|] == s.context;
    hide LogOk, WellPaired;
    LogKeeps(inTurn, ModelCall(|s.context|));
    SameSound(Log(inTurn, [ModelCall(|s.context|)]), Called(s));
  }

  lemma FinishSound(s: Loop)
    requires Sound(s)
    ensures Sound(Finish(s))
  {
    hide LogOk;
    PlainLogKeeps(s, AgentEnd);
    LogSame(Log(s, [AgentEnd]), Finish(s));
  }

  lemma LogSame(s: Loop, c: Loop)
    requires LogOk(s) && c.context == s.context && c.log == s.log
    ensures LogOk(c)
  {
  }

  /** An assistant message has come to the end of a well-paired context. */
  lemma MessageAdded(s: Loop, m: Message)
    requires Sound(s) && m.Assistant?
    ensures LogOk(Add(s, [m])) && PairedBefore(Add(s, [m]).context) && Add(s, [m]).context[|s.context|] == m
  {
    AddKeeps(s, [m]);
    assert (s.context + [m])[..|s.context|] == s.context;
  }

  lemma StoppedSound(s: Loop)
    requires Sound(s)
    ensures Sound(Stopped(s))
  {
    if s.turnOpen {
      MessageAdded(s, GATE_STOP);
      assert Paired(GATE_STOP, []);
      hide LogOk, WellPaired, Paired;
      var c := EndTurnWith(Add(s, [GATE_STOP]), GATE_STOP, []);
      EndTurnOk(Add(s, [GATE_STOP]), GATE_STOP, []);
      FinishSound(c);
    } else {
      FinishSound(s);
    }
  }

  /** What the end of a turn leaves behind, however its counters stand. */
  lemma TurnSound(s: Loop, m: Message, results: seq<Message>, c: Loop)
    requires PairedBefore(s.context) && s.context[|s.context| - 1] == m && LogOk(s) && Paired(m, results)
    requires c.context == EndTurnWith(s, m, results).context && c.log == EndTurnWith(s, m, results).log
    ensures Sound(c)
  {
    hide LogOk, WellPaired, Paired, PairedBefore, EndTurnWith;
    EndTurnOk(s, m, results);
    LogSame(EndTurnWith(s, m, results), c);
  }

  lemma CloseShape(s: Loop, m: Message, late: bool, order: seq<nat>, terminal: bool)
    requires m.Assistant? && EachOnce(order, |Calls(m)|)
    ensures var c := CloseTurn(s, m, late, order, terminal);
      if m.stop == Error || m.stop == Aborted then c == Finish(EndTurnWith(s, m, Placeholders(Calls(m), Failed)))
      else if NonCompliant(s, Calls(m)) && s.escalations >= MAX_SOFT_TOOL_ESCALATIONS then c == s.(point := Thrown)
      else
        var t := EndTurnWith(s, m, Results(s, m, late, order).0);
        c.context == t.context && c.log == t.log && c.point == Boundary
  {
    hide NonCompliant, Results, Calls;
  }

  lemma CloseSound(s: Loop, m: Message, late: bool, order: seq<nat>, terminal: bool)
    requires m.Assistant? && EachOnce(order, |Calls(m)|)
    requires PairedBefore(s.context) && s.context[|s.context| - 1] == m && LogOk(s)
    ensures var c := CloseTurn(s, m, late, order, terminal);
      c == s.(point := Thrown) || (Sound(c) && (c.point == Boundary || c.point == Done))
  {
    PlaceholdersPair(m, Failed);
    ResultsPair(s, m, late, order);
    CloseShape(s, m, late, order, terminal);
    var c := CloseTurn(s, m, late, order, terminal);
    var results := if m.stop == Error || m.stop == Aborted then Placeholders(Calls(m), Failed) else Results(s, m, late, order).0;
    var t := EndTurnWith(s, m, results);
    hide LogOk, WellPaired, Paired, Results, CloseTurn, NonCompliant, PairedBefore, Placeholders, EndTurnWith, EachOnce, Calls;
    TurnSound(s, m, results, t);
    FinishSound(t);
    if c.point == Boundary {
      SameSound(t, c);
    }
  }

  lemma TailSound(s: Loop, queued: seq<int>, order: seq<nat>, terminal: bool)
    requires Enabled(s, Begin(false, queued, order, terminal)) && UnpairedTail(s.context).Some?
    requires PairedBefore(s.context) && s.log == []
    ensures var c := Begun(s, false, queued, order, terminal);
      Sound(c) && (c.point == Done || c.point == Head)
  {
    var m := UnpairedTail(s.context).value;
    ExecutionsPair(m, order);
    var inTurn := OpenTurn(s.(pending := queued, point := Head));
    assert LogOk(inTurn);
    var results := Executions(Calls(m), order);
    hide LogOk, WellPaired, Paired, Executions, PairedBefore, EachOnce;
    var ended := EndTurnWith(inTurn, m, results);
    TurnSound(inTurn, m, results, ended);
    FinishSound(ended);
  }

  lemma BegunPlain(s: Loop, late: bool, queued: seq<int>, order: seq<nat>, terminal: bool)
    requires Enabled(s, Begin(late, queued, order, terminal)) && ContextOk(s) && s.log == []
    requires late || UnpairedTail(s.context).None?
    ensures var c := Begun(s, late, queued, order, terminal);
      ContextOk(c) && LogOk(c)
  {
    hide UnpairedTail, WellPaired, PairedBefore, Paired;
  }

  lemma BegunSound(s: Loop, late: bool, queued: seq<int>, order: seq<nat>, terminal: bool)
    requires Enabled(s, Begin(late, queued, order, terminal)) && ContextOk(s) && s.log == []
    ensures var c := Begun(s, late, queued, order, terminal);
      ContextOk(c) && LogOk(c)
  {
    hide LogOk, WellPaired, PairedBefore, UnpairedTail, Begun;
    if late || UnpairedTail(s.context).None? {
      BegunPlain(s, late, queued, order, terminal);
    } else {
      if WellPaired(s.context) {
        TailIsUnpaired(s.context);
      }
      TailSound(s, queued, order, terminal);
    }
  }

  lemma UnitHasNoTail(m: Message, results: seq<Message>)
    requires Paired(m, results)
    ensures UnpairedTail([m] + (results + [])).None?
  {
    if results != [] {
      assert ([m] + (results + []))[|results|] == results[|results| - 1];
    }
  }

  lemma TailOfRest(m: Message, results: seq<Message>, rest: seq<Message>)
    requires rest != []
    ensures UnpairedTail([m] + (results + rest)) == UnpairedTail(rest)
  {
  }

  /** A context cannot end both well paired and with calls that still have to be run. */
  lemma {:induction false} TailIsUnpaired(ms: seq<Message>)
    requires UnpairedTail(ms).Some? && WellPaired(ms)
    ensures false
    decreases |ms|
  {
    var results, rest := FirstUnit(ms);
    hide Paired, WellPaired, UnpairedTail;
    if rest == [] {
      UnitHasNoTail(ms[0], results);
    } else {
      TailOfRest(ms[0], results, rest);
      TailIsUnpaired(rest);
    }
  }

  lemma AcceptSound(s: Loop, m: Message)
    requires Sound(s) && m.Assistant?
    ensures ContextOk(Accept(s, m)) && LogOk(Accept(s, m))
  {
    hide LogOk, WellPaired, PairedBefore;
    MessageAdded(s, m);
    LogSame(Add(s, [m]), Accept(s, m));
  }

  /** The invariant of pairing. */
  predicate PairingOk(s: Loop) {
    ContextOk(s) && LogOk(s) && (s.point == Entry ==> s.log == [])
  }

  lemma SoundIsOk(s: Loop)
    requires Sound(s) && s.point != Entry && !s.point.Answered?
    ensures PairingOk(s)
  {
  }

  lemma HeadStep(s: Loop, e: Event)
    requires Enabled(s, e) && Sound(s) && s.point == Head
    ensures PairingOk(Apply(s, e))
  {
    hide Sound, PairingOk, Resolve, Inject, Called, Stopped, Finish;
    match e {
      case Leave => SameSound(s, Apply(s, e));
      case Late => FinishSound(s);
      case Stop(d) =>
        PreparedSound(s, d);
        StoppedSound(Resolve(Inject(s), d));
      case Call(d) =>
        PreparedSound(s, d);
        CalledSound(Resolve(Inject(s), d));
      case Fail(partial) => SameSound(s, Apply(s, e));
    }
    PointAfterHead(s, e);
    SoundIsOk(Apply(s, e));
  }

  lemma PointAfterHead(s: Loop, e: Event)
    requires Enabled(s, e) && s.point == Head
    ensures Apply(s, e).point != Entry && !Apply(s, e).point.Answered?
  {
    hide Resolve, Inject;
  }

  lemma FailSound(s: Loop, partial: Option<Message>)
    requires Sound(s) && Enabled(s, Fail(partial))
    ensures PairingOk(Apply(s, Fail(partial)))
  {
    hide LogOk, WellPaired, PairedBefore;
    if partial.Some? {
      MessageAdded(s, partial.value);
      LogSame(Add(s, [partial.value]), Apply(s, Fail(partial)));
    } else {
      LogSame(s, Apply(s, Fail(partial)));
    }
  }

  lemma AnswerStep(s: Loop, m: Message, resumes: nat)
    requires Sound(s) && m.Assistant?
    ensures PairingOk(Accept(s, m).(resumes := resumes))
  {
    hide LogOk, WellPaired, PairedBefore, Accept;
    AcceptSound(s, m);
    LogSame(Accept(s, m), Accept(s, m).(resumes := resumes));
    AcceptPoint(s, m);
  }

  lemma CallingStep(s: Loop, e: Event)
    requires Enabled(s, e) && Sound(s) && s.point == Calling
    ensures PairingOk(Apply(s, e))
  {
    var c := Apply(s, e);
    if e.Fail? {
      FailSound(s, e.partial);
    } else {
      hide PairingOk, Sound, Accept;
      if !e.Leak? && c.point == Answered(e.message) {
        AnswerStep(s, e.message, c.resumes);
      } else {
        AcceptNot(s, e);
        SameSound(s, c);
        SoundIsOk(c);
      }
    }
  }

  lemma AcceptNot(s: Loop, e: Event)
    requires Enabled(s, e) && s.point == Calling && !e.Fail?
    requires e.Leak? || Apply(s, e).point != Answered(e.message)
    ensures Apply(s, e).context == s.context && Apply(s, e).log == s.log
    ensures Apply(s, e).point == Head || Apply(s, e).point == Thrown
  {
  }

  lemma AcceptPoint(s: Loop, m: Message)
    ensures Accept(s, m).point == Answered(m)
  {
  }

  lemma QueueStep(s: Loop, e: Event)
    requires Enabled(s, e) && Sound(s) && (s.point == Boundary || s.point == Draining)
    ensures PairingOk(Apply(s, e))
  {
    var c := Apply(s, e);
    hide Sound, PairingOk;
    FinishSound(s);
    SameSound(if c.point == Done then Finish(s) else s, c);
    SoundIsOk(c);
  }

  lemma StepSound(s: Loop, e: Event)
    requires Enabled(s, e) && PairingOk(s)
    ensures PairingOk(Apply(s, e))
  {
    hide LogOk, WellPaired, PairedBefore, Apply;
    if s.point == Head {
      HeadStep(s, e);
    } else if s.point == Calling {
      CallingStep(s, e);
    } else if s.point == Boundary || s.point == Draining {
      QueueStep(s, e);
    } else if e.Fail? {
      ThrownOk(s);
    } else if e.Begin? {
      BeginStep(s, e);
    } else {
      CloseStep(s, e);
    }
  }

  lemma ThrownOk(s: Loop)
    requires Enabled(s, Fail(None)) && PairingOk(s)
    ensures PairingOk(Apply(s, Fail(None)))
  {
    hide LogOk, WellPaired, PairedBefore;
    LogSame(s, Apply(s, Fail(None)));
  }

  lemma BeginStep(s: Loop, e: Event)
    requires Enabled(s, e) && PairingOk(s) && e.Begin?
    ensures PairingOk(Apply(s, e))
  {
    hide LogOk, WellPaired, PairedBefore, Begun, EachOnce;
    BegunSound(s, e.late, e.queued, e.order, e.terminal);
    BegunPoint(s, e.late, e.queued, e.order, e.terminal);
  }

  lemma BegunPoint(s: Loop, late: bool, queued: seq<int>, order: seq<nat>, terminal: bool)
    requires Enabled(s, Begin(late, queued, order, terminal))
    ensures Begun(s, late, queued, order, terminal).point != Entry
  {
    hide EachOnce, Executions, UnpairedTail;
  }

  lemma CloseStep(s: Loop, e: Event)
    requires Enabled(s, e) && PairingOk(s) && e.Close?
    ensures PairingOk(Apply(s, e))
  {
    hide LogOk, WellPaired, PairedBefore, CloseTurn;
    var c := Apply(s, e);
    CloseSound(s, s.point.message, e.late, e.order, e.terminal);
    if c.point == Thrown {
      LogSame(s, c);
    } else {
      SoundIsOk(c);
    }
  }

  lemma {:induction false} RunSound(s: Loop, events: seq<Event>)
    requires PairingOk(s) && IsRun(s, events)
    ensures PairingOk(After(s, events))
    decreases |events|
  {
    hide PairingOk, Enabled, Apply;
    if events != [] {
      StepSound(s, events[0]);
      RunSound(Apply(s, events[0]), events[1..]);
    }
  }

  /**
   In every run from a context whose calls have their results, or all but those of its last message:
   each turn ends with its message and one result per call standing together in the context, every
   model call sees a context in which this holds throughout, and so does whoever takes the context
   over when the run is over.
   */
  lemma TurnsEndPaired(s: Loop, events: seq<Event>)
    requires s.point == Entry && s.log == [] && ContextOk(s) && IsRun(s, events)
    ensures var c := After(s, events);
      && (forall k :: 0 <= k < |c.log| && c.log[k].TurnEnd? ==> EndsAt(c.context, c.log[k]))
      && (forall k :: 0 <= k < |c.log| && c.log[k].ModelCall? ==> CallsOn(c.context, c.log[k]))
      && (c.point == Done ==> WellPaired(c.context) || c.log == [AgentEnd])
      && (c.point == Thrown ==> WellPaired(c.context) || PairedBefore(c.context))
  {
    RunSound(s, events);
  }

  // ---------- how often the model is called ----------

  function Causes(t: Tally): nat {
    t.injections + t.toolTurns + t.pauses + t.escalations
  }

  predicate CountsOk(s: Loop) {
    var t := s.tally;
    && t.calls <= 3 * t.answers + s.retry + (if s.point == Calling || s.point == Thrown then 1 else 0)
    && s.retry <= MAX_LEAK_RETRIES
    && t.answers <= 1 + Causes(t)
    && (s.point == Head && GoesOn(s) ==> t.answers <= Causes(t))
    && (s.point == Boundary && s.hasMore ==> t.answers <= Causes(t))
    && (s.point == Calling || s.retry > 0 ==> t.answers <= Causes(t))
    && (s.point == Entry ==> t.answers == 0 && s.pending == [])
    && (s.point == Boundary || s.point.Answered? ==> s.pending == [] && s.retry == 0)
    && (s.point == Calling ==> s.pending == [])
    && (s.point == Thrown && t.calls == 3 * t.answers + s.retry + 1 ==> t.answers <= Causes(t))
    && t.pauses <= MAX_PAUSED_TURN_CONTINUATIONS * t.toolTurns + s.paused
    && s.paused <= MAX_PAUSED_TURN_CONTINUATIONS
    && (s.required.Some? ==> s.softId.Some?)
    && (if s.softId.Some?
        then t.activations > 0 && t.escalations <= 3 * (t.activations - 1) + (if s.escalations < 3 then s.escalations else 3)
        else t.escalations <= 3 * t.activations)
  }

  lemma ResolveCounts(s: Loop, d: Directive)
    requires CountsOk(s) && s.point == Head && s.pending == [] && s.tally.answers <= Causes(s.tally)
    ensures var c := Resolve(s, d);
      CountsOk(c) && c.point == Head && c.pending == [] && c.tally.answers <= Causes(c.tally)
  {
  }

  /** What the end of a turn does to the counters. */
  lemma CloseTally(s: Loop, m: Message, late: bool, order: seq<nat>, terminal: bool)
    requires m.Assistant? && EachOnce(order, |Calls(m)|)
    ensures var c := CloseTurn(s, m, late, order, terminal);
      || c == s.(context := c.context, produced := c.produced, log := c.log, turnOpen := false, point := Done)
      || c == s.(point := Thrown)
      || (c.point == Boundary
          && c.retry == s.retry && c.pending == s.pending && c.required == s.required && c.softId == s.softId
          && Counted(s, c, Calls(m) != [], NonCompliant(s, Calls(m)))
          && (NonCompliant(s, Calls(m)) ==> s.required.Some? && s.escalations < MAX_SOFT_TOOL_ESCALATIONS))
  {
    if NonCompliant(s, Calls(m)) {
      NonCompliantSoft(s, Calls(m));
    }
    hide NonCompliant, Calls, Executions, Placeholders, EachOnce;
  }

  lemma NonCompliantSoft(s: Loop, calls: seq<Block>)
    requires NonCompliant(s, calls)
    ensures s.required.Some?
  {
  }

  predicate Counted(s: Loop, c: Loop, tools: bool, gated: bool) {
    var pauses := c.tally.pauses - s.tally.pauses;
    && c.tally == s.tally.(
         toolTurns := s.tally.toolTurns + (if tools then 1 else 0),
         escalations := s.tally.escalations + (if gated then 1 else 0),
         pauses := c.tally.pauses)
    && (pauses == 0 || (pauses == 1 && !tools && s.paused < MAX_PAUSED_TURN_CONTINUATIONS))
    && c.paused == (if tools then 0 else s.paused + pauses)
    && c.escalations == s.escalations + (if gated then 1 else 0)
    && (c.hasMore ==> tools || gated || pauses == 1)
  }

  lemma CountsAfter(s: Loop, c: Loop, tools: bool, gated: bool)
    requires CountsOk(s) && s.point.Answered? && c.point == Boundary && Counted(s, c, tools, gated)
    requires c.retry == s.retry && c.pending == s.pending && c.required == s.required && c.softId == s.softId
    requires gated ==> s.required.Some? && s.escalations < MAX_SOFT_TOOL_ESCALATIONS
    ensures CountsOk(c)
  {
  }

  lemma CloseCounts(s: Loop, late: bool, order: seq<nat>, terminal: bool)
    requires CountsOk(s) && Enabled(s, Close(late, order, terminal))
    ensures CountsOk(CloseTurn(s, s.point.message, late, order, terminal))
  {
    var m := s.point.message;
    CloseTally(s, m, late, order, terminal);
    hide Calls, EachOnce, CloseTurn, NonCompliant, Counted;
    var c := CloseTurn(s, m, late, order, terminal);
    if c.point == Boundary {
      CountsAfter(s, c, Calls(m) != [], NonCompliant(s, Calls(m)));
    }
  }

  lemma HeadCounts(s: Loop, e: Event)
    requires CountsOk(s) && Enabled(s, e) && (e.Stop? || e.Call?)
    ensures CountsOk(Apply(s, e))
  {
    ResolveCounts(Inject(s), e.directive);
    hide Resolve, Plains;
    var c := Resolve(Inject(s), e.directive);
    CalledCounts(c);
    StoppedCounts(c);
  }

  lemma CalledCounts(s: Loop)
    requires CountsOk(s) && s.point == Head && s.pending == [] && s.tally.answers <= Causes(s.tally)
    ensures CountsOk(Called(s))
  {
  }

  lemma StoppedCounts(s: Loop)
    requires CountsOk(s) && s.point == Head
    ensures CountsOk(Stopped(s))
  {
  }

  lemma BeginCounts(s: Loop, e: Event)
    requires CountsOk(s) && Enabled(s, e) && e.Begin?
    ensures CountsOk(Apply(s, e))
  {
    BegunShape(s, e);
    BeganEntry(s, e);
    hide Apply, Enabled;
  }

  lemma AnswerCounts(s: Loop, e: Event)
    requires CountsOk(s) && Enabled(s, e) && s.point == Calling
    ensures CountsOk(Apply(s, e))
  {
    hide Begun, CloseTurn, Resolve, Called, Stopped, UnpairedTail, EachOnce, Calls;
  }

  lemma EndCounts(s: Loop, e: Event)
    requires CountsOk(s) && Enabled(s, e) && s.point != Calling && (e.Leave? || e.Late? || e.Fail?)
    ensures CountsOk(Apply(s, e))
  {
    hide Begun, CloseTurn, Resolve, Called, Stopped, UnpairedTail, EachOnce, Calls;
  }

  lemma PollCounts(s: Loop, e: Event)
    requires CountsOk(s) && Enabled(s, e) && e.Poll?
    ensures CountsOk(Apply(s, e))
  {
    hide Begun, CloseTurn, Resolve, Called, Stopped, UnpairedTail, EachOnce, Calls;
  }

  lemma DrainCounts(s: Loop, e: Event)
    requires CountsOk(s) && Enabled(s, e) && e.Drain?
    ensures CountsOk(Apply(s, e))
  {
    hide Begun, CloseTurn, Resolve, Called, Stopped, UnpairedTail, EachOnce, Calls;
  }

  lemma StepCounts(s: Loop, e: Event)
    requires CountsOk(s) && Enabled(s, e)
    ensures CountsOk(Apply(s, e))
  {
    if e.Close? {
      CloseCounts(s, e.late, e.order, e.terminal);
    } else {
      hide Apply, CountsOk, EachOnce, Calls;
      if e.Begin? {
        BeginCounts(s, e);
      } else if e.Stop? || e.Call? {
        HeadCounts(s, e);
      } else if s.point == Calling {
        AnswerCounts(s, e);
      } else if e.Poll? {
        PollCounts(s, e);
      } else if e.Drain? {
        DrainCounts(s, e);
      } else {
        EndCounts(s, e);
      }
    }
  }

  lemma {:induction false} RunCounts(s: Loop, events: seq<Event>)
    requires CountsOk(s) && IsRun(s, events)
    ensures CountsOk(After(s, events))
    decreases |events|
  {
    hide CountsOk, Enabled, Apply;
    if events != [] {
      StepCounts(s, events[0]);
      RunCounts(Apply(s, events[0]), events[1..]);
    }
  }

  /**
   The bound on model calls: three for each of the first turn, the turns after queued messages, those
   after a turn with calls, eight pauses for each of these and three forced turns for each requirement.
   */
  lemma ModelCallsBounded(choice: HardChoice, context: seq<Message>, prompts: seq<Message>, softId: Option<int>, escalations: nat, forced: Option<int>, events: seq<Event>)
    requires IsRun(Start(choice, context, prompts, softId, escalations, forced), events)
    ensures var t := After(Start(choice, context, prompts, softId, escalations, forced), events).tally;
      t.calls <= 3 * (1 + t.injections + t.toolTurns + 8 * (t.toolTurns + 1) + 3 * t.activations)
  {
    RunCounts(Start(choice, context, prompts, softId, escalations, forced), events);
  }

  // ---------- turns open and close ----------

  /** Turns started less turns ended. */
  function Open(log: seq<Emitted>): int {
    if log == [] then 0
    else Open(log[..|log| - 1]) + (match log[|log| - 1] case TurnStart => 1 case TurnEnd(_, _, _) => -1 case _ => 0)
  }

  lemma OpenAfter(log: seq<Emitted>, e: Emitted)
    ensures Open(log + [e]) == Open(log) + Open([e])
    ensures Open([e]) == (match e case TurnStart => 1 case TurnEnd(_, _, _) => -1 case _ => 0)
  {
    assert (log + [e])[..|log|] == log;
    assert [e][..0] == [];
  }

  predicate TurnsOk(s: Loop) {
    && Open(s.log) == (if s.turnOpen then 1 else 0)
    && (s.point == Entry ==> !s.turnOpen && s.retry == 0)
    && (s.point == Head || s.point == Draining ==> (s.turnOpen <==> s.retry > 0))
    && (s.point == Boundary ==> !s.turnOpen && s.retry == 0)
    && (s.point == Calling || s.point.Answered? ==> s.turnOpen)
    && (s.point.Answered? ==> s.retry == 0)
  }

  lemma EndTurnTurns(s: Loop, m: Message, results: seq<Message>)
    requires Open(s.log) == 1
    ensures Open(EndTurnWith(s, m, results).log) == 0 && !EndTurnWith(s, m, results).turnOpen
  {
    OpenAfter(s.log, TurnEnd(m, results, |s.context + results|));
  }

  lemma FinishTurns(s: Loop)
    ensures Open(Finish(s).log) == Open(s.log)
  {
    OpenAfter(s.log, AgentEnd);
  }

  lemma CalledTurns(s: Loop)
    requires Open(s.log) == (if s.turnOpen then 1 else 0)
    ensures Open(Called(s).log) == 1 && Called(s).turnOpen
  {
    OpenAfter(s.log, TurnStart);
    OpenAfter(OpenTurn(s).log, ModelCall(|s.context|));
  }

  lemma ResolvedTurns(s: Loop, d: Directive)
    ensures var c := Resolve(s, d);
      c.log == s.log && c.turnOpen == s.turnOpen && c.retry == s.retry && c.point == s.point
  {
    hide Plains;
  }

  lemma StoppedTurns(s: Loop)
    requires Open(s.log) == (if s.turnOpen then 1 else 0)
    ensures Open(Stopped(s).log) == 0 && !Stopped(s).turnOpen && Stopped(s).point == Done
  {
    hide Open;
    if s.turnOpen {
      var stop := Add(s, [GATE_STOP]);
      EndTurnTurns(stop, GATE_STOP, []);
      FinishTurns(EndTurnWith(stop, GATE_STOP, []));
    } else {
      FinishTurns(s);
    }
  }

  lemma TailTurns(s: Loop, m: Message, results: seq<Message>)
    requires Open(s.log) == 0 && !s.turnOpen
    ensures var ended := EndTurnWith(OpenTurn(s), m, results);
      Open(ended.log) == Open(Finish(ended).log) == 0 && !ended.turnOpen && ended.point == s.point && ended.retry == s.retry
  {
    OpenAfter(s.log, TurnStart);
    EndTurnTurns(OpenTurn(s), m, results);
    FinishTurns(EndTurnWith(OpenTurn(s), m, results));
  }

  lemma BegunShape(s: Loop, e: Event)
    requires Enabled(s, e) && e.Begin?
    ensures var c := Apply(s, e);
      || c == Finish(s)
      || c == s.(pending := e.queued, point := Head)
      || exists m, results ::
           var ended := EndTurnWith(OpenTurn(s.(pending := e.queued, point := Head)), m, results);
           c == ended || c == Finish(ended)
  {
    var tail := UnpairedTail(s.context);
    assert tail.Some? ==> forall k :: 0 <= k < |e.order| ==> e.order[k] < |Calls(tail.value)|;
    hide EachOnce, Executions, UnpairedTail, Calls, OpenTurn, EndTurnWith, Finish;
    if !e.late && tail.Some? {
      var results := Executions(Calls(tail.value), e.order);
      var ended := EndTurnWith(OpenTurn(s.(pending := e.queued, point := Head)), tail.value, results);
      assert Apply(s, e) == ended || Apply(s, e) == Finish(ended);
    }
  }

  lemma BegunTurns(s: Loop, e: Event)
    requires TurnsOk(s) && Enabled(s, e) && e.Begin?
    ensures TurnsOk(Apply(s, e)) && !Apply(s, e).turnOpen
  {
    BegunShape(s, e);
    BeganEntry(s, e);
    hide Open, Apply, Enabled, EndTurnWith, OpenTurn;
    var c := Apply(s, e);
    FinishTurns(s);
    var begun := s.(pending := e.queued, point := Head);
    if c != Finish(s) && c != begun {
      var m, results :| var ended := EndTurnWith(OpenTurn(begun), m, results); c == ended || c == Finish(ended);
      TailTurns(begun, m, results);
    }
  }

  lemma ClosedTurns(s: Loop, e: Event)
    requires TurnsOk(s) && Enabled(s, e) && e.Close?
    ensures TurnsOk(Apply(s, e)) && (Apply(s, e).point == Done ==> !Apply(s, e).turnOpen)
  {
    ClosedLog(s, s.point.message, e.late, e.order, e.terminal);
    CloseClosesTurn(s, s.point.message, e.late, e.order, e.terminal);
    hide Open, EachOnce, CloseTurn, Calls;
  }

  lemma ClosedLog(s: Loop, m: Message, late: bool, order: seq<nat>, terminal: bool)
    requires m.Assistant? && EachOnce(order, |Calls(m)|) && Open(s.log) == 1 && s.turnOpen
    ensures var c := CloseTurn(s, m, late, order, terminal);
      Open(c.log) == (if c.turnOpen then 1 else 0)
  {
    CloseShape(s, m, late, order, terminal);
    CloseClosesTurn(s, m, late, order, terminal);
    assert forall k :: 0 <= k < |order| ==> order[k] < |Calls(m)|;
    hide Open, EachOnce, Results, NonCompliant, CloseTurn, Placeholders, Calls;
    var results := if m.stop == Error || m.stop == Aborted then Placeholders(Calls(m), Failed) else Results(s, m, late, order).0;
    EndTurnTurns(s, m, results);
    FinishTurns(EndTurnWith(s, m, results));
  }

  lemma CloseClosesTurn(s: Loop, m: Message, late: bool, order: seq<nat>, terminal: bool)
    requires m.Assistant? && EachOnce(order, |Calls(m)|)
    ensures var c := CloseTurn(s, m, late, order, terminal);
      c.retry == s.retry && (c.point == Boundary || c.point == Done ==> !c.turnOpen)
      && (c.point == Boundary || c.point == Done || c == s.(point := Thrown))
  {
    hide NonCompliant, Results, Calls;
  }

  /** The steps that end the run at the head of the loop or where it would stop. */
  predicate EndsAtOnce(e: Event) {
    e.Late? || (e.Drain? && (e.late || e.queued == []))
  }

  /**
   Turn starts and ends alternate. A run that ends without throwing leaves a turn open exactly when it
   ends at the head of the loop or where it would stop while the last answer was a dropped leak.
   */
  lemma StepTurns(s: Loop, e: Event)
    requires TurnsOk(s) && Enabled(s, e)
    ensures TurnsOk(Apply(s, e))
    ensures Apply(s, e).point == Done ==> (Apply(s, e).turnOpen <==> EndsAtOnce(e) && s.retry > 0)
  {
    hide Open, EachOnce;
    if e.Begin? {
      hide Apply;
      BegunTurns(s, e);
      BeganEntry(s, e);
    } else if e.Close? {
      hide Apply;
      ClosedTurns(s, e);
    } else if e.Stop? {
      hide Resolve, Stopped;
      ResolvedTurns(Inject(s), e.directive);
      StoppedTurns(Resolve(Inject(s), e.directive));
    } else if e.Call? {
      hide Resolve, Called;
      ResolvedTurns(Inject(s), e.directive);
      CalledTurns(Resolve(Inject(s), e.directive));
      CalledPoint(Resolve(Inject(s), e.directive));
    } else {
      FinishTurns(s);
      hide Begun, CloseTurn, Resolve, Called, Stopped, UnpairedTail, Calls;
    }
  }

  lemma BeganEntry(s: Loop, e: Event)
    requires Enabled(s, e) && e.Begin?
    ensures s.point == Entry
  {
  }

  lemma CalledPoint(s: Loop)
    ensures Called(s).point == Calling
  {
  }

  lemma {:induction false} RunTurns(s: Loop, events: seq<Event>)
    requires TurnsOk(s) && IsRun(s, events)
    ensures TurnsOk(After(s, events))
    decreases |events|
  {
    hide TurnsOk, Enabled, Apply;
    if events != [] {
      StepTurns(s, events[0]);
      RunTurns(Apply(s, events[0]), events[1..]);
    }
  }

  lemma {:induction false} LastStep(s: Loop, events: seq<Event>)
    requires events != [] && IsRun(s, events)
    ensures var before, last := events[..|events| - 1], events[|events| - 1];
      IsRun(s, before) && Enabled(After(s, before), last) && After(s, events) == Apply(After(s, before), last)
    decreases |events|
  {
    hide Enabled, Apply;
    if |events| > 1 {
      LastStep(Apply(s, events[0]), events[1..]);
      assert events[1..][..|events| - 2] == events[..|events| - 1][1..];
    } else {
      assert events[..0] == [] && events[1..] == [];
    }
  }

  /**
   Of every run that is over without an exception: its turn starts and ends balance but for the turn
   left open, and it leaves one open if and only if its last step ended it at the head of the loop or
   where it would stop, while the last answer was a dropped leak.
   */
  lemma OpenTurnExactly(choice: HardChoice, context: seq<Message>, prompts: seq<Message>, softId: Option<int>, escalations: nat, forced: Option<int>, events: seq<Event>)
    requires IsRun(Start(choice, context, prompts, softId, escalations, forced), events) && events != []
    requires After(Start(choice, context, prompts, softId, escalations, forced), events).point == Done
    ensures var s := Start(choice, context, prompts, softId, escalations, forced);
      var c, before, last := After(s, events), events[..|events| - 1], events[|events| - 1];
      && IsRun(s, before)
      && (c.turnOpen <==> EndsAtOnce(last) && After(s, before).retry > 0)
      && Open(c.log) == (if c.turnOpen then 1 else 0)
  {
    var s := Start(choice, context, prompts, softId, escalations, forced);
    var before := events[..|events| - 1];
    LastStep(s, events);
    assert TurnsOk(s);
    RunTurns(s, before);
    hide Apply, Enabled, Open;
    StepTurns(After(s, before), events[|events| - 1]);
  }

  lemma Then(s: Loop, e: Event, rest: seq<Event>)
    requires Enabled(s, e) && IsRun(Apply(s, e), rest)
    ensures IsRun(s, [e] + rest) && After(s, [e] + rest) == After(Apply(s, e), rest)
  {
    hide Enabled, Apply;
    assert ([e] + rest)[1..] == rest;
  }

  /**
   Such a run: messages arrive as the agent would stop, and the answer to them leaks. The retry finds
   nothing left to do, so the run ends with its turn open and the messages in the context unanswered.
   */
  lemma LeakLeavesTurnOpen(s: Loop) returns (events: seq<Event>)
    requires s.point == Head && !s.hasMore && s.pending != [] && s.retry == 0
    ensures IsRun(s, events)
    ensures var c := After(s, events);
      c.point == Done && c.turnOpen && c.context == s.context + Plains(s.pending)
  {
    var called := Apply(s, Call(NoDirective));
    assert called.context == s.context + Plains(s.pending) && called.pending == [] && called.turnOpen;
    hide Called, Resolve, Inject;
    var leaked := Apply(called, Leak);
    var left := Apply(leaked, Leave);
    var last := Drain(false, []);
    Then(left, last, []);
    Then(leaked, Leave, [last] + []);
    Then(called, Leak, [Leave] + ([last] + []));
    Then(s, Call(NoDirective), [Leak] + ([Leave] + ([last] + [])));
    events := [Call(NoDirective)] + ([Leak] + ([Leave] + ([last] + [])));
  }

  lemma QuietTurn(s: Loop, steer: int) returns (events: seq<Event>)
    requires s.point == Calling && s.required.None? && s.paused == 0
    ensures IsRun(s, events)
    ensures var c := After(s, events);
      c.point == Head && !c.hasMore && c.pending == [steer] && c.retry == 0
  {
    var m := Assistant(EndTurn, [], false);
    var close, poll := Close(false, [], false), Poll(false, [steer], []);
    var s3 := Apply(s, Reply(m));
    var s4 := Apply(s3, close);
    assert s4.point == Boundary && !s4.hasMore && s4.retry == 0;
    hide CloseTurn, Accept;
    Then(s4, poll, []);
    Then(s3, close, [poll] + []);
    Then(s, Reply(m), [close] + ([poll] + []));
    events := [Reply(m)] + ([close] + ([poll] + []));
  }

  /** A state like this is reached when a steer arrives at the end of the first answer. */
  lemma StopBoundaryReached(steer: int) returns (events: seq<Event>)
    ensures IsRun(Start(Unset, [], [], None, 0, None), events)
    ensures var s := After(Start(Unset, [], [], None, 0, None), events);
      s.point == Head && !s.hasMore && s.pending == [steer] && s.retry == 0
  {
    var s0 := Start(Unset, [], [], None, 0, None);
    var begin, call := Begin(false, [], [], false), Call(NoDirective);
    var s1 := Apply(s0, begin);
    var s2 := Apply(s1, call);
    assert s2.point == Calling && s2.required.None? && s2.paused == 0;
    var rest := QuietTurn(s2, steer);
    Then(s1, call, rest);
    Then(s0, begin, [call] + rest);
    events := [begin] + ([call] + rest);
  }

  // ---------- what the run reports ----------

  /** The run reports exactly the messages it has added to the context, in order. */
  predicate Reports(s: Loop, context: seq<Message>, produced: seq<Message>) {
    && |context| <= |s.context| && s.context[..|context|] == context
    && (s.point != Thrown ==> s.produced == produced + s.context[|context|..])
  }

  lemma AddReports(s: Loop, ms: seq<Message>, context: seq<Message>, produced: seq<Message>)
    requires Reports(s, context, produced) && s.point != Thrown
    ensures Reports(Add(s, ms), context, produced)
  {
    assert (s.context + ms)[..|context|] == context;
    assert (s.context + ms)[|context|..] == s.context[|context|..] + ms;
    Regroup(produced, s.context[|context|..], ms);
  }

  lemma SameReports(s: Loop, c: Loop, context: seq<Message>, produced: seq<Message>)
    requires Reports(s, context, produced) && s.point != Thrown && c.context == s.context && c.produced == s.produced
    ensures Reports(c, context, produced)
  {
  }

  lemma PreparedReports(s: Loop, d: Directive, context: seq<Message>, produced: seq<Message>)
    requires Reports(s, context, produced) && s.point == Head
    ensures Reports(Resolve(Inject(s), d), context, produced)
  {
    hide Reports, Plains;
    AddReports(s, Plains(s.pending), context, produced);
    var i := Inject(s);
    SameReports(Add(s, Plains(s.pending)), i, context, produced);
    if d.Soft? {
      AddReports(i, Plains(d.reminder), context, produced);
    }
    var c := Resolve(i, d);
    SameReports(if c.context == i.context then i else Add(i, Plains(d.reminder)), c, context, produced);
  }

  lemma HeadReports(s: Loop, e: Event, context: seq<Message>, produced: seq<Message>)
    requires Enabled(s, e) && Reports(s, context, produced) && (e.Stop? || e.Call?)
    ensures Reports(Apply(s, e), context, produced)
  {
    PreparedReports(s, e.directive, context, produced);
    ResolvedTurns(Inject(s), e.directive);
    hide Reports, Resolve;
    var c := Resolve(Inject(s), e.directive);
    AddReports(c, [GATE_STOP], context, produced);
    AddReports(Add(c, [GATE_STOP]), [], context, produced);
    SameReports(if e.Stop? && c.turnOpen then Add(Add(c, [GATE_STOP]), []) else c, Apply(s, e), context, produced);
  }

  lemma CloseReports(s: Loop, e: Event, context: seq<Message>, produced: seq<Message>)
    requires Enabled(s, e) && Reports(s, context, produced) && e.Close?
    ensures Reports(Apply(s, e), context, produced)
  {
    var m := s.point.message;
    CloseShape(s, m, e.late, e.order, e.terminal);
    CloseAdds(s, m, e.late, e.order, e.terminal);
    hide Reports, CloseTurn, Calls, EachOnce;
    var c := Apply(s, e);
    if c.point == Thrown {
      SameReports(s, c, context, produced);
    } else {
      var results: seq<Message> :| c.context == s.context + results && c.produced == s.produced + results;
      AddReports(s, results, context, produced);
      SameReports(Add(s, results), c, context, produced);
    }
  }

  lemma CloseAdds(s: Loop, m: Message, late: bool, order: seq<nat>, terminal: bool)
    requires m.Assistant? && EachOnce(order, |Calls(m)|)
    ensures var c := CloseTurn(s, m, late, order, terminal);
      c == s.(point := Thrown)
      || exists results: seq<Message> :: c.context == s.context + results && c.produced == s.produced + results
  {
    hide NonCompliant, Results, Calls, Placeholders;
    var c := CloseTurn(s, m, late, order, terminal);
    if m.stop == Error || m.stop == Aborted {
      var results := Placeholders(Calls(m), Failed);
      assert c.context == s.context + results && c.produced == s.produced + results;
    } else if !(NonCompliant(s, Calls(m)) && s.escalations >= MAX_SOFT_TOOL_ESCALATIONS) {
      var results := Results(s, m, late, order).0;
      assert c.context == s.context + results && c.produced == s.produced + results;
    }
  }

  lemma BeginReports(s: Loop, e: Event, context: seq<Message>, produced: seq<Message>)
    requires Enabled(s, e) && Reports(s, context, produced) && e.Begin?
    ensures Reports(Apply(s, e), context, produced)
  {
    var tail := UnpairedTail(s.context);
    var results := if !e.late && tail.Some? then Executions(Calls(tail.value), e.order) else [];
    AddReports(s, results, context, produced);
    hide Reports, Executions, UnpairedTail, Calls, EachOnce;
    SameReports(if e.late || tail.None? then s else Add(s, results), Apply(s, e), context, produced);
  }

  lemma StepReports(s: Loop, e: Event, context: seq<Message>, produced: seq<Message>)
    requires Enabled(s, e) && Reports(s, context, produced)
    ensures Reports(Apply(s, e), context, produced)
  {
    hide EachOnce, Calls;
    if e.Begin? {
      BeginReports(s, e, context, produced);
    } else if e.Stop? || e.Call? {
      HeadReports(s, e, context, produced);
    } else if e.Close? {
      CloseReports(s, e, context, produced);
    } else if e.Reply? || e.Recover? {
      AddReports(s, [e.message], context, produced);
      hide Reports;
      SameReports(if Apply(s, e).point == Thrown then s else Add(s, [e.message]), Apply(s, e), context, produced);
    } else if e.Fail? {
      hide Apply;
      FailReports(s, e.partial, context, produced);
    } else {
      hide Reports, Begun, CloseTurn, Resolve, Called, Stopped;
      SameReports(s, Apply(s, e), context, produced);
    }
  }

  lemma FailReports(s: Loop, partial: Option<Message>, context: seq<Message>, produced: seq<Message>)
    requires Enabled(s, Fail(partial)) && Reports(s, context, produced)
    ensures Reports(Apply(s, Fail(partial)), context, produced)
  {
    if partial.Some? {
      assert (s.context + [partial.value])[..|context|] == context;
    }
  }

  /** Unless it throws, a run reports exactly what it added to the context it was given. */
  lemma {:induction false} RunReports(s: Loop, events: seq<Event>, context: seq<Message>, produced: seq<Message>)
    requires Reports(s, context, produced) && IsRun(s, events)
    ensures Reports(After(s, events), context, produced)
    decreases |events|
  {
    hide Reports, Enabled, Apply;
    if events != [] {
      StepReports(s, events[0], context, produced);
      RunReports(Apply(s, events[0]), events[1..], context, produced);
    }
  }

  // ---------- what a pending requirement lets through ----------

  lemma {:induction false} OutcomeOf(calls: seq<Block>, outcome: Outcome, k: nat)
    requires k < |Placeholders(calls, outcome)|
    ensures Placeholders(calls, outcome)[k].ToolResult? && Placeholders(calls, outcome)[k].outcome == outcome
  {
    if k > 0 {
      OutcomeOf(calls[1..], outcome, k - 1);
    }
  }

  lemma {:induction false} ExecutedIsCalled(calls: seq<Block>, order: seq<nat>, k: nat)
    requires forall j :: 0 <= j < |order| ==> order[j] < |calls|
    requires k < |Executions(calls, order)|
    ensures Executions(calls, order)[k].ToolResult? && Executions(calls, order)[k].call in calls
    decreases order
  {
    if k > 0 {
      ExecutedIsCalled(calls, order[1..], k - 1);
    }
  }

  /** Tools only run for a turn that was not cut off, in time, and while a requirement is pending only the required one. */
  lemma OnlyRequiredToolsRun(s: Loop, m: Message, late: bool, order: seq<nat>, k: nat)
    requires m.Assistant? && EachOnce(order, |Calls(m)|)
    requires k < |Results(s, m, late, order).0| && Results(s, m, late, order).0[k].ToolResult?
    requires Results(s, m, late, order).0[k].outcome == Executed
    ensures m.stop != Length && !late
    ensures s.required.Some? && !HardToolChoiceBlocks(s.choice, s.required.value.tool) ==>
      Satisfies(s.required.value, Results(s, m, late, order).0[k].call)
  {
    ResultsPair(s, m, late, order);
    var calls := Calls(m);
    var results := Results(s, m, late, order).0;
    if NonCompliant(s, calls) || late || m.stop == Length || m.stop == Error || m.stop == Aborted || calls == [] {
      var outcome := if NonCompliant(s, calls) then Skipped else if late then Failed else if m.stop == Length then Truncated else Skipped;
      assert results == Placeholders(calls, outcome);
      OutcomeOf(calls, outcome, k);
    } else {
      ExecutedIsCalled(calls, order, k);
    }
  }
}
