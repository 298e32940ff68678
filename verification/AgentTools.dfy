/**
 Tool batches of packages/agent/src/agent-loop.ts: what preparing, executing and finalizing
 one call leads to, and what a whole batch emits and returns, sequentially and in parallel.
 Tools and hooks are oracles: a CallScript says what each of them does for one call.
 */
module AgentTools {
  import opened Wrappers
  import opened AgentTypes

  // ---- oracles ----

  /** Finding the tool, adapting the arguments and validating them. */
  datatype Lookup = NotFound | Rejected(error: string) | Found

  datatype Block = Block(reason: Option<string>, terminate: Option<bool>)

  /** The `beforeToolCall` hook. */
  datatype BeforeHook = NoBefore | BeforeThrows(error: string) | BeforeReturns(block: Option<Block>)

  datatype Execution = Returns(outcome: ToolOutcome) | Throws(error: string)

  /** The fields an `afterToolCall` hook replaces. */
  datatype Override = Override(content: Option<seq<Part>>, details: Option<string>, usage: Option<nat>,
                               terminate: Option<bool>, isError: Option<bool>)

  datatype AfterHook = NoAfter | AfterThrows(error: string) | AfterReturns(override: Option<Override>)

  /** What happens to one call. `sequentialTool` says that its tool may not run beside others.
      The run's signal is aborted during its preparation if `abortsInPreparation`, or later,
      before the batch goes on, if `abortsAfter`. */
  datatype CallScript = CallScript(lookup: Lookup, sequentialTool: bool, before: BeforeHook, updates: seq<string>,
                                   execution: Execution, after: AfterHook,
                                   abortsInPreparation: bool, abortsAfter: bool)

  const UNSCRIPTED: CallScript :=
    CallScript(NotFound, false, NoBefore, [], Throws(""), NoAfter, false, false)

  function ScriptOf(scripts: seq<CallScript>, k: nat): (script: CallScript)
    ensures k < |scripts| ==> script == scripts[k]
  {
    if k < |scripts| then scripts[k] else UNSCRIPTED
  }

  // ---- one call ----

  datatype Finalized = Finalized(call: ToolCall, outcome: ToolOutcome, isError: bool)

  datatype Preparation = Immediate(outcome: ToolOutcome, isError: bool) | Prepared

  function ErrorOutcome(message: Part): ToolOutcome {
    ToolOutcome(Some([message]), "", None, [], None)
  }

  /** prepareToolCall; `aborted` is the state of the signal when it is looked at. */
  function Prepare(call: ToolCall, script: CallScript, aborted: bool): Preparation {
    match script.lookup
    case NotFound => Immediate(ErrorOutcome(NoSuchTool(call.name)), true)
    case Rejected(error) => Immediate(ErrorOutcome(Plain(error)), true)
    case Found =>
      match script.before
      case BeforeThrows(error) => Immediate(ErrorOutcome(Plain(error)), true)
      case NoBefore => if aborted then Immediate(ErrorOutcome(OperationAborted), true) else Prepared
      case BeforeReturns(block) =>
        if aborted then Immediate(ErrorOutcome(OperationAborted), true)
        else if block.Some? then Immediate(BlockedOutcome(block.value), true)
        else Prepared
  }

  function BlockedOutcome(block: Block): ToolOutcome {
    // An empty reason counts as none.
    var reason := if block.reason.GetOr("") == "" then ExecutionBlocked else Plain(block.reason.value);
    var outcome := ErrorOutcome(reason);
    if block.terminate == Some(true) then outcome.(terminate := Some(true)) else outcome
  }

  function Executed(execution: Execution): (ToolOutcome, bool) {
    match execution
    case Returns(outcome) => (outcome, false)
    case Throws(error) => (ErrorOutcome(Plain(error)), true)
  }

  function OrElse<T>(a: Option<T>, b: Option<T>): Option<T> { if a.Some? then a else b }

  /** finalizeExecutedToolCall: the `afterToolCall` hook replaces field by field. */
  function Finalize(call: ToolCall, executed: (ToolOutcome, bool), after: AfterHook): (f: Finalized)
    ensures f.call == call
  {
    var (outcome, isError) := executed;
    match after
    case NoAfter => Finalized(call, outcome, isError)
    case AfterThrows(error) => Finalized(call, ErrorOutcome(Plain(error)), true)
    case AfterReturns(None) => Finalized(call, outcome, isError)
    case AfterReturns(Some(o)) =>
      Finalized(call,
                ToolOutcome(OrElse(o.content, outcome.content), o.details.GetOr(outcome.details),
                            OrElse(o.usage, outcome.usage), outcome.addedToolNames,
                            OrElse(o.terminate, outcome.terminate)),
                o.isError.GetOr(isError))
  }

  /** What a call comes to, and the updates it emits on the way. */
  function Settle(call: ToolCall, script: CallScript, aborted: bool): Finalized {
    match Prepare(call, script, aborted)
    case Immediate(outcome, isError) => Finalized(call, outcome, isError)
    case Prepared => Finalize(call, Executed(script.execution), script.after)
  }

  function StartOf(call: ToolCall): Event { ToolStart(call.id, call.name, call.arguments) }

  function EndOf(f: Finalized): Event { ToolEnd(f.call.id, f.call.name, f.outcome, f.isError) }

  function ResultOf(f: Finalized): ToolResultMessage {
    ResultMessage(f.call.id, f.call.name, f.outcome, f.isError)
  }

  function UpdatesOf(call: ToolCall, updates: seq<string>): seq<Event> {
    if updates == [] then []
    else UpdatesOf(call, updates[..|updates| - 1]) + [ToolUpdate(call.id, updates[|updates| - 1])]
  }

  /** The two events of a finished message. */
  function Announce(m: Message): seq<Event> { [MessageStart(m), MessageEnd(m)] }

  function Results(fs: seq<Finalized>): (rs: seq<ToolResultMessage>)
    ensures |rs| == |fs| && forall i | 0 <= i < |fs| :: rs[i] == ResultOf(fs[i])
  {
    if fs == [] then [] else Results(fs[..|fs| - 1]) + [ResultOf(fs[|fs| - 1])]
  }

  function AsMessages(rs: seq<ToolResultMessage>): (ms: seq<Message>)
    ensures |ms| == |rs| && forall i | 0 <= i < |rs| :: ms[i] == ToolResult(rs[i])
  {
    if rs == [] then [] else AsMessages(rs[..|rs| - 1]) + [ToolResult(rs[|rs| - 1])]
  }

  /** The events that give the results of finalized calls, in order. */
  function GiveResults(fs: seq<Finalized>): seq<Event> {
    if fs == [] then []
    else GiveResults(fs[..|fs| - 1]) + Announce(ToolResult(ResultOf(fs[|fs| - 1])))
  }

  /** shouldTerminateToolBatch: only a nonempty batch all of whose results ask for it. */
  predicate ShouldTerminate(fs: seq<Finalized>) {
    |fs| > 0 && forall f | f in fs :: f.outcome.terminate == Some(true)
  }

  // ---- whole batches ----

  /** What happens in a batch: its calls, the order in which running tools get to take
      their next step, and whether the signal is aborted while they run. */
  datatype BatchScript = BatchScript(calls: seq<CallScript>, schedule: seq<nat>, abortsWhileRunning: bool)

  /** What a batch did: its events, its outcomes in source order, and the signal after it. */
  datatype BatchRun = BatchRun(trace: seq<Event>, finalized: seq<Finalized>, aborted: bool)

  function Prepend(trace: seq<Event>, f: Finalized, rest: BatchRun): BatchRun {
    BatchRun(trace + rest.trace, [f] + rest.finalized, rest.aborted)
  }

  function TruncatedCall(call: ToolCall): Finalized {
    Finalized(call, ErrorOutcome(OutputLimitHit(call.name)), true)
  }

  function OneCall(call: ToolCall, updates: seq<Event>, f: Finalized): seq<Event> {
    [StartOf(call)] + updates + [EndOf(f)] + Announce(ToolResult(ResultOf(f)))
  }

  /** failToolCallsFromTruncatedMessage from call `k` on: error results, nothing executed. */
  function FailTruncated(calls: seq<ToolCall>, k: nat, aborted: bool): BatchRun
    requires k <= |calls|
    decreases |calls| - k
  {
    if k == |calls| then BatchRun([], [], aborted)
    else
      var f := TruncatedCall(calls[k]);
      Prepend(OneCall(calls[k], [], f), f, FailTruncated(calls, k + 1, aborted))
  }

  /** One call of a sequential batch, from its start to its result message. */
  function RunOne(call: ToolCall, script: CallScript, aborted: bool): (seq<Event>, Finalized) {
    var f := Settle(call, script, aborted);
    var updates := if Prepare(call, script, aborted).Prepared? then script.updates else [];
    (OneCall(call, UpdatesOf(call, updates), f), f)
  }

  /** executeToolCallsSequential from call `k` on. */
  function Sequential(calls: seq<ToolCall>, scripts: seq<CallScript>, k: nat, aborted: bool): BatchRun
    requires k <= |calls|
    decreases |calls| - k
  {
    if k == |calls| then BatchRun([], [], aborted)
    else
      var script := ScriptOf(scripts, k);
      var abortedThen := aborted || script.abortsInPreparation;
      var (trace, f) := RunOne(calls[k], script, abortedThen);
      Prepend(trace, f,
              if abortedThen || script.abortsAfter then BatchRun([], [], true)
              else Sequential(calls, scripts, k + 1, false))
  }

  /** The slot of a call in a parallel batch: it holds the call's outcome, or the task of a call
      that was allowed, which has updates to emit, then a tool to return from and a hook to run. */
  datatype Entry =
    | Settled(f: Finalized)
    | Running(call: ToolCall, updates: seq<string>, execution: Execution, after: AfterHook)

  datatype Started = Started(trace: seq<Event>, entries: seq<Entry>, aborted: bool)

  /** Preparing one call: an immediate outcome ends at once, an allowed call is left to run. */
  function StartOne(call: ToolCall, script: CallScript, aborted: bool): (seq<Event>, Entry) {
    match Prepare(call, script, aborted)
    case Immediate(outcome, isError) =>
      var f := Finalized(call, outcome, isError);
      ([StartOf(call), EndOf(f)], Settled(f))
    case Prepared => ([StartOf(call)], Running(call, script.updates, script.execution, script.after))
  }

  /** The preparation loop of executeToolCallsParallel from call `k` on. */
  function StartAll(calls: seq<ToolCall>, scripts: seq<CallScript>, k: nat, aborted: bool): Started
    requires k <= |calls|
    decreases |calls| - k
  {
    if k == |calls| then Started([], [], aborted)
    else
      var script := ScriptOf(scripts, k);
      var abortedThen := aborted || script.abortsInPreparation;
      var (trace, entry) := StartOne(calls[k], script, abortedThen);
      StartThen(trace, entry,
                if abortedThen || script.abortsAfter then Started([], [], true)
                else StartAll(calls, scripts, k + 1, false))
  }

  function StartThen(trace: seq<Event>, entry: Entry, rest: Started): Started {
    Started(trace + rest.trace, [entry] + rest.entries, rest.aborted)
  }

  predicate AllSettled(entries: seq<Entry>) {
    forall i | 0 <= i < |entries| :: entries[i].Settled?
  }

  /** Steps the running tasks still have to take. */
  function Work(entries: seq<Entry>): nat {
    if entries == [] then 0
    else
      var e := entries[|entries| - 1];
      Work(entries[..|entries| - 1]) + if e.Running? then 1 + |e.updates| else 0
  }

  /** The task whose turn it is: the scheduled one if it is running, else the first one. */
  function Pick(entries: seq<Entry>, schedule: seq<nat>): (i: nat)
    requires !AllSettled(entries)
    ensures i < |entries| && entries[i].Running?
  {
    if schedule != [] && schedule[0] < |entries| && entries[schedule[0]].Running? then schedule[0]
    else FirstRunning(entries)
  }

  function FirstRunning(entries: seq<Entry>): (i: nat)
    requires !AllSettled(entries)
    ensures i < |entries| && entries[i].Running?
  {
    if entries[0].Running? then 0
    else
      assert forall i | 0 < i < |entries| :: entries[i] == entries[1..][i - 1];
      1 + FirstRunning(entries[1..])
  }

  /** What a task comes to when its tool has returned and its hook has run. */
  function Complete(e: Entry): Finalized
    requires e.Running?
  {
    Finalize(e.call, Executed(e.execution), e.after)
  }

  /** One step of a running task: its next update, or its end. */
  function StepEvent(e: Entry): Event
    requires e.Running?
  {
    if e.updates == [] then EndOf(Complete(e)) else ToolUpdate(e.call.id, e.updates[0])
  }

  /** The step that ends a task writes its outcome into its slot. */
  function StepEntry(e: Entry): Entry
    requires e.Running?
  {
    if e.updates == [] then Settled(Complete(e)) else e.(updates := e.updates[1..])
  }

  function Tail(schedule: seq<nat>): seq<nat> { if schedule == [] then [] else schedule[1..] }

  /** The running tasks interleaved as scheduled, until all are settled. */
  function Concurrent(entries: seq<Entry>, schedule: seq<nat>): seq<Event>
    decreases Work(entries)
  {
    if AllSettled(entries) then []
    else
      var i := Pick(entries, schedule);
      WorkStep(entries, i);
      [StepEvent(entries[i])] + Concurrent(entries[i := StepEntry(entries[i])], Tail(schedule))
  }

  /** What the slots hold when all tasks have ended, in the order of the schedule. */
  function Slots(entries: seq<Entry>, schedule: seq<nat>): (slots: seq<Entry>)
    ensures AllSettled(slots) && |slots| == |entries|
    decreases Work(entries)
  {
    if AllSettled(entries) then entries
    else
      var i := Pick(entries, schedule);
      WorkStep(entries, i);
      Slots(entries[i := StepEntry(entries[i])], Tail(schedule))
  }

  lemma {:induction false} WorkStep(entries: seq<Entry>, i: nat)
    requires i < |entries| && entries[i].Running?
    ensures Work(entries[i := StepEntry(entries[i])]) == Work(entries) - 1
  {
    var k := |entries| - 1;
    var after := entries[i := StepEntry(entries[i])];
    if i == k {
      assert after[..k] == entries[..k];
    } else {
      WorkStep(entries[..k], i);
      assert after[..k] == entries[..k][i := StepEntry(entries[i])];
    }
  }

  /** What Promise.all gives: the outcomes in the order of the slots. */
  function OutcomesOf(slots: seq<Entry>): (fs: seq<Finalized>)
    requires AllSettled(slots)
    ensures |fs| == |slots| && forall i | 0 <= i < |fs| :: fs[i] == slots[i].f
  {
    if slots == [] then []
    else OutcomesOf(slots[..|slots| - 1]) + [slots[|slots| - 1].f]
  }

  /** executeToolCallsParallel. */
  function Parallel(calls: seq<ToolCall>, script: BatchScript, aborted: bool): BatchRun {
    var started := StartAll(calls, script.calls, 0, aborted);
    var fs := OutcomesOf(Slots(started.entries, script.schedule));
    BatchRun(started.trace + Concurrent(started.entries, script.schedule) + GiveResults(fs),
             fs, started.aborted || script.abortsWhileRunning)
  }

  predicate HasSequentialTool(calls: seq<ToolCall>, scripts: seq<CallScript>) {
    exists k | 0 <= k < |calls| :: ScriptOf(scripts, k).lookup != NotFound && ScriptOf(scripts, k).sequentialTool
  }

  /** executeToolCalls. */
  function Execute(calls: seq<ToolCall>, script: BatchScript, sequential: bool, aborted: bool): BatchRun {
    if sequential || HasSequentialTool(calls, script.calls) then Sequential(calls, script.calls, 0, aborted)
    else Parallel(calls, script, aborted)
  }

  /** What a complete response does about its calls: nothing without calls, only error results
      after a cut-off response, execution otherwise. */
  function RunBatch(response: AssistantMessage, script: BatchScript, sequential: bool, aborted: bool): BatchRun {
    var calls := ToolCalls(response.content);
    if calls == [] then BatchRun([], [], aborted)
    else if response.stopReason == Length then FailTruncated(calls, 0, aborted)
    else Execute(calls, script, sequential, aborted)
  }

  /** Whether the loop goes on for the sake of the batch's results. */
  predicate HasMore(response: AssistantMessage, fs: seq<Finalized>) {
    && ToolCalls(response.content) != []
    && (response.stopReason == Length || !ShouldTerminate(fs))
  }
}
