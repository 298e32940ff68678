/**
 The agent and its loop as they run: packages/agent/src/agent.ts and agent-loop.ts. Each
 method is proved to do what AgentTools, AgentRun and AgentLifetime say of the same step.
 What tools, hooks, the model and the user do comes in as scripts.
 */
module Agents {
  import opened Wrappers
  import opened AgentTypes
  import opened AgentTools
  import opened AgentToolProofs
  import opened AgentRun
  import opened AgentLifetime
  import opened AgentPacing

  lemma {:induction false} ReduceSnoc(s: AgentState, trace: seq<Event>, e: Event)
    ensures ReduceAll(s, trace + [e]) == Reduce(ReduceAll(s, trace), e)
  {
    hide Reduce;
    assert (trace + [e])[..|trace|] == trace;
  }

  class PendingMessageQueue {
    var messages: seq<Message>
    var mode: QueueMode

    constructor (mode: QueueMode)
      ensures Value() == Queue([], mode)
    {
      messages := [];
      this.mode := mode;
    }

    function Value(): Queue
      reads this
    {
      Queue(messages, mode)
    }

    method Enqueue(message: Message)
      modifies this
      ensures Value() == AgentRun.Enqueue(old(Value()), message)
    {
      messages := messages + [message];
    }

    method Drain() returns (drained: seq<Message>)
      modifies this
      ensures drained == Drained(old(Value())) && Value() == AfterDrain(old(Value()))
      ensures drained + messages == old(messages)
    {
      if mode == All {
        drained := messages;
        messages := [];
        return;
      }
      if messages == [] {
        return [];
      }
      drained := [messages[0]];
      messages := messages[1..];
    }
  }

  class AbortSignal {
    var aborted: bool

    constructor ()
      ensures !aborted
    {
      aborted := false;
    }
  }

  class AgentContext {
    var messages: seq<Message>

    constructor (messages: seq<Message>)
      ensures this.messages == messages
    {
      this.messages := messages;
    }
  }

  /** The agent's state as its listeners see it. `Trace` are the events of the current run and
      `Initial` the state they started from. */
  class Transcript {
    var messages: seq<Message>
    var streamingMessage: Option<Message>
    var pendingToolCalls: set<string>
    var errorMessage: Option<string>
    ghost var Initial: AgentState
    ghost var Trace: seq<Event>

    constructor (messages: seq<Message>)
      ensures Valid() && State() == AgentState(messages, None, {}, None)
    {
      this.messages := messages;
      streamingMessage := None;
      pendingToolCalls := {};
      errorMessage := None;
      Initial := AgentState(messages, None, {}, None);
      Trace := [];
    }

    function State(): AgentState
      reads this
    {
      AgentState(messages, streamingMessage, pendingToolCalls, errorMessage)
    }

    ghost predicate Valid()
      reads this
    {
      State() == ReduceAll(Initial, Trace)
    }

    /** processEvents. */
    method Emit(event: Event)
      requires Valid()
      modifies this
      ensures Valid() && Initial == old(Initial) && Trace == old(Trace) + [event]
      ensures State() == Reduce(old(State()), event)
    {
      hide ReduceAll;
      ReduceSnoc(Initial, Trace, event);
      match event {
        case MessageStart(message) =>
          streamingMessage := Some(message);
        case MessageUpdate(message) =>
          streamingMessage := Some(message);
        case MessageEnd(message) =>
          streamingMessage := None;
          messages := messages + [message];
        case ToolStart(id, _, _) =>
          pendingToolCalls := pendingToolCalls + {id};
        case ToolEnd(id, _, _, _) =>
          pendingToolCalls := pendingToolCalls - {id};
        case TurnEnd(message, _) =>
          if message.Assistant? && message.message.errorMessage.GetOr("") != "" {
            errorMessage := message.message.errorMessage;
          }
        case AgentEnd(_) =>
          streamingMessage := None;
        case _ =>
      }
      Trace := Trace + [event];
    }

    /** The state at the start of a run. */
    method BeginRun()
      modifies this
      ensures Valid() && State() == Begin(old(State())) && Initial == State() && Trace == []
    {
      streamingMessage := None;
      errorMessage := None;
      Initial := State();
      Trace := [];
    }

    /** The state when a run is over. */
    method FinishRun()
      modifies this
      ensures Valid() && State() == Finish(old(State()))
    {
      streamingMessage := None;
      pendingToolCalls := {};
      Initial := State();
      Trace := [];
    }

    method EmitBoth(first: Event, second: Event)
      requires Valid()
      modifies this
      ensures Valid() && Initial == old(Initial) && Trace == old(Trace) + [first, second]
    {
      Emit(first);
      Emit(second);
    }

    method EmitAll(messages: seq<Message>)
      requires Valid()
      modifies this
      ensures Valid() && Initial == old(Initial) && Trace == old(Trace) + AnnounceAll(messages)
    {
      for k := 0 to |messages|
        invariant Valid() && Initial == old(Initial) && Trace == old(Trace) + AnnounceAll(messages[..k])
      {
        EmitBoth(MessageStart(messages[k]), MessageEnd(messages[k]));
        assert messages[..k + 1][..k] == messages[..k];
      }
      assert messages[..|messages|] == messages;
    }
  }

  // ---- streaming ----

  /** What a stream does from some point on follows what it did before. */
  ghost predicate StreamGoesOn(whole: Streamed, emitted: seq<Event>, rest: Streamed) {
    whole.trace == emitted + rest.trace && whole.context == rest.context
  }

  lemma {:induction false} StreamEmits(whole: Streamed, emitted: seq<Event>, e: Event, rest: Streamed)
    requires StreamGoesOn(whole, emitted, Emitting(e, rest))
    ensures StreamGoesOn(whole, emitted + [e], rest)
  {
    assert emitted + ([e] + rest.trace) == emitted + [e] + rest.trace;
  }

  lemma {:induction false} ReadStep(context: seq<Message>, events: seq<StreamEvent>, i: nat, added: bool,
                                    response: AssistantMessage)
    requires (added ==> context != []) && i < |events| && !events[i].Done?
    ensures var p := Assistant(events[i].partial);
            ReadStream(context, events[i..], added, response) ==
            if events[i].Start? then
              Emitting(MessageStart(p), ReadStream(context + [p], events[i + 1..], true, response))
            else if added then
              Emitting(MessageUpdate(p), ReadStream(context[|context| - 1 := p], events[i + 1..], true, response))
            else ReadStream(context, events[i + 1..], false, response)
  {
    assert events[i..][1..] == events[i + 1..];
  }

  lemma {:induction false} ReadEnd(context: seq<Message>, events: seq<StreamEvent>, i: nat, added: bool,
                                   response: AssistantMessage)
    requires (added ==> context != []) && i <= |events| && (i < |events| ==> events[i].Done?)
    ensures var m := Assistant(response);
            ReadStream(context, events[i..], added, response) ==
            if added then Streamed([MessageEnd(m)], context[|context| - 1 := m])
            else Streamed([MessageStart(m), MessageEnd(m)], context + [m])
  {
  }

  /** streamAssistantResponse: what was sent, and the context with the response in it. */
  method StreamAssistantResponse(context: AgentContext, config: Config, events: seq<StreamEvent>,
                                 response: AssistantMessage, state: Transcript) returns (request: Request)
    requires state.Valid()
    modifies context, state
    ensures state.Valid() && state.Initial == old(state.Initial)
    ensures request == Request(config.model, config.reasoning, old(context.messages))
    ensures var s := ReadStream(old(context.messages), events, false, response);
            context.messages == s.context && state.Trace == old(state.Trace) + s.trace
  {
    hide ReadStream, ReduceAll;
    request := Request(config.model, config.reasoning, context.messages);
    ghost var whole := ReadStream(context.messages, events, false, response);
    ghost var emitted: seq<Event> := [];
    var addedPartial := false;
    var i := 0;
    assert events[0..] == events && StreamGoesOn(whole, [], whole);
    while i < |events| && !events[i].Done?
      invariant i <= |events| && state.Valid() && state.Initial == old(state.Initial)
      invariant state.Trace == old(state.Trace) + emitted
      invariant addedPartial ==> context.messages != []
      invariant StreamGoesOn(whole, emitted, ReadStream(context.messages, events[i..], addedPartial, response))
    {
      var partial := Assistant(events[i].partial);
      ReadStep(context.messages, events, i, addedPartial, response);
      if events[i].Start? {
        context.messages := context.messages + [partial];
        addedPartial := true;
        state.Emit(MessageStart(partial));
        StreamEmits(whole, emitted, MessageStart(partial),
                    ReadStream(context.messages, events[i + 1..], true, response));
        emitted := emitted + [MessageStart(partial)];
      } else if addedPartial {
        context.messages := context.messages[|context.messages| - 1 := partial];
        state.Emit(MessageUpdate(partial));
        StreamEmits(whole, emitted, MessageUpdate(partial),
                    ReadStream(context.messages, events[i + 1..], true, response));
        emitted := emitted + [MessageUpdate(partial)];
      }
      i := i + 1;
    }
    var final := Assistant(response);
    ReadEnd(context.messages, events, i, addedPartial, response);
    if addedPartial {
      context.messages := context.messages[|context.messages| - 1 := final];
    } else {
      context.messages := context.messages + [final];
      state.Emit(MessageStart(final));
    }
    state.Emit(MessageEnd(final));
  }

  // ---- tool batches ----

  /** What a batch does from some call on follows what it did before. */
  ghost predicate BatchGoesOn(whole: BatchRun, emitted: seq<Event>, fs: seq<Finalized>, rest: BatchRun) {
    && whole.trace == emitted + rest.trace
    && whole.finalized == fs + rest.finalized
    && whole.aborted == rest.aborted
  }

  lemma {:induction false} BatchEmits(whole: BatchRun, emitted: seq<Event>, fs: seq<Finalized>,
                                      trace: seq<Event>, f: Finalized, rest: BatchRun)
    requires BatchGoesOn(whole, emitted, fs, Prepend(trace, f, rest))
    ensures BatchGoesOn(whole, emitted + trace, fs + [f], rest)
  {
    assert emitted + (trace + rest.trace) == emitted + trace + rest.trace;
    assert fs + ([f] + rest.finalized) == fs + [f] + rest.finalized;
  }

  lemma {:induction false} BatchStarts(whole: BatchRun)
    ensures BatchGoesOn(whole, [], [], whole)
  {
  }

  lemma {:induction false} BatchEnds(whole: BatchRun, emitted: seq<Event>, fs: seq<Finalized>, aborted: bool)
    requires BatchGoesOn(whole, emitted, fs, BatchRun([], [], aborted))
    ensures whole == BatchRun(emitted, fs, aborted)
  {
  }

  lemma {:induction false} NoResults()
    ensures Results([]) == []
  {
  }

  lemma {:induction false} ResultsSnoc(fs: seq<Finalized>, f: Finalized)
    ensures Results(fs + [f]) == Results(fs) + [ResultOf(f)]
  {
    assert (fs + [f])[..|fs|] == fs;
  }

  /** The events of one call that runs alone, and its result message. */
  method ReportCall(call: ToolCall, updates: seq<string>, f: Finalized, state: Transcript)
    returns (message: ToolResultMessage)
    requires state.Valid() && f.call == call
    modifies state
    ensures state.Valid() && state.Initial == old(state.Initial) && message == ResultOf(f)
    ensures state.Trace == old(state.Trace) + OneCall(call, UpdatesOf(call, updates), f)
  {
    state.Emit(StartOf(call));
    for i := 0 to |updates|
      invariant state.Valid() && state.Initial == old(state.Initial)
      invariant state.Trace == old(state.Trace) + [StartOf(call)] + UpdatesOf(call, updates[..i])
    {
      state.Emit(ToolUpdate(call.id, updates[i]));
      assert updates[..i + 1][..i] == updates[..i];
    }
    assert updates[..|updates|] == updates;
    state.Emit(EndOf(f));
    message := ResultOf(f);
    state.EmitBoth(MessageStart(ToolResult(message)), MessageEnd(ToolResult(message)));
  }

  method FailToolCallsFromTruncatedMessage(calls: seq<ToolCall>, aborted: bool, state: Transcript)
    returns (messages: seq<ToolResultMessage>, terminate: bool)
    requires state.Valid()
    modifies state
    ensures state.Valid() && state.Initial == old(state.Initial) && !terminate
    ensures var b := FailTruncated(calls, 0, aborted);
            messages == Results(b.finalized) && state.Trace == old(state.Trace) + b.trace
  {
    messages, terminate := [], false;
    ghost var whole := FailTruncated(calls, 0, aborted);
    ghost var emitted: seq<Event>, fs: seq<Finalized> := [], [];
    BatchStarts(whole);
    for k := 0 to |calls|
      invariant state.Valid() && state.Initial == old(state.Initial)
      invariant state.Trace == old(state.Trace) + emitted && messages == Results(fs)
      invariant BatchGoesOn(whole, emitted, fs, FailTruncated(calls, k, aborted))
    {
      var f := TruncatedCall(calls[k]);
      var message := ReportCall(calls[k], [], f, state);
      messages := messages + [message];
      BatchEmits(whole, emitted, fs, OneCall(calls[k], [], f), f, FailTruncated(calls, k + 1, aborted));
      ResultsSnoc(fs, f);
      emitted, fs := emitted + OneCall(calls[k], [], f), fs + [f];
    }
    BatchEnds(whole, emitted, fs, aborted);
  }

  method ExecuteToolCallsSequential(calls: seq<ToolCall>, scripts: seq<CallScript>, signal: AbortSignal,
                                    state: Transcript)
    returns (messages: seq<ToolResultMessage>, terminate: bool)
    requires state.Valid()
    modifies state, signal
    ensures state.Valid() && state.Initial == old(state.Initial)
    ensures var b := Sequential(calls, scripts, 0, old(signal.aborted));
            && messages == Results(b.finalized) && (terminate <==> ShouldTerminate(b.finalized))
            && state.Trace == old(state.Trace) + b.trace && signal.aborted == b.aborted
  {
    hide Sequential, RunOne, Prepend, Results, ShouldTerminate, ReduceAll, ScriptOf;
    SequentialEnds(calls, scripts);
    messages := [];
    var finalizedCalls: seq<Finalized> := [];
    NoResults();
    ghost var whole := Sequential(calls, scripts, 0, signal.aborted);
    ghost var emitted: seq<Event> := [];
    BatchStarts(whole);
    var k := 0;
    while k < |calls|
      invariant k <= |calls| && state.Valid() && state.Initial == old(state.Initial)
      invariant state.Trace == old(state.Trace) + emitted && messages == Results(finalizedCalls)
      invariant BatchGoesOn(whole, emitted, finalizedCalls, Sequential(calls, scripts, k, signal.aborted))
    {
      var script := ScriptOf(scripts, k);
      ghost var aborted := signal.aborted;
      signal.aborted := signal.aborted || script.abortsInPreparation;
      ghost var one := RunOne(calls[k], script, signal.aborted);
      var message, finalized := RunToolCall(calls[k], script, signal.aborted, state);
      signal.aborted := signal.aborted || script.abortsAfter;
      SequentialStep(calls, scripts, k, aborted);
      BatchEmits(whole, emitted, finalizedCalls, one.0, one.1,
                 if signal.aborted then BatchRun([], [], true) else Sequential(calls, scripts, k + 1, false));
      ResultsSnoc(finalizedCalls, finalized);
      emitted := emitted + one.0;
      finalizedCalls := finalizedCalls + [finalized];
      messages := messages + [message];
      k := k + 1;
      if signal.aborted {
        BatchEnds(whole, emitted, finalizedCalls, true);
        return messages, ShouldTerminate(finalizedCalls);
      }
    }
    BatchEnds(whole, emitted, finalizedCalls, signal.aborted);
    return messages, ShouldTerminate(finalizedCalls);
  }

  lemma {:induction false} SequentialEnds(calls: seq<ToolCall>, scripts: seq<CallScript>)
    ensures forall aborted :: Sequential(calls, scripts, |calls|, aborted) == BatchRun([], [], aborted)
  {
  }

  lemma {:induction false} SequentialStep(calls: seq<ToolCall>, scripts: seq<CallScript>, k: nat, aborted: bool)
    requires k < |calls|
    ensures var script := ScriptOf(scripts, k);
            var abortedThen := aborted || script.abortsInPreparation;
            var (trace, f) := RunOne(calls[k], script, abortedThen);
            Sequential(calls, scripts, k, aborted) ==
            Prepend(trace, f, if abortedThen || script.abortsAfter then BatchRun([], [], true)
                              else Sequential(calls, scripts, k + 1, false))
  {
    hide RunOne, Prepend;
  }

  /** One call of a sequential batch. */
  method RunToolCall(call: ToolCall, script: CallScript, aborted: bool, state: Transcript)
    returns (message: ToolResultMessage, finalized: Finalized)
    requires state.Valid()
    modifies state
    ensures state.Valid() && state.Initial == old(state.Initial)
    ensures var (trace, f) := RunOne(call, script, aborted);
            finalized == f && message == ResultOf(f) && state.Trace == old(state.Trace) + trace
  {
    var preparation := Prepare(call, script, aborted);
    match preparation {
      case Immediate(outcome, isError) =>
        finalized := Finalized(call, outcome, isError);
        message := ReportCall(call, [], finalized, state);
      case Prepared =>
        finalized := Finalize(call, Executed(script.execution), script.after);
        message := ReportCall(call, script.updates, finalized, state);
    }
  }

  /** What preparing does from some call on follows what it did before. */
  ghost predicate StartGoesOn(whole: Started, emitted: seq<Event>, entries: seq<Entry>, rest: Started) {
    && whole.trace == emitted + rest.trace
    && whole.entries == entries + rest.entries
    && whole.aborted == rest.aborted
  }

  lemma {:induction false} StartEmits(whole: Started, emitted: seq<Event>, entries: seq<Entry>,
                                      trace: seq<Event>, entry: Entry, rest: Started)
    requires StartGoesOn(whole, emitted, entries, StartThen(trace, entry, rest))
    ensures StartGoesOn(whole, emitted + trace, entries + [entry], rest)
  {
    assert emitted + (trace + rest.trace) == emitted + trace + rest.trace;
    assert entries + ([entry] + rest.entries) == entries + [entry] + rest.entries;
  }

  lemma {:induction false} StartStep(calls: seq<ToolCall>, scripts: seq<CallScript>, k: nat, aborted: bool)
    requires k < |calls|
    ensures var script := ScriptOf(scripts, k);
            var abortedThen := aborted || script.abortsInPreparation;
            var (trace, entry) := StartOne(calls[k], script, abortedThen);
            StartAll(calls, scripts, k, aborted) ==
            StartThen(trace, entry, if abortedThen || script.abortsAfter then Started([], [], true)
                                    else StartAll(calls, scripts, k + 1, false))
  {
    hide StartOne, StartThen;
  }

  lemma {:induction false} StartAllEnds(calls: seq<ToolCall>, scripts: seq<CallScript>, aborted: bool)
    ensures StartAll(calls, scripts, |calls|, aborted) == Started([], [], aborted)
  {
  }

  lemma {:induction false} StartsWhole(whole: Started)
    ensures StartGoesOn(whole, [], [], whole)
  {
  }

  lemma {:induction false} StartEnds(whole: Started, emitted: seq<Event>, entries: seq<Entry>, aborted: bool)
    requires StartGoesOn(whole, emitted, entries, Started([], [], aborted))
    ensures whole == Started(emitted, entries, aborted)
  {
  }

  /** Prepares one call of a parallel batch. */
  method StartToolCall(call: ToolCall, script: CallScript, aborted: bool, state: Transcript) returns (entry: Entry)
    requires state.Valid()
    modifies state
    ensures state.Valid() && state.Initial == old(state.Initial)
    ensures var (trace, e) := StartOne(call, script, aborted);
            entry == e && state.Trace == old(state.Trace) + trace
  {
    state.Emit(StartOf(call));
    var preparation := Prepare(call, script, aborted);
    match preparation {
      case Immediate(outcome, isError) =>
        var finalized := Finalized(call, outcome, isError);
        state.Emit(EndOf(finalized));
        entry := Settled(finalized);
      case Prepared =>
        entry := Running(call, script.updates, script.execution, script.after);
    }
  }

  /** The preparation loop of executeToolCallsParallel. */
  method StartToolCalls(calls: seq<ToolCall>, scripts: seq<CallScript>, signal: AbortSignal, state: Transcript)
    returns (entries: seq<Entry>)
    requires state.Valid()
    modifies state, signal
    ensures state.Valid() && state.Initial == old(state.Initial)
    ensures var s := StartAll(calls, scripts, 0, old(signal.aborted));
            entries == s.entries && state.Trace == old(state.Trace) + s.trace && signal.aborted == s.aborted
  {
    hide StartAll, StartOne, StartThen, StartGoesOn, ReduceAll;
    entries := [];
    ghost var whole := StartAll(calls, scripts, 0, signal.aborted);
    ghost var emitted: seq<Event> := [];
    StartsWhole(whole);
    var k := 0;
    while k < |calls|
      invariant k <= |calls| && state.Valid() && state.Initial == old(state.Initial)
      invariant state.Trace == old(state.Trace) + emitted
      invariant StartGoesOn(whole, emitted, entries, StartAll(calls, scripts, k, signal.aborted))
    {
      var script := ScriptOf(scripts, k);
      ghost var aborted := signal.aborted;
      signal.aborted := signal.aborted || script.abortsInPreparation;
      ghost var trace := StartOne(calls[k], script, signal.aborted).0;
      var entry := StartToolCall(calls[k], script, signal.aborted, state);
      signal.aborted := signal.aborted || script.abortsAfter;
      StartStep(calls, scripts, k, aborted);
      StartEmits(whole, emitted, entries, trace, entry,
                 if signal.aborted then Started([], [], true) else StartAll(calls, scripts, k + 1, false));
      emitted := emitted + trace;
      entries := entries + [entry];
      k := k + 1;
      if signal.aborted {
        StartEnds(whole, emitted, entries, true);
        return;
      }
    }
    StartAllEnds(calls, scripts, signal.aborted);
    StartEnds(whole, emitted, entries, signal.aborted);
  }

  /** The running tools take turns as scheduled until all have ended. The step that ends a task
      runs the hook on what the tool gave and writes the outcome into the task's slot; whatever
      the schedule, the slots end as the outcomes of their own tasks, in source order. */
  method AwaitAll(started: seq<Entry>, schedule: seq<nat>, state: Transcript) returns (outcomes: seq<Finalized>)
    requires state.Valid()
    modifies state
    ensures state.Valid() && state.Initial == old(state.Initial)
    ensures outcomes == Outcomes(started) == OutcomesOf(Slots(started, schedule))
    ensures state.Trace == old(state.Trace) + Concurrent(started, schedule)
  {
    hide Complete, ReduceAll, OutcomesOf, Outcomes, Concurrent, Slots, Work, Pick;
    var entries, turns := started, schedule;
    ghost var emitted: seq<Event> := [];
    while !AllSettled(entries)
      invariant state.Valid() && state.Initial == old(state.Initial)
      invariant state.Trace == old(state.Trace) + emitted
      invariant Concurrent(started, schedule) == emitted + Concurrent(entries, turns)
      invariant Outcomes(entries) == Outcomes(started)
      decreases Work(entries)
    {
      var i := Pick(entries, turns);
      ghost var e := entries[i];
      WorkStep(entries, i);
      OutcomeStays(entries, i);
      ConcurrentStep(entries, turns);
      assert emitted + Concurrent(entries, turns)
          == emitted + [StepEvent(e)] + Concurrent(entries[i := StepEntry(e)], Tail(turns));
      emitted := emitted + [StepEvent(e)];
      var entry := TakeStep(entries[i], state);
      entries, turns := entries[i := entry], Tail(turns);
    }
    ConcurrentEnd(entries, turns);
    SlotsHoldOutcomes(started, schedule);
    SettledOutcomes(entries);
    outcomes := OutcomesOf(entries);
  }

  /** The next step of a task: an update, or its end. */
  method TakeStep(task: Entry, state: Transcript) returns (entry: Entry)
    requires state.Valid() && task.Running?
    modifies state
    ensures state.Valid() && state.Initial == old(state.Initial)
    ensures entry == StepEntry(task) && state.Trace == old(state.Trace) + [StepEvent(task)]
  {
    hide ReduceAll;
    if task.updates != [] {
      state.Emit(ToolUpdate(task.call.id, task.updates[0]));
      return task.(updates := task.updates[1..]);
    }
    var finalized := Finalize(task.call, Executed(task.execution), task.after);
    state.Emit(EndOf(finalized));
    entry := Settled(finalized);
  }

  lemma {:induction false} SettledOutcomes(entries: seq<Entry>)
    requires AllSettled(entries)
    ensures OutcomesOf(entries) == Outcomes(entries)
  {
  }

  lemma {:induction false} ConcurrentStep(entries: seq<Entry>, schedule: seq<nat>)
    requires !AllSettled(entries)
    ensures var i := Pick(entries, schedule);
            Concurrent(entries, schedule) ==
            [StepEvent(entries[i])] + Concurrent(entries[i := StepEntry(entries[i])], Tail(schedule))
  {
    hide StepEvent, StepEntry, Pick, AllSettled;
  }

  lemma {:induction false} ConcurrentEnd(entries: seq<Entry>, schedule: seq<nat>)
    requires AllSettled(entries)
    ensures Concurrent(entries, schedule) == []
  {
  }

  method ExecuteToolCallsParallel(calls: seq<ToolCall>, script: BatchScript, signal: AbortSignal, state: Transcript)
    returns (messages: seq<ToolResultMessage>, terminate: bool)
    requires state.Valid()
    modifies state, signal
    ensures state.Valid() && state.Initial == old(state.Initial)
    ensures var b := Parallel(calls, script, old(signal.aborted));
            && messages == Results(b.finalized) && (terminate <==> ShouldTerminate(b.finalized))
            && state.Trace == old(state.Trace) + b.trace && signal.aborted == b.aborted
  {
    hide StartAll, Concurrent, Slots, GiveResults, OutcomesOf, Outcomes, Results, ShouldTerminate, ReduceAll;
    var entries := StartToolCalls(calls, script.calls, signal, state);
    var outcomes := AwaitAll(entries, script.schedule, state);
    signal.aborted := signal.aborted || script.abortsWhileRunning;
    messages := GiveAll(outcomes, state);
    terminate := ShouldTerminate(outcomes);
    ghost var started, running := StartAll(calls, script.calls, 0, old(signal.aborted)),
                                  Concurrent(entries, script.schedule);
    assert old(state.Trace) + started.trace + running + GiveResults(outcomes)
        == old(state.Trace) + (started.trace + running + GiveResults(outcomes));
  }

  /** Emits the result messages in source order. */
  method GiveAll(outcomes: seq<Finalized>, state: Transcript) returns (messages: seq<ToolResultMessage>)
    requires state.Valid()
    modifies state
    ensures state.Valid() && state.Initial == old(state.Initial)
    ensures messages == Results(outcomes) && state.Trace == old(state.Trace) + GiveResults(outcomes)
  {
    messages := [];
    for k := 0 to |outcomes|
      invariant state.Valid() && state.Initial == old(state.Initial)
      invariant messages == Results(outcomes[..k])
      invariant state.Trace == old(state.Trace) + GiveResults(outcomes[..k])
    {
      var message := ResultOf(outcomes[k]);
      state.EmitBoth(MessageStart(ToolResult(message)), MessageEnd(ToolResult(message)));
      messages := messages + [message];
      assert outcomes[..k + 1][..k] == outcomes[..k];
    }
    assert outcomes[..|outcomes|] == outcomes;
  }

  method ExecuteToolCalls(calls: seq<ToolCall>, script: BatchScript, sequential: bool, signal: AbortSignal,
                          state: Transcript)
    returns (messages: seq<ToolResultMessage>, terminate: bool)
    requires state.Valid()
    modifies state, signal
    ensures state.Valid() && state.Initial == old(state.Initial)
    ensures var b := Execute(calls, script, sequential, old(signal.aborted));
            && messages == Results(b.finalized) && (terminate <==> ShouldTerminate(b.finalized))
            && state.Trace == old(state.Trace) + b.trace && signal.aborted == b.aborted
  {
    if sequential || HasSequentialTool(calls, script.calls) {
      messages, terminate := ExecuteToolCallsSequential(calls, script.calls, signal, state);
    } else {
      messages, terminate := ExecuteToolCallsParallel(calls, script, signal, state);
    }
  }

  // ---- turns ----

  /** Injects pending messages before the next response. */
  method Inject(pending: seq<Message>, context: AgentContext, state: Transcript)
    requires state.Valid()
    modifies context, state
    ensures state.Valid() && state.Initial == old(state.Initial)
    ensures state.Trace == old(state.Trace) + AnnounceAll(pending)
    ensures context.messages == old(context.messages) + pending
  {
    for k := 0 to |pending|
      invariant state.Valid() && state.Initial == old(state.Initial)
      invariant state.Trace == old(state.Trace) + AnnounceAll(pending[..k])
      invariant context.messages == old(context.messages) + pending[..k]
    {
      state.EmitBoth(MessageStart(pending[k]), MessageEnd(pending[k]));
      context.messages := context.messages + [pending[k]];
      assert pending[..k + 1][..k] == pending[..k];
    }
    assert pending[..|pending|] == pending;
  }

  /** The tool calls of a complete response; their results join the context. */
  method AnswerToolCalls(message: AssistantMessage, script: BatchScript, sequential: bool,
                         context: AgentContext, signal: AbortSignal, state: Transcript)
    returns (toolResults: seq<ToolResultMessage>, hasMoreToolCalls: bool)
    requires state.Valid()
    modifies context, signal, state
    ensures state.Valid() && state.Initial == old(state.Initial)
    ensures var b := RunBatch(message, script, sequential, old(signal.aborted));
            && toolResults == Results(b.finalized) && (hasMoreToolCalls <==> HasMore(message, b.finalized))
            && state.Trace == old(state.Trace) + b.trace && signal.aborted == b.aborted
            && context.messages == old(context.messages) + AsMessages(toolResults)
  {
    hide Execute, FailTruncated, ToolCalls, Results, AsMessages, ShouldTerminate, ReduceAll;
    var toolCalls := ToolCalls(message.content);
    toolResults, hasMoreToolCalls := [], false;
    NoResults();
    if toolCalls != [] {
      var terminate;
      if message.stopReason == Length {
        toolResults, terminate := FailToolCallsFromTruncatedMessage(toolCalls, signal.aborted, state);
        TruncatedAnswers(toolCalls, 0, signal.aborted);
      } else {
        toolResults, terminate := ExecuteToolCalls(toolCalls, script, sequential, signal, state);
      }
      hasMoreToolCalls := !terminate;
    }
    context.messages := context.messages + AsMessages(toolResults);
  }

  /** One turn of the inner loop, up to its `turn_end`. */
  method RunTurn(firstTurn: bool, pending: seq<Message>, t: TurnScript, config: Config, context: AgentContext,
                 signal: AbortSignal, state: Transcript, ghost source: Source, ghost queues: Queues)
    returns (toolResults: seq<ToolResultMessage>, hasMoreToolCalls: bool, request: Request, ghost turn: Turn)
    requires state.Valid()
    modifies context, signal, state
    ensures state.Valid() && state.Initial == old(state.Initial)
    ensures var st := LoopState(old(context.messages), config, old(signal.aborted), queues);
            && turn == TakeTurn(st, pending, source, t)
            && LoopState(context.messages, config, signal.aborted, queues) == AfterTurn(st, turn)
    ensures state.Trace == old(state.Trace) + (if firstTurn then [] else [TurnStart]) + TurnTrace(turn)
    ensures turn.injected == pending && turn.response == t.response
    ensures toolResults == TurnResults(turn) && request == turn.request
    ensures !Failed(t.response) ==> (hasMoreToolCalls <==> HasMore(t.response, turn.batch.finalized))
    ensures !Failed(t.response) ==> (hasMoreToolCalls <==> !AsksNoMore(turn))
  {
    hide RunBatch, AnnounceAll, ReadStream, HasMore, ReduceAll, AsMessages, Results, AsksNoMore;
    ghost var st := LoopState(context.messages, config, signal.aborted, queues);
    turn := TakeTurn(st, pending, source, t);
    if !firstTurn {
      state.Emit(TurnStart);
    }
    Inject(pending, context, state);
    request := StreamAssistantResponse(context, config, t.events, t.response, state);
    toolResults, hasMoreToolCalls := [], false;
    if Failed(t.response) {
      NoResults();
    } else {
      toolResults, hasMoreToolCalls := AnswerToolCalls(t.response, t.batch, config.sequential, context, signal, state);
    }
    state.Emit(TurnEnd(Assistant(t.response), toolResults));
    TurnEvents(old(state.Trace) + (if firstTurn then [] else [TurnStart]), turn);
    MoreExactly(turn);
  }

  lemma {:induction false} TurnEvents(before: seq<Event>, turn: Turn)
    ensures before + AnnounceAll(turn.injected) + StreamOf(turn).trace + turn.batch.trace
            + [TurnEnd(Assistant(turn.response), TurnResults(turn))] == before + TurnTrace(turn)
  {
    hide AnnounceAll, StreamOf, TurnResults;
  }

  // ---- the loop ----

  /** What a run does from some point on follows what it did before. */
  ghost predicate GoesOn(whole: Run, turns: seq<Turn>, acts: seq<UserAct>, rest: Run) {
    whole.turns == turns + rest.turns && whole.acts == acts + rest.acts && whole.final == rest.final
  }

  lemma {:induction false} GoesOver(whole: Run, turns: seq<Turn>, acts: seq<UserAct>, turn: Turn, final: LoopState)
    requires GoesOn(whole, turns, acts, Run([turn], [], final))
    ensures whole == Run(turns + [turn], acts, final)
  {
  }

  lemma {:induction false} GoesFurther(whole: Run, turns: seq<Turn>, done: seq<UserAct>, turn: Turn,
                                       acts: seq<UserAct>, rest: Run)
    requires GoesOn(whole, turns, done, TurnThen(turn, acts, rest))
    ensures GoesOn(whole, turns + [turn], done + acts, rest)
  {
    assert turns + ([turn] + rest.turns) == turns + [turn] + rest.turns;
    assert done + (acts + rest.acts) == done + acts + rest.acts;
  }

  /** How a turn ends the run, or where it leads. */
  lemma {:induction false} TurnLeads(whole: Run, turns: seq<Turn>, done: seq<UserAct>, st: LoopState,
                                     injected: seq<Message>, source: Source, script: seq<TurnScript>, i: nat)
    requires i <= |script| && GoesOn(whole, turns, done, RunFrom(st, injected, source, script[i..]))
    ensures var t := ScriptAt(script, i);
            var turn := TakeTurn(st, injected, source, t);
            var ended := AfterTurn(st, turn);
            var next := Updated(ended, t.update);
            if Failed(t.response) then whole == Run(turns + [turn], done, ended)
            else
              && i < |script|
              && if t.stops then whole == Run(turns + [turn], done, next)
                 else
                   var acted := Acted(next, t.beforeSteering);
                   GoesOn(whole, turns + [turn], done + t.beforeSteering,
                          Resume(SteeringPolled(acted), HasMore(t.response, turn.batch.finalized),
                                 Drained(acted.queues.steering), Steering, t.beforeFollowUp, script[i + 1..]))
  {
    hide TakeTurn, AfterTurn, Updated, Acted, Resume, HasMore, GoesOn;
    var t := ScriptAt(script, i);
    var turn := TakeTurn(st, injected, source, t);
    var ended := AfterTurn(st, turn);
    var next := Updated(ended, t.update);
    if Failed(t.response) {
      GoesOver(whole, turns, done, turn, ended);
    } else {
      assert script[i..][1..] == script[i + 1..];
      if t.stops {
        GoesOver(whole, turns, done, turn, next);
      } else {
        var acted := Acted(next, t.beforeSteering);
        GoesFurther(whole, turns, done, turn, t.beforeSteering,
                    Resume(SteeringPolled(acted), HasMore(t.response, turn.batch.finalized),
                           Drained(acted.queues.steering), Steering, t.beforeFollowUp, script[i + 1..]));
      }
    }
  }

  /** Where the loop goes when there is nothing left to do but follow-ups. */
  lemma {:induction false} PauseLeads(whole: Run, turns: seq<Turn>, done: seq<UserAct>, st: LoopState,
                                      source: Source, acts: seq<UserAct>, script: seq<TurnScript>)
    requires GoesOn(whole, turns, done, Resume(st, false, [], source, acts, script))
    ensures var acted := Acted(st, acts);
            var follow := Drained(acted.queues.followUp);
            var next := FollowUpPolled(acted);
            if follow != [] then GoesOn(whole, turns, done + acts, RunFrom(next, follow, Following, script))
            else whole == Run(turns, done + acts, next)
  {
    hide Acted, RunFrom, Drained;
    var acted := Acted(st, acts);
    var follow := Drained(acted.queues.followUp);
    var next := FollowUpPolled(acted);
    var rest := if follow != [] then RunFrom(next, follow, Following, script) else Run([], [], next);
    assert done + (acts + rest.acts) == done + acts + rest.acts;
    if follow == [] {
      assert turns + [] == turns && done + acts + [] == done + acts;
    }
  }

  lemma {:induction false} RunOpens(st: LoopState, acts: seq<UserAct>, skip: bool, script: seq<TurnScript>)
    ensures var acted := Acted(st, acts);
            var from := if skip then acted else SteeringPolled(acted);
            GoesOn(WholeRun(st, acts, skip, script), [], acts,
                   RunFrom(from, if skip then [] else Drained(acted.queues.steering), Steering, script))
  {
    hide Acted, RunFrom, Drained;
  }

  function Requests(turns: seq<Turn>): (requests: seq<Request>)
    ensures |requests| == |turns| && forall k | 0 <= k < |turns| :: requests[k] == turns[k].request
  {
    if turns == [] then [] else Requests(turns[..|turns| - 1]) + [turns[|turns| - 1].request]
  }

  /** What a run has emitted, added and sent when `turns` are over. */
  ghost predicate Reports(prompts: seq<Message>, turns: seq<Turn>, trace: seq<Event>,
                          newMessages: seq<Message>, requests: seq<Request>) {
    && trace == TurnsTrace(prompts, turns)
    && newMessages == prompts + Flatten(turns)
    && requests == Requests(turns)
  }

  lemma {:induction false} TurnReported(prompts: seq<Message>, turns: seq<Turn>, trace: seq<Event>,
                                        newMessages: seq<Message>, requests: seq<Request>, turn: Turn)
    requires Reports(prompts, turns, trace, newMessages, requests)
    ensures Reports(prompts, turns + [turn],
                    trace + (if turns == [] then [] else [TurnStart]) + TurnTrace(turn),
                    newMessages + TurnMessages(turn), requests + [turn.request])
  {
    hide TurnTrace, TurnMessages;
    assert (turns + [turn])[..|turns|] == turns;
    assert prompts + Flatten(turns) + TurnMessages(turn) == prompts + (Flatten(turns) + TurnMessages(turn));
  }

  lemma {:induction false} AllReported(prompts: seq<Message>, turns: seq<Turn>, trace: seq<Event>,
                                       newMessages: seq<Message>, requests: seq<Request>)
    requires Reports(prompts, turns, trace, newMessages, requests)
    ensures trace + [AgentEnd(newMessages)] == RunTrace(prompts, turns)
    ensures newMessages == prompts + Flatten(turns) && requests == Requests(turns)
  {
    hide TurnsTrace, Flatten, Requests;
  }

  lemma {:induction false} AddedMessages(before: seq<Message>, turn: Turn)
    ensures before + turn.injected + [Assistant(turn.response)] + AsMessages(TurnResults(turn)) ==
            before + TurnMessages(turn)
  {
    hide TurnResults;
  }

  lemma {:induction false} ResumeMore(st: LoopState, hasMore: bool, pending: seq<Message>, source: Source,
                                      acts: seq<UserAct>, script: seq<TurnScript>)
    requires hasMore || pending != []
    ensures Resume(st, hasMore, pending, source, acts, script) == RunFrom(st, pending, source, script)
  {
    hide RunFrom;
  }

  lemma {:induction false} NothingReported(prompts: seq<Message>)
    ensures Reports(prompts, [], TurnsTrace(prompts, []), prompts, [])
  {
  }

  ghost function Now(context: AgentContext, config: Config, signal: AbortSignal,
                     steering: PendingMessageQueue, followUp: PendingMessageQueue): LoopState
    reads context, signal, steering, followUp
  {
    LoopState(context.messages, config, signal.aborted, Queues(steering.Value(), followUp.Value()))
  }

  /** The user's acts between two steps of a run. */
  method Perform(acts: seq<UserAct>, steering: PendingMessageQueue, followUp: PendingMessageQueue,
                 signal: AbortSignal)
    requires steering != followUp
    modifies steering, followUp, signal
    ensures Queues(steering.Value(), followUp.Value()) ==
            ActAll(old(Queues(steering.Value(), followUp.Value())), acts)
    ensures signal.aborted == (old(signal.aborted) || AbortRun in acts)
  {
    for k := 0 to |acts|
      invariant Queues(steering.Value(), followUp.Value()) ==
                ActAll(old(Queues(steering.Value(), followUp.Value())), acts[..k])
      invariant signal.aborted == (old(signal.aborted) || AbortRun in acts[..k])
    {
      match acts[k] {
        case Steer(message) => steering.Enqueue(message);
        case FollowUp(message) => followUp.Enqueue(message);
        case SetSteeringMode(mode) => steering.mode := mode;
        case SetFollowUpMode(mode) => followUp.mode := mode;
        case AbortRun => signal.aborted := true;
      }
      assert acts[..k + 1][..k] == acts[..k];
    }
    assert acts[..|acts|] == acts;
  }

  /** The user acts; then the steering queue is drained. */
  method PollSteering(acts: seq<UserAct>, steering: PendingMessageQueue, followUp: PendingMessageQueue,
                      signal: AbortSignal, ghost context: AgentContext, ghost config: Config)
    returns (pending: seq<Message>)
    requires steering != followUp
    modifies steering, followUp, signal
    ensures var acted := Acted(old(Now(context, config, signal, steering, followUp)), acts);
            && pending == Drained(acted.queues.steering)
            && Now(context, config, signal, steering, followUp) == SteeringPolled(acted)
  {
    hide ActAll, Drained, AfterDrain;
    Perform(acts, steering, followUp, signal);
    pending := steering.Drain();
  }

  /** The poll at the start, which `continue()` skips when it has drained the queue itself. */
  method PollInitially(acts: seq<UserAct>, skip: bool, steering: PendingMessageQueue, followUp: PendingMessageQueue,
                       signal: AbortSignal, ghost context: AgentContext, ghost config: Config)
    returns (pending: seq<Message>)
    requires steering != followUp
    modifies steering, followUp, signal
    ensures var acted := Acted(old(Now(context, config, signal, steering, followUp)), acts);
            && pending == (if skip then [] else Drained(acted.queues.steering))
            && Now(context, config, signal, steering, followUp) == if skip then acted else SteeringPolled(acted)
  {
    hide ActAll, Drained, AfterDrain;
    if skip {
      Perform(acts, steering, followUp, signal);
      pending := [];
    } else {
      pending := PollSteering(acts, steering, followUp, signal, context, config);
    }
  }

  method PollFollowUps(acts: seq<UserAct>, steering: PendingMessageQueue, followUp: PendingMessageQueue,
                       signal: AbortSignal, ghost context: AgentContext, ghost config: Config)
    returns (follow: seq<Message>)
    requires steering != followUp
    modifies steering, followUp, signal
    ensures var acted := Acted(old(Now(context, config, signal, steering, followUp)), acts);
            && follow == Drained(acted.queues.followUp)
            && Now(context, config, signal, steering, followUp) == FollowUpPolled(acted)
  {
    hide ActAll, Drained, AfterDrain;
    Perform(acts, steering, followUp, signal);
    follow := followUp.Drain();
  }

  /** What `prepareNextTurn` gives replaces the context and parts of the configuration. */
  method PrepareNextTurn(update: Option<TurnUpdate>, current: AgentContext, config: Config,
                         ghost aborted: bool, ghost queues: Queues)
    returns (context: AgentContext, next: Config)
    ensures context == current || fresh(context)
    ensures LoopState(context.messages, next, aborted, queues) ==
            Updated(LoopState(current.messages, config, aborted, queues), update)
  {
    context, next := current, config;
    if update.Some? {
      var u := update.value;
      if u.context.Some? {
        context := new AgentContext(u.context.value);
      }
      next := config.(model := u.model.GetOr(config.model),
                      reasoning := if u.thinkingLevel.None? then config.reasoning
                                   else if u.thinkingLevel.value == "off" then None
                                   else u.thinkingLevel);
    }
  }

  /** Between the end of a turn and the next decision of the loop: the next turn is prepared, and
      unless the run is to stop, steering is polled. */
  method LeaveTurn(t: TurnScript, current: AgentContext, config: Config,
                   steering: PendingMessageQueue, followUp: PendingMessageQueue, signal: AbortSignal)
    returns (context: AgentContext, next: Config, pending: seq<Message>)
    requires steering != followUp
    modifies steering, followUp, signal
    ensures context == current || fresh(context)
    ensures var updated := Updated(old(Now(current, config, signal, steering, followUp)), t.update);
            if t.stops then pending == [] && Now(context, next, signal, steering, followUp) == updated
            else
              var acted := Acted(updated, t.beforeSteering);
              && pending == Drained(acted.queues.steering)
              && Now(context, next, signal, steering, followUp) == SteeringPolled(acted)
  {
    hide Updated, Acted, Drained, AfterDrain;
    ghost var queues := Queues(steering.Value(), followUp.Value());
    context, next := PrepareNextTurn(t.update, current, config, signal.aborted, queues);
    pending := [];
    if !t.stops {
      pending := PollSteering(t.beforeSteering, steering, followUp, signal, context, next);
    }
  }

  /** runLoop: the messages that were added and the requests that were sent. */
  method RunLoop(initialContext: AgentContext, prompts: seq<Message>, initialConfig: Config,
                 acts: seq<UserAct>, skipInitialSteeringPoll: bool, script: seq<TurnScript>,
                 steering: PendingMessageQueue, followUp: PendingMessageQueue, signal: AbortSignal, state: Transcript)
    returns (newMessages: seq<Message>, requests: seq<Request>)
    requires state.Valid() && state.Trace == TurnsTrace(prompts, []) && steering != followUp
    modifies initialContext, steering, followUp, signal, state
    ensures state.Valid() && state.Initial == old(state.Initial)
    ensures var run := WholeRun(old(Now(initialContext, initialConfig, signal, steering, followUp)), acts,
                                skipInitialSteeringPoll, script);
            && state.Trace == RunTrace(prompts, run.turns)
            && newMessages == prompts + Flatten(run.turns)
            && requests == Requests(run.turns)
            && Queues(steering.Value(), followUp.Value()) == run.final.queues
            && signal.aborted == run.final.aborted
  {
    hide WholeRun, RunFrom, TakeTurn, AfterTurn, Updated, Acted, TurnsTrace, Flatten, Requests, TurnTrace,
      TurnMessages, Drained, HasMore, ReduceAll, GoesOn, Reports, AfterDrain, Resume, AsksNoMore, Failed, AsMessages;
    ghost var start := Now(initialContext, initialConfig, signal, steering, followUp);
    ghost var whole := WholeRun(start, acts, skipInitialSteeringPoll, script);
    ghost var turns: seq<Turn>, done, source := [], acts, Steering;
    newMessages, requests := prompts, [];
    var currentContext, config, firstTurn := initialContext, initialConfig, true;
    RunOpens(start, acts, skipInitialSteeringPoll, script);
    NothingReported(prompts);
    var pendingMessages :=
      PollInitially(acts, skipInitialSteeringPoll, steering, followUp, signal, initialContext, initialConfig);
    var i, nextActs: seq<UserAct> := 0, [];
    assert script[0..] == script;
    while true
      invariant i <= |script| && state.Valid() && state.Initial == old(state.Initial)
      invariant currentContext == initialContext || fresh(currentContext)
      invariant GoesOn(whole, turns, done, RunFrom(Now(currentContext, config, signal, steering, followUp),
                                                   pendingMessages, source, script[i..]))
      invariant Reports(prompts, turns, state.Trace, newMessages, requests)
      invariant firstTurn <==> turns == []
      decreases |script| - i
    {
      var hasMoreToolCalls := true;
      ghost var i0 := i;
      ResumeMore(Now(currentContext, config, signal, steering, followUp), true, pendingMessages, source, nextActs,
                 script[i..]);
      while hasMoreToolCalls || pendingMessages != []
        invariant i0 <= i <= |script| && (i == i0 ==> hasMoreToolCalls)
        invariant state.Valid() && state.Initial == old(state.Initial)
        invariant currentContext == initialContext || fresh(currentContext)
        invariant GoesOn(whole, turns, done, Resume(Now(currentContext, config, signal, steering, followUp),
                                                    hasMoreToolCalls, pendingMessages, source, nextActs, script[i..]))
        invariant Reports(prompts, turns, state.Trace, newMessages, requests)
        invariant firstTurn <==> turns == []
        decreases |script| - i
      {
        var t := ScriptAt(script, i);
        ghost var st, trace := Now(currentContext, config, signal, steering, followUp), state.Trace;
        ResumeMore(st, hasMoreToolCalls, pendingMessages, source, nextActs, script[i..]);
        ghost var turn;
        var toolResults, request;
        toolResults, hasMoreToolCalls, request, turn :=
          RunTurn(firstTurn, pendingMessages, t, config, currentContext, signal, state, source, st.queues);
        TurnLeads(whole, turns, done, st, pendingMessages, source, script, i);
        TurnReported(prompts, turns, trace, newMessages, requests, turn);
        AddedMessages(newMessages, turn);
        firstTurn, turns := false, turns + [turn];
        newMessages := newMessages + pendingMessages + [Assistant(t.response)] + AsMessages(toolResults);
        requests := requests + [request];
        if Failed(t.response) {
          AllReported(prompts, turns, state.Trace, newMessages, requests);
          state.Emit(AgentEnd(newMessages));
          return;
        }
        currentContext, config, pendingMessages :=
          LeaveTurn(t, currentContext, config, steering, followUp, signal);
        if t.stops {
          AllReported(prompts, turns, state.Trace, newMessages, requests);
          state.Emit(AgentEnd(newMessages));
          return;
        }
        done, source, nextActs, i := done + t.beforeSteering, Steering, t.beforeFollowUp, i + 1;
      }
      ghost var st := Now(currentContext, config, signal, steering, followUp);
      PauseLeads(whole, turns, done, st, source, nextActs, script[i..]);
      var followUpMessages := PollFollowUps(nextActs, steering, followUp, signal, currentContext, config);
      done := done + nextActs;
      if followUpMessages == [] {
        break;
      }
      pendingMessages, source := followUpMessages, Following;
    }
    AllReported(prompts, turns, state.Trace, newMessages, requests);
    state.Emit(AgentEnd(newMessages));
  }

  /** runAgentLoop. */
  method RunAgentLoop(prompts: seq<Message>, context: seq<Message>, skipInitialSteeringPoll: bool, env: Env,
                      steering: PendingMessageQueue, followUp: PendingMessageQueue, signal: AbortSignal,
                      state: Transcript)
    returns (newMessages: seq<Message>, requests: seq<Request>)
    requires state.Valid() && state.Trace == [] && steering != followUp && !signal.aborted
    modifies steering, followUp, signal, state
    ensures state.Valid() && state.Initial == old(state.Initial)
    ensures var st := LoopState(context + prompts, env.config, false,
                                old(Queues(steering.Value(), followUp.Value())));
            var run := WholeRun(st, env.acts, skipInitialSteeringPoll, env.script);
            && state.Trace == RunTrace(prompts, run.turns)
            && newMessages == prompts + Flatten(run.turns)
            && requests == Requests(run.turns)
            && Queues(steering.Value(), followUp.Value()) == run.final.queues
  {
    hide WholeRun, RunTrace, Flatten, Requests, ReduceAll, AnnounceAll;
    var currentContext := new AgentContext(context + prompts);
    state.EmitBoth(AgentStart, TurnStart);
    state.EmitAll(prompts);
    assert [] + [AgentStart, TurnStart] + AnnounceAll(prompts) == TurnsTrace(prompts, []);
    newMessages, requests := RunLoop(currentContext, prompts, env.config, env.acts, skipInitialSteeringPoll,
                                     env.script, steering, followUp, signal, state);
  }

  /** runAgentLoopContinue: it refuses an empty context and one that ends with a response, before
      it emits anything; else it is a run without prompts. */
  method RunAgentLoopContinue(context: seq<Message>, skipInitialSteeringPoll: bool, env: Env,
                              steering: PendingMessageQueue, followUp: PendingMessageQueue, signal: AbortSignal,
                              state: Transcript)
    returns (newMessages: Result<seq<Message>, AgentError>, requests: seq<Request>)
    requires state.Valid() && state.Trace == [] && steering != followUp && !signal.aborted
    modifies steering, followUp, signal, state
    ensures state.Valid() && state.Initial == old(state.Initial)
    ensures context == [] ==> newMessages == Err(NothingToContinue)
    ensures context != [] && context[|context| - 1].Assistant? ==> newMessages == Err(ContinuesFromAssistant)
    ensures context != [] && !context[|context| - 1].Assistant? ==> newMessages.Ok?
    ensures newMessages.Err? ==>
              && requests == [] && state.Trace == [] && state.State() == old(state.State())
              && Queues(steering.Value(), followUp.Value()) == old(Queues(steering.Value(), followUp.Value()))
    ensures var st := LoopState(context, env.config, false, old(Queues(steering.Value(), followUp.Value())));
            var run := WholeRun(st, env.acts, skipInitialSteeringPoll, env.script);
            newMessages.Ok? ==>
              && state.Trace == RunTrace([], run.turns)
              && newMessages == Ok(Flatten(run.turns)) && requests == Requests(run.turns)
              && Queues(steering.Value(), followUp.Value()) == run.final.queues
  {
    hide WholeRun, RunTrace, Flatten, Requests, ReduceAll;
    if context == [] {
      return Err(NothingToContinue), [];
    }
    if context[|context| - 1].Assistant? {
      return Err(ContinuesFromAssistant), [];
    }
    assert context + [] == context;
    var messages;
    messages, requests := RunAgentLoop([], context, skipInitialSteeringPoll, env, steering, followUp, signal, state);
    ghost var run := WholeRun(LoopState(context, env.config, false, old(Queues(steering.Value(), followUp.Value()))),
                              env.acts, skipInitialSteeringPoll, env.script);
    assert [] + Flatten(run.turns) == Flatten(run.turns);
    newMessages := Ok(messages);
  }

  datatype AgentError = AlreadyProcessing | NothingToContinue | ContinuesFromAssistant

  // ---- failing runs ----

  /** The message that stands for a run that failed. */
  function FailureMessage(error: string, aborted: bool): AssistantMessage {
    AssistantMessage([Text("")], if aborted then Aborted else Error, Some(error))
  }

  function FailureEvents(m: AssistantMessage): seq<Event> {
    [MessageStart(Assistant(m)), MessageEnd(Assistant(m)), TurnEnd(Assistant(m), []), AgentEnd([Assistant(m)])]
  }

  /** handleRunFailure. */
  method HandleRunFailure(error: string, aborted: bool, state: Transcript)
    requires state.Valid()
    modifies state
    ensures state.Valid() && state.Initial == old(state.Initial)
    ensures state.Trace == old(state.Trace) + FailureEvents(FailureMessage(error, aborted))
    ensures var m := Assistant(AssistantMessage([Text("")], if aborted then Aborted else Error, Some(error)));
            && state.Trace == old(state.Trace) + [MessageStart(m), MessageEnd(m), TurnEnd(m, []), AgentEnd([m])]
            && state.messages == old(state.messages) + [m]
    ensures state.streamingMessage == None
    ensures state.errorMessage == if error != "" then Some(error) else old(state.errorMessage)
  {
    hide ReduceAll;
    var failureMessage := FailureMessage(error, aborted);
    state.Emit(MessageStart(Assistant(failureMessage)));
    state.Emit(MessageEnd(Assistant(failureMessage)));
    state.Emit(TurnEnd(Assistant(failureMessage), []));
    state.Emit(AgentEnd([Assistant(failureMessage)]));
  }

  /** Wherever a run breaks off, the agent keeps what had ended by then, followed by the failure,
      and nothing of the run is left over. */
  lemma {:induction false} FailureIsRecorded(s: AgentState, trace: seq<Event>, error: string, aborted: bool)
    ensures var m := AssistantMessage([Text("")], if aborted then Aborted else Error, Some(error));
            var after := Finish(ReduceAll(Begin(s), trace + FailureEvents(FailureMessage(error, aborted))));
            && after.messages == s.messages + Ended(trace) + [Assistant(m)]
            && after.streamingMessage == None && after.pendingToolCalls == {}
            && after.errorMessage == if error != "" then Some(error) else LatestError(None, trace)
  {
    hide ReduceAll, Ended;
    var m := Assistant(FailureMessage(error, aborted));
    var first, second, third := trace + [MessageStart(m)], trace + [MessageStart(m)] + [MessageEnd(m)],
                                trace + [MessageStart(m)] + [MessageEnd(m)] + [TurnEnd(m, [])];
    TranscriptIsEnded(Begin(s), trace);
    StateShowsLatest(Begin(s), trace, "");
    ReduceSnoc(Begin(s), trace, MessageStart(m));
    ReduceSnoc(Begin(s), first, MessageEnd(m));
    ReduceSnoc(Begin(s), second, TurnEnd(m, []));
    ReduceSnoc(Begin(s), third, AgentEnd([m]));
    assert trace + FailureEvents(FailureMessage(error, aborted)) == third + [AgentEnd([m])];
  }

  // ---- the agent ----

  class Agent {
    const state: Transcript
    const steeringQueue: PendingMessageQueue
    const followUpQueue: PendingMessageQueue
    var activeRun: bool
    ghost var History: seq<Chapter>

    constructor (messages: seq<Message>, steeringMode: QueueMode, followUpMode: QueueMode)
      ensures Valid() && !activeRun && fresh(state) && fresh(steeringQueue) && fresh(followUpQueue)
      ensures Model() == Life(AgentState(messages, None, {}, None),
                              Queues(Queue([], steeringMode), Queue([], followUpMode)), [])
    {
      state := new Transcript(messages);
      steeringQueue := new PendingMessageQueue(steeringMode);
      followUpQueue := new PendingMessageQueue(followUpMode);
      activeRun := false;
      History := [];
    }

    predicate Valid() { steeringQueue != followUpQueue }

    ghost function Model(): Life
      reads this, state, steeringQueue, followUpQueue
    {
      Life(state.State(), Queues(steeringQueue.Value(), followUpQueue.Value()), History)
    }

    method Steer(message: Message)
      requires Valid()
      modifies this, steeringQueue
      ensures Model() == Live(old(Model()), Op.Idle([UserAct.Steer(message)])) && activeRun == old(activeRun)
    {
      steeringQueue.Enqueue(message);
      History := History + [Rested([UserAct.Steer(message)])];
      OneAct(old(Model().queues), UserAct.Steer(message));
    }

    method FollowUp(message: Message)
      requires Valid()
      modifies this, followUpQueue
      ensures Model() == Live(old(Model()), Op.Idle([UserAct.FollowUp(message)])) && activeRun == old(activeRun)
    {
      followUpQueue.Enqueue(message);
      History := History + [Rested([UserAct.FollowUp(message)])];
      OneAct(old(Model().queues), UserAct.FollowUp(message));
    }

    /** runPromptMessages, inside runWithLifecycle. */
    method RunMessages(messages: seq<Message>, ghost source: Source, skipInitialSteeringPoll: bool, env: Env)
      returns (newMessages: seq<Message>, requests: seq<Request>)
      requires Valid() && !activeRun
      modifies this, state, steeringQueue, followUpQueue
      ensures !activeRun
      ensures Model() == RunOp(old(Model()), old(Model().queues), messages, source, skipInitialSteeringPoll, env)
      ensures var run := WholeRun(StartState(old(state.State()), messages, env, old(Model().queues)), env.acts,
                                  skipInitialSteeringPoll, env.script);
              newMessages == messages + Flatten(run.turns) && requests == Requests(run.turns)
    {
      hide WholeRun, RunTrace, Flatten, Requests, ReduceAll, Finish;
      ghost var run := WholeRun(StartState(state.State(), messages, env, Model().queues), env.acts,
                                skipInitialSteeringPoll, env.script);
      activeRun := true;
      var signal := new AbortSignal();
      state.BeginRun();
      newMessages, requests := RunAgentLoop(messages, state.messages, skipInitialSteeringPoll, env,
                                            steeringQueue, followUpQueue, signal, state);
      state.FinishRun();
      activeRun := false;
      History := History + [Ran(messages, source, run.turns, run.acts)];
    }

    /** runContinuation, inside runWithLifecycle. */
    method RunContinuation(env: Env) returns (newMessages: seq<Message>, requests: seq<Request>)
      requires Valid() && !activeRun && state.messages != [] && !state.messages[|state.messages| - 1].Assistant?
      modifies this, state, steeringQueue, followUpQueue
      ensures !activeRun
      ensures Model() == RunOp(old(Model()), old(Model().queues), [], Typed, false, env)
    {
      hide WholeRun, RunTrace, Flatten, Requests, ReduceAll, Finish;
      ghost var run := WholeRun(StartState(state.State(), [], env, Model().queues), env.acts, false, env.script);
      activeRun := true;
      var signal := new AbortSignal();
      assert state.messages + [] == state.messages;
      state.BeginRun();
      var result;
      result, requests := RunAgentLoopContinue(state.messages, false, env, steeringQueue, followUpQueue, signal, state);
      newMessages := result.value;
      state.FinishRun();
      activeRun := false;
      History := History + [Ran([], Typed, run.turns, run.acts)];
    }

    /** runWithLifecycle around an executor that throws after some events, because a stream, a hook
        or a listener did: what had ended stays, followed by the failure, and the agent is idle. */
    method RunThatThrows(emitted: seq<Event>, error: string, aborted: bool)
      requires Valid() && !activeRun
      modifies this`activeRun, state
      ensures !activeRun
      ensures state.messages ==
              old(state.messages) + Ended(emitted)
              + [Assistant(AssistantMessage([Text("")], if aborted then Aborted else Error, Some(error)))]
      ensures state.streamingMessage == None && state.pendingToolCalls == {}
      ensures state.errorMessage == if error != "" then Some(error) else LatestError(None, emitted)
    {
      hide ReduceAll, Begin, Finish, Ended, FailureEvents;
      activeRun := true;
      state.BeginRun();
      for k := 0 to |emitted|
        invariant state.Valid() && state.Initial == Begin(old(state.State())) && state.Trace == emitted[..k]
      {
        state.Emit(emitted[k]);
        assert emitted[..k + 1] == emitted[..k] + [emitted[k]];
      }
      assert emitted[..|emitted|] == emitted;
      HandleRunFailure(error, aborted, state);
      state.FinishRun();
      FailureIsRecorded(old(state.State()), emitted, error, aborted);
      activeRun := false;
    }

    method Prompt(messages: seq<Message>, env: Env) returns (r: Result<seq<Message>, AgentError>)
      requires Valid()
      modifies this, state, steeringQueue, followUpQueue
      ensures activeRun == old(activeRun)
      ensures old(activeRun) ==> r == Err(AlreadyProcessing) && Model() == old(Model())
      ensures !old(activeRun) ==> r.Ok? && Model() == Live(old(Model()), Op.Prompt(messages, env))
    {
      hide RunOp;
      if activeRun {
        return Err(AlreadyProcessing);
      }
      var newMessages, requests := RunMessages(messages, Typed, false, env);
      return Ok(newMessages);
    }

    method Continue(env: Env) returns (r: Result<seq<Message>, AgentError>)
      requires Valid()
      modifies this, state, steeringQueue, followUpQueue
      ensures activeRun == old(activeRun)
      ensures old(activeRun) ==> r == Err(AlreadyProcessing) && Model() == old(Model())
      ensures !old(activeRun) ==> Model() == Live(old(Model()), Op.Continue(env))
      ensures !old(activeRun) && r.Err? ==> Model() == old(Model())
      ensures !old(activeRun) ==>
                var ms := old(state.messages);
                if ms == [] then r == Err(NothingToContinue)
                else if ms[|ms| - 1].Assistant? && Drained(old(steeringQueue.Value())) == []
                        && Drained(old(followUpQueue.Value())) == [] then r == Err(ContinuesFromAssistant)
                else r.Ok?
    {
      hide RunOp;
      if activeRun {
        return Err(AlreadyProcessing);
      }
      if state.messages == [] {
        return Err(NothingToContinue);
      }
      var newMessages, requests;
      if state.messages[|state.messages| - 1].Assistant? {
        var queuedSteering := steeringQueue.Drain();
        if queuedSteering != [] {
          RunOpDrained(old(Model()), Model(), queuedSteering, Steering, true, env);
          newMessages, requests := RunMessages(queuedSteering, Steering, true, env);
          return Ok(newMessages);
        }
        var queuedFollowUps := followUpQueue.Drain();
        if queuedFollowUps != [] {
          RunOpDrained(old(Model()), Model(), queuedFollowUps, Following, false, env);
          newMessages, requests := RunMessages(queuedFollowUps, Following, false, env);
          return Ok(newMessages);
        }
        return Err(ContinuesFromAssistant);
      }
      newMessages, requests := RunContinuation(env);
      return Ok(newMessages);
    }
  }

  lemma {:induction false} OneAct(qs: Queues, act: UserAct)
    ensures ActAll(qs, [act]) == Act(qs, act)
  {
    assert [act][..0] == [];
  }

  /** A run only depends on the state and the history of the agent, and the queues it is given. */
  lemma {:induction false} RunOpDrained(before: Life, drained: Life, prompts: seq<Message>, source: Source,
                                        skip: bool, env: Env)
    requires before.state == drained.state && before.history == drained.history
    ensures RunOp(drained, drained.queues, prompts, source, skip, env) ==
            RunOp(before, drained.queues, prompts, source, skip, env)
  {
    hide WholeRun, RunTrace, ReduceAll;
  }
}
