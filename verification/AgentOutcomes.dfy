/**
 What the calls of a tool batch come to, field by field, and what each of them emits: the same in
 a sequential and in a parallel batch, whatever the order in which tools take their steps.
 */
module AgentOutcomes {
  import opened Wrappers
  import opened AgentTypes
  import opened AgentTools
  import opened AgentToolProofs

  // ---- the outcome of one call ----

  /** An error with this one text and nothing else. */
  predicate FailsWith(f: Finalized, text: Part) {
    && f.isError && f.outcome.content == Some([text]) && f.outcome.details == "" && f.outcome.usage == None
    && f.outcome.addedToolNames == [] && f.outcome.terminate == None
  }

  /** What a tool has come to by itself: what it returned, or an error with what it threw. */
  predicate OwnResult(f: Finalized, execution: Execution) {
    match execution
    case Returns(outcome) => !f.isError && f.outcome == outcome
    case Throws(error) => FailsWith(f, Plain(error))
  }

  /** A hook has replaced exactly the fields that it gives. */
  predicate Replaced(f: Finalized, own: Finalized, o: Override) {
    && (if o.content.Some? then f.outcome.content == o.content else f.outcome.content == own.outcome.content)
    && (if o.details.Some? then Some(f.outcome.details) == o.details else f.outcome.details == own.outcome.details)
    && (if o.usage.Some? then f.outcome.usage == o.usage else f.outcome.usage == own.outcome.usage)
    && (if o.terminate.Some? then f.outcome.terminate == o.terminate else f.outcome.terminate == own.outcome.terminate)
    && (if o.isError.Some? then Some(f.isError) == o.isError else f.isError == own.isError)
    && f.outcome.addedToolNames == own.outcome.addedToolNames
  }

  /** A tool that ran: without a hook, or one that gives nothing, it comes to its own result; a hook
      replaces what it gives; one that throws makes an error of its own. */
  ghost predicate ToolResulted(f: Finalized, script: CallScript) {
    match script.after
    case NoAfter => OwnResult(f, script.execution)
    case AfterThrows(error) => FailsWith(f, Plain(error))
    case AfterReturns(None) => OwnResult(f, script.execution)
    case AfterReturns(Some(o)) => exists own: Finalized :: OwnResult(own, script.execution) && Replaced(f, own, o)
  }

  /** A call whose tool did not run: the first obstacle on its way makes the error. A hook that
      blocks says why, if it does, and alone may ask to terminate. */
  predicate CallFailed(f: Finalized, script: CallScript, aborted: bool) {
    if script.lookup == NotFound then FailsWith(f, NoSuchTool(f.call.name))
    else if script.lookup.Rejected? then FailsWith(f, Plain(script.lookup.error))
    else if script.before.BeforeThrows? then FailsWith(f, Plain(script.before.error))
    else if aborted then FailsWith(f, OperationAborted)
    else
      && script.before.BeforeReturns? && script.before.block.Some?
      && var block := script.before.block.value;
         && FailsWith(f.(outcome := f.outcome.(terminate := None)),
                      if block.reason == None || block.reason == Some("") then ExecutionBlocked
                      else Plain(block.reason.value))
         && f.outcome.terminate == if block.terminate == Some(true) then Some(true) else None
  }

  /** The signal is aborted when call number `i` of a batch is prepared. */
  predicate AbortedAt(scripts: seq<CallScript>, i: nat, aborted: bool) {
    (i == 0 && aborted) || ScriptOf(scripts, i).abortsInPreparation
  }

  predicate RanAt(scripts: seq<CallScript>, i: nat, aborted: bool) {
    Allowed(ScriptOf(scripts, i)) && !AbortedAt(scripts, i, aborted)
  }

  /** Call number `i` of a batch has come to what its tool and its hooks say. */
  ghost predicate Resulted(f: Finalized, scripts: seq<CallScript>, i: nat, aborted: bool) {
    if RanAt(scripts, i, aborted) then ToolResulted(f, ScriptOf(scripts, i))
    else CallFailed(f, ScriptOf(scripts, i), AbortedAt(scripts, i, aborted))
  }

  /** The message that gives an outcome to the model says the same: missing content is empty. */
  predicate GivenAs(r: ToolResultMessage, f: Finalized) {
    && r.toolCallId == f.call.id && r.toolName == f.call.name && r.isError == f.isError
    && r.content == (if f.outcome.content == None then [] else f.outcome.content.value)
    && r.details == f.outcome.details && r.usage == f.outcome.usage && r.addedToolNames == f.outcome.addedToolNames
  }

  lemma {:induction false} SettlesTo(call: ToolCall, script: CallScript, aborted: bool)
    ensures var f := Settle(call, script, aborted);
            && f.call == call && GivenAs(ResultOf(f), f)
            && if Allowed(script) && !aborted then ToolResulted(f, script) else CallFailed(f, script, aborted)
  {
    if Allowed(script) && !aborted {
      var own := Finalize(call, Executed(script.execution), NoAfter);
      assert OwnResult(own, script.execution);
      if script.after.AfterReturns? && script.after.override.Some? {
        assert Replaced(Settle(call, script, aborted), own, script.after.override.value);
      }
    }
  }

  // ---- the outcomes of a batch ----

  lemma {:induction false} SequentialSettles(calls: seq<ToolCall>, scripts: seq<CallScript>, k: nat, aborted: bool,
                                             i: nat)
    requires k <= |calls| && i < |Sequential(calls, scripts, k, aborted).finalized|
    ensures k + i < |calls|
    ensures Sequential(calls, scripts, k, aborted).finalized[i] ==
            Settle(calls[k + i], ScriptOf(scripts, k + i),
                   (i == 0 && aborted) || ScriptOf(scripts, k + i).abortsInPreparation)
    decreases i
  {
    hide Settle, Prepare, OneCall;
    if i > 0 {
      SequentialSettles(calls, scripts, k + 1, false, i - 1);
    }
  }

  lemma {:induction false} StartedSettles(calls: seq<ToolCall>, scripts: seq<CallScript>, k: nat, aborted: bool, i: nat)
    requires k <= |calls| && i < |StartAll(calls, scripts, k, aborted).entries|
    ensures k + i < |calls|
    ensures Outcome(StartAll(calls, scripts, k, aborted).entries[i]) ==
            Settle(calls[k + i], ScriptOf(scripts, k + i),
                   (i == 0 && aborted) || ScriptOf(scripts, k + i).abortsInPreparation)
    decreases i
  {
    hide Settle, Prepare, Outcome;
    StartOneSettles(calls[k], ScriptOf(scripts, k), aborted || ScriptOf(scripts, k).abortsInPreparation);
    if i > 0 {
      StartedSettles(calls, scripts, k + 1, false, i - 1);
    }
  }

  /** Every outcome of every batch that executes tools, sequential or parallel and under every
      schedule, is its own call's: what its tool and its hooks say if the tool ran, and else the
      error that kept it from running; and its result message says the same. */
  lemma {:induction false} BatchOutcomes(calls: seq<ToolCall>, script: BatchScript, sequential: bool, aborted: bool,
                                         i: nat)
    requires i < |Execute(calls, script, sequential, aborted).finalized|
    ensures var fs := Execute(calls, script, sequential, aborted).finalized;
            && i < |calls| && fs[i].call == calls[i]
            && Resulted(fs[i], script.calls, i, aborted)
            && GivenAs(Results(fs)[i], fs[i])
  {
    hide Settle, ToolResulted, CallFailed, Allowed, ResultOf, GivenAs, Sequential, StartAll, Slots, Concurrent,
      OutcomesOf, Outcomes, GiveResults, HasSequentialTool;
    if sequential || HasSequentialTool(calls, script.calls) {
      SequentialSettles(calls, script.calls, 0, aborted, i);
    } else {
      SlotsHoldOutcomes(StartAll(calls, script.calls, 0, aborted).entries, script.schedule);
      StartedSettles(calls, script.calls, 0, aborted, i);
    }
    SettlesTo(calls[i], ScriptOf(script.calls, i), AbortedAt(script.calls, i, aborted));
  }

  // ---- how far a batch gets ----

  predicate AbortsAt(scripts: seq<CallScript>, i: nat) {
    ScriptOf(scripts, i).abortsInPreparation || ScriptOf(scripts, i).abortsAfter
  }

  /** Of the calls from number `k` on, `n` are reached, up to the first that finds the signal
      aborted or comes to an abort; `after` is the signal then. */
  predicate Reaches(calls: seq<ToolCall>, scripts: seq<CallScript>, k: nat, aborted: bool, n: nat, after: bool) {
    && k + n <= |calls|
    && (forall j | k <= j < k + n - 1 :: !AbortsAt(scripts, j))
    && (aborted && k < |calls| ==> n == 1)
    && (k + n < |calls| ==> n > 0 && (aborted || AbortsAt(scripts, k + n - 1)))
    && (after <==> aborted || (n > 0 && AbortsAt(scripts, k + n - 1)))
  }

  lemma {:induction false} SequentialReaches(calls: seq<ToolCall>, scripts: seq<CallScript>, k: nat, aborted: bool)
    requires k <= |calls|
    ensures var b := Sequential(calls, scripts, k, aborted);
            Reaches(calls, scripts, k, aborted, |b.finalized|, b.aborted)
    decreases |calls| - k
  {
    hide RunOne;
    if k < |calls| {
      SequentialReaches(calls, scripts, k + 1, false);
    }
  }

  lemma {:induction false} StartedReaches(calls: seq<ToolCall>, scripts: seq<CallScript>, k: nat, aborted: bool)
    requires k <= |calls|
    ensures var s := StartAll(calls, scripts, k, aborted);
            Reaches(calls, scripts, k, aborted, |s.entries|, s.aborted)
    decreases |calls| - k
  {
    hide StartOne;
    if k < |calls| {
      StartedReaches(calls, scripts, k + 1, false);
    }
  }

  /** A batch reaches its calls in order up to the first abort, which ends it; the signal is
      aborted afterwards exactly if it was or came to be, be it while tools were running. */
  lemma {:induction false} BatchReaches(calls: seq<ToolCall>, script: BatchScript, sequential: bool, aborted: bool)
    ensures var b := Execute(calls, script, sequential, aborted);
            if sequential || HasSequentialTool(calls, script.calls) then
              Reaches(calls, script.calls, 0, aborted, |b.finalized|, b.aborted)
            else
              || (Reaches(calls, script.calls, 0, aborted, |b.finalized|, true) && b.aborted)
              || (Reaches(calls, script.calls, 0, aborted, |b.finalized|, false)
                  && b.aborted == script.abortsWhileRunning)
  {
    hide Reaches, Sequential, StartAll;
    SequentialReaches(calls, script.calls, 0, aborted);
    StartedReaches(calls, script.calls, 0, aborted);
  }

  // ---- what a call emits ----

  predicate IsOwn(e: Event, id: string) {
    (e.ToolStart? || e.ToolUpdate? || e.ToolEnd?) && e.toolCallId == id
  }

  /** The tool events of a trace that bear an id, in order. */
  function Own(trace: seq<Event>, id: string): seq<Event> {
    if trace == [] then []
    else Own(trace[..|trace| - 1], id) + if IsOwn(trace[|trace| - 1], id) then [trace[|trace| - 1]] else []
  }

  lemma {:induction false} OwnAppend(a: seq<Event>, b: seq<Event>, id: string)
    ensures Own(a + b, id) == Own(a, id) + Own(b, id)
  {
    hide IsOwn;
    if b == [] {
      assert a + b == a;
    } else {
      OwnAppend(a, b[..|b| - 1], id);
      assert (a + b)[..|a + b| - 1] == a + b[..|b| - 1];
    }
  }

  lemma {:induction false} OwnOne(e: Event, id: string)
    ensures Own([e], id) == if IsOwn(e, id) then [e] else []
  {
    hide IsOwn;
    assert [e][..0] == [];
  }

  lemma {:induction false} OwnTwo(e: Event, f: Event, id: string)
    ensures Own([e, f], id) == (if IsOwn(e, id) then [e] else []) + (if IsOwn(f, id) then [f] else [])
  {
    hide IsOwn;
    assert [e, f] == [e] + [f];
    OwnAppend([e], [f], id);
    OwnOne(e, id);
    OwnOne(f, id);
  }

  lemma {:induction false} UpdatesInOrder(call: ToolCall, updates: seq<string>)
    ensures |UpdatesOf(call, updates)| == |updates|
    ensures forall j | 0 <= j < |updates| :: UpdatesOf(call, updates)[j] == ToolUpdate(call.id, updates[j])
  {
    if updates != [] {
      UpdatesInOrder(call, updates[..|updates| - 1]);
    }
  }

  lemma {:induction false} OwnUpdates(call: ToolCall, updates: seq<string>, id: string)
    ensures Own(UpdatesOf(call, updates), id) == if id == call.id then UpdatesOf(call, updates) else []
  {
    if updates == [] {
      OwnNone(id);
    } else {
      hide Own;
      var k := |updates| - 1;
      OwnUpdates(call, updates[..k], id);
      OwnAppend(UpdatesOf(call, updates[..k]), [ToolUpdate(call.id, updates[k])], id);
      OwnOne(ToolUpdate(call.id, updates[k]), id);
    }
  }

  lemma {:induction false} OwnNone(id: string)
    ensures Own([], id) == []
  {
  }

  /** The start of a call with its name and arguments, the updates of its tool in their order, and
      its end with its outcome. */
  predicate Tells(es: seq<Event>, f: Finalized, updates: seq<string>) {
    && |es| == |updates| + 2
    && es[0] == ToolStart(f.call.id, f.call.name, f.call.arguments)
    && (forall j | 0 <= j < |updates| :: es[1 + j] == ToolUpdate(f.call.id, updates[j]))
    && es[|updates| + 1] == ToolEnd(f.call.id, f.call.name, f.outcome, f.isError)
  }

  predicate DistinctIds(calls: seq<ToolCall>) { forall i, j | 0 <= i < j < |calls| :: calls[i].id != calls[j].id }

  function RanUpdates(scripts: seq<CallScript>, i: nat, aborted: bool): seq<string> {
    if RanAt(scripts, i, aborted) then ScriptOf(scripts, i).updates else []
  }

  lemma {:induction false} OwnOfOneCall(call: ToolCall, updates: seq<string>, f: Finalized, id: string)
    requires f.call == call
    ensures var own := Own(OneCall(call, UpdatesOf(call, updates), f), id);
            if id == call.id then Tells(own, f, updates) else own == []
  {
    hide Own, IsOwn, Tells, UpdatesOf;
    var us, m := UpdatesOf(call, updates), ToolResult(ResultOf(f));
    OwnPieces(call, f, m, id);
    UpdatesInOrder(call, updates);
    OwnUpdates(call, updates, id);
    OwnAppend([StartOf(call)], us, id);
    OwnAppend([StartOf(call)] + us, [EndOf(f)], id);
    OwnAppend([StartOf(call)] + us + [EndOf(f)], Announce(m), id);
    if id == call.id {
      TellsAll(f, us, updates);
      assert [StartOf(call)] + us + [EndOf(f)] + [] == [StartOf(call)] + us + [EndOf(f)];
    }
  }

  lemma {:induction false} OwnPieces(call: ToolCall, f: Finalized, m: Message, id: string)
    requires f.call == call
    ensures Own([StartOf(call)], id) == (if id == call.id then [StartOf(call)] else [])
    ensures Own([EndOf(f)], id) == (if id == call.id then [EndOf(f)] else [])
    ensures Own(Announce(m), id) == []
  {
    OwnOne(StartOf(call), id);
    OwnOne(EndOf(f), id);
    OwnTwo(MessageStart(m), MessageEnd(m), id);
  }

  lemma {:induction false} TellsAll(f: Finalized, us: seq<Event>, updates: seq<string>)
    requires |us| == |updates| && forall j | 0 <= j < |updates| :: us[j] == ToolUpdate(f.call.id, updates[j])
    ensures Tells([StartOf(f.call)] + us + [EndOf(f)], f, updates)
  {
    var all := [StartOf(f.call)] + us + [EndOf(f)];
    assert forall j | 0 <= j < |us| :: all[1 + j] == us[j];
  }

  /** The events of the first call of a sequential batch, and those of the rest. */
  lemma {:induction false} SequentialSplits(calls: seq<ToolCall>, scripts: seq<CallScript>, k: nat, aborted: bool,
                                            id: string)
    returns (own: seq<Event>)
    requires k < |calls|
    ensures var script := ScriptOf(scripts, k);
            var abortedThen := aborted || script.abortsInPreparation;
            var b := Sequential(calls, scripts, k, aborted);
            var rest := if abortedThen || script.abortsAfter then BatchRun([], [], true)
                        else Sequential(calls, scripts, k + 1, false);
            && b.finalized != [] && b.finalized[0].call == calls[k] && b.finalized[1..] == rest.finalized
            && Own(b.trace, id) == own + Own(rest.trace, id)
            && if id == calls[k].id then
                 Tells(own, b.finalized[0], if Allowed(script) && !abortedThen then script.updates else [])
               else own == []
  {
    hide Settle, Prepare, OneCall, Tells, Allowed, IsOwn;
    var script := ScriptOf(scripts, k);
    var abortedThen := aborted || script.abortsInPreparation;
    var (trace, f) := RunOne(calls[k], script, abortedThen);
    RunsExactly(calls[k], script, abortedThen);
    SettleKeepsCall(calls[k], script, abortedThen);
    OwnOfOneCall(calls[k], if Prepare(calls[k], script, abortedThen).Prepared? then script.updates else [], f, id);
    var rest := if abortedThen || script.abortsAfter then BatchRun([], [], true)
                else Sequential(calls, scripts, k + 1, false);
    OwnAppend(trace, rest.trace, id);
    own := Own(trace, id);
  }

  lemma {:induction false} SequentialSilent(calls: seq<ToolCall>, scripts: seq<CallScript>, k: nat, aborted: bool,
                                            id: string)
    requires k <= |calls| && forall j | k <= j < |calls| :: calls[j].id != id
    ensures Own(Sequential(calls, scripts, k, aborted).trace, id) == []
    decreases |calls| - k
  {
    hide Tells, Allowed, IsOwn, RunOne;
    if k < |calls| {
      var _ := SequentialSplits(calls, scripts, k, aborted, id);
      SequentialSilent(calls, scripts, k + 1, false, id);
    }
  }

  /** In a sequential batch, the tool events of a call are its start, its updates and its end. */
  lemma {:induction false} SequentialTells(calls: seq<ToolCall>, scripts: seq<CallScript>, k: nat, aborted: bool,
                                           i: nat)
    requires k <= |calls| && DistinctIds(calls) && i < |Sequential(calls, scripts, k, aborted).finalized|
    ensures var b := Sequential(calls, scripts, k, aborted);
            var script := ScriptOf(scripts, k + i);
            var now := (i == 0 && aborted) || script.abortsInPreparation;
            Tells(Own(b.trace, b.finalized[i].call.id), b.finalized[i],
                  if Allowed(script) && !now then script.updates else [])
    decreases i
  {
    hide Tells, Allowed, IsOwn, RunOne, Settle, Sequential, Own;
    SequentialSettles(calls, scripts, k, aborted, i);
    SettleKeepsCall(calls[k + i], ScriptOf(scripts, k + i),
                    (i == 0 && aborted) || ScriptOf(scripts, k + i).abortsInPreparation);
    var id := calls[k + i].id;
    var own := SequentialSplits(calls, scripts, k, aborted, id);
    if i > 0 {
      var b, rest := Sequential(calls, scripts, k, aborted), Sequential(calls, scripts, k + 1, false);
      assert b.finalized[1..][i - 1] == b.finalized[i];
      SequentialTells(calls, scripts, k + 1, false, i - 1);
      assert k + 1 + (i - 1) == k + i && calls[k].id != id;
      assert own + Own(rest.trace, id) == Own(rest.trace, id);
    } else {
      SequentialSilent(calls, scripts, k + 1, false, id);
      OwnNone(id);
      assert own + [] == own;
    }
  }

  lemma {:induction false} SettleKeepsCall(call: ToolCall, script: CallScript, aborted: bool)
    ensures Settle(call, script, aborted).call == call
  {
  }

  // ---- parallel batches ----

  predicate DistinctEntries(entries: seq<Entry>) {
    forall i, j | 0 <= i < j < |entries| :: Outcome(entries[i]).call.id != Outcome(entries[j]).call.id
  }

  /** What is still to come from a slot. */
  predicate Remaining(es: seq<Event>, e: Entry) {
    match e
    case Settled(_) => es == []
    case Running(call, updates, _, _) =>
      && |es| == |updates| + 1
      && (forall j | 0 <= j < |updates| :: es[j] == ToolUpdate(call.id, updates[j]))
      && es[|updates|] == ToolEnd(call.id, call.name, Outcome(e).outcome, Outcome(e).isError)
  }

  lemma {:induction false} StepIsOwn(e: Entry, id: string)
    requires e.Running?
    ensures Outcome(e).call == e.call && Outcome(StepEntry(e)).call == e.call
    ensures IsOwn(StepEvent(e), id) <==> id == e.call.id
  {
  }

  lemma {:induction false} StepRemains(e: Entry, es: seq<Event>)
    requires e.Running? && Remaining(es, StepEntry(e))
    ensures Remaining([StepEvent(e)] + es, e)
  {
    StepKeepsOutcome(e);
  }

  lemma {:induction false} DistinctStays(entries: seq<Entry>, i: nat)
    requires i < |entries| && entries[i].Running? && DistinctEntries(entries)
    ensures DistinctEntries(entries[i := StepEntry(entries[i])])
  {
    hide StepEntry;
    StepKeepsOutcome(entries[i]);
  }

  /** Whatever the schedule, the events of a task come in its own order and with its own end. */
  lemma {:induction false} ConcurrentTells(entries: seq<Entry>, schedule: seq<nat>, i: nat)
    requires i < |entries| && DistinctEntries(entries)
    ensures Remaining(Own(Concurrent(entries, schedule), Outcome(entries[i]).call.id), entries[i])
    decreases Work(entries)
  {
    hide DistinctEntries, Remaining, StepEntry, StepEvent, Complete, IsOwn;
    if AllSettled(entries) {
      NothingRemains(entries[i]);
    } else {
      var p := Pick(entries, schedule);
      var e := entries[p];
      var after := entries[p := StepEntry(e)];
      var id := Outcome(entries[i]).call.id;
      WorkStep(entries, p);
      DistinctStays(entries, p);
      StepIsOwn(e, id);
      StepKeepsOutcome(e);
      ConcurrentTells(after, Tail(schedule), i);
      OwnAppend([StepEvent(e)], Concurrent(after, Tail(schedule)), id);
      OwnOne(StepEvent(e), id);
      if p == i {
        StepRemains(e, Own(Concurrent(after, Tail(schedule)), id));
      } else {
        OtherId(entries, i, p);
        assert [] + Own(Concurrent(after, Tail(schedule)), id) == Own(Concurrent(after, Tail(schedule)), id);
      }
    }
  }

  lemma {:induction false} OtherId(entries: seq<Entry>, i: nat, j: nat)
    requires i < |entries| && j < |entries| && i != j && DistinctEntries(entries)
    ensures Outcome(entries[i]).call.id != Outcome(entries[j]).call.id
  {
  }

  lemma {:induction false} NothingRemains(e: Entry)
    requires e.Settled?
    ensures Remaining([], e)
  {
  }

  /** The events of the first call that a parallel batch prepares, and those of the rest. */
  lemma {:induction false} StartedSplits(calls: seq<ToolCall>, scripts: seq<CallScript>, k: nat, aborted: bool,
                                         id: string)
    requires k < |calls|
    ensures var script := ScriptOf(scripts, k);
            var abortedThen := aborted || script.abortsInPreparation;
            var s := StartAll(calls, scripts, k, aborted);
            var rest := if abortedThen || script.abortsAfter then Started([], [], true)
                        else StartAll(calls, scripts, k + 1, false);
            && s.entries != [] && Outcome(s.entries[0]).call == calls[k] && s.entries[1..] == rest.entries
            && Own(s.trace, id) == Opening(s.entries[0], calls[k], id) + Own(rest.trace, id)
  {
    hide Settle, Prepare, Outcome, IsOwn;
    var script := ScriptOf(scripts, k);
    var abortedThen := aborted || script.abortsInPreparation;
    var (trace, entry) := StartOne(calls[k], script, abortedThen);
    StartOneSettles(calls[k], script, abortedThen);
    SettleKeepsCall(calls[k], script, abortedThen);
    StartOneTells(calls[k], script, abortedThen, id);
    var rest := if abortedThen || script.abortsAfter then Started([], [], true)
                else StartAll(calls, scripts, k + 1, false);
    OwnAppend(trace, rest.trace, id);
  }

  /** The start of a call, and its end if its slot is settled at once. */
  function Opening(e: Entry, call: ToolCall, id: string): seq<Event> {
    if call.id != id then []
    else
      [ToolStart(call.id, call.name, call.arguments)]
      + if e.Settled? then [ToolEnd(call.id, call.name, e.f.outcome, e.f.isError)] else []
  }

  lemma {:induction false} StartOneTells(call: ToolCall, script: CallScript, aborted: bool, id: string)
    ensures var (trace, e) := StartOne(call, script, aborted); Own(trace, id) == Opening(e, call, id)
    ensures var e := StartOne(call, script, aborted).1;
            && (e.Running? <==> Allowed(script) && !aborted)
            && (e.Running? ==> e.call == call && e.updates == script.updates)
  {
    RunsExactly(call, script, aborted);
    var (trace, e) := StartOne(call, script, aborted);
    OwnOne(StartOf(call), id);
    if e.Settled? {
      OwnTwo(StartOf(call), EndOf(e.f), id);
    }
  }

  lemma {:induction false} StartedSilent(calls: seq<ToolCall>, scripts: seq<CallScript>, k: nat, aborted: bool,
                                         id: string)
    requires k <= |calls| && forall j | k <= j < |calls| :: calls[j].id != id
    ensures Own(StartAll(calls, scripts, k, aborted).trace, id) == []
    decreases |calls| - k
  {
    hide Outcome, IsOwn, StartOne;
    if k < |calls| {
      StartedSplits(calls, scripts, k, aborted, id);
      StartedSilent(calls, scripts, k + 1, false, id);
    }
  }

  /** Preparing a batch emits the start of each call, and the end of those it settles; the others
      are left to run with all their updates. */
  lemma {:induction false} StartedTells(calls: seq<ToolCall>, scripts: seq<CallScript>, k: nat, aborted: bool, i: nat)
    requires k <= |calls| && DistinctIds(calls) && i < |StartAll(calls, scripts, k, aborted).entries|
    ensures k + i < |calls|
    ensures var s := StartAll(calls, scripts, k, aborted);
            var script := ScriptOf(scripts, k + i);
            var now := (i == 0 && aborted) || script.abortsInPreparation;
            && Own(s.trace, calls[k + i].id) == Opening(s.entries[i], calls[k + i], calls[k + i].id)
            && (s.entries[i].Running? <==> Allowed(script) && !now)
            && (s.entries[i].Running? ==> s.entries[i].call == calls[k + i] && s.entries[i].updates == script.updates)
    decreases i
  {
    hide Outcome, IsOwn, StartOne, Settle, Opening, Allowed;
    StartedSettles(calls, scripts, k, aborted, i);
    var id := calls[k + i].id;
    StartedSplits(calls, scripts, k, aborted, id);
    StartOneTells(calls[k], ScriptOf(scripts, k), aborted || ScriptOf(scripts, k).abortsInPreparation, id);
    var s := StartAll(calls, scripts, k, aborted);
    if i > 0 {
      StartedTells(calls, scripts, k + 1, false, i - 1);
      assert k + 1 + (i - 1) == k + i && calls[k].id != id;
      NotOpened(s.entries[0], calls[k], id);
    } else {
      StartedSilent(calls, scripts, k + 1, false, id);
      assert Opening(s.entries[0], calls[k], id) + [] == Opening(s.entries[0], calls[k], id);
    }
  }

  lemma {:induction false} NotOpened(e: Entry, call: ToolCall, id: string)
    requires call.id != id
    ensures Opening(e, call, id) == []
  {
  }

  lemma {:induction false} GivingIsNotOwn(fs: seq<Finalized>, id: string)
    ensures Own(GiveResults(fs), id) == []
  {
    if fs != [] {
      var k := |fs| - 1;
      var m := ToolResult(ResultOf(fs[k]));
      GivingIsNotOwn(fs[..k], id);
      OwnAppend(GiveResults(fs[..k]), Announce(m), id);
      OwnTwo(MessageStart(m), MessageEnd(m), id);
    }
  }

  lemma {:induction false} StartedDistinct(calls: seq<ToolCall>, scripts: seq<CallScript>, aborted: bool)
    requires DistinctIds(calls)
    ensures DistinctEntries(StartAll(calls, scripts, 0, aborted).entries)
  {
    hide Outcome, StartAll, Settle;
    var entries := StartAll(calls, scripts, 0, aborted).entries;
    forall i | 0 <= i < |entries|
      ensures i < |calls| && Outcome(entries[i]).call == calls[i]
    {
      StartedSettles(calls, scripts, 0, aborted, i);
      SettleKeepsCall(calls[i], ScriptOf(scripts, i), (i == 0 && aborted) || ScriptOf(scripts, i).abortsInPreparation);
    }
  }

  /** In every batch that executes tools, sequential or parallel and under every schedule, the tool
      events of a call are exactly its start with its arguments, the updates of its tool in their
      order if it ran, and its end with its outcome. */
  lemma {:induction false} BatchTells(calls: seq<ToolCall>, script: BatchScript, sequential: bool, aborted: bool,
                                      i: nat)
    requires DistinctIds(calls) && i < |Execute(calls, script, sequential, aborted).finalized|
    ensures var b := Execute(calls, script, sequential, aborted);
            Tells(Own(b.trace, b.finalized[i].call.id), b.finalized[i], RanUpdates(script.calls, i, aborted))
  {
    hide Tells, Settle, Allowed, Concurrent, StartAll, Own, Outcome, Opening, Sequential, DistinctEntries, DistinctIds,
      Remaining, Outcomes, OutcomesOf;
    if sequential || HasSequentialTool(calls, script.calls) {
      SequentialTells(calls, script.calls, 0, aborted, i);
    } else {
      var s := StartAll(calls, script.calls, 0, aborted);
      var running := Concurrent(s.entries, script.schedule);
      SlotsHoldOutcomes(s.entries, script.schedule);
      var fs := Outcomes(s.entries);
      StartedSettles(calls, script.calls, 0, aborted, i);
      SettleKeepsCall(calls[i], ScriptOf(script.calls, i), AbortedAt(script.calls, i, aborted));
      var id := calls[i].id;
      StartedTells(calls, script.calls, 0, aborted, i);
      StartedDistinct(calls, script.calls, aborted);
      ConcurrentTells(s.entries, script.schedule, i);
      GivingIsNotOwn(fs, id);
      OwnAppend(s.trace, running, id);
      OwnAppend(s.trace + running, GiveResults(fs), id);
      OpenedThenRemains(s.entries[i], calls[i], Own(running, id));
      assert Own(s.trace, id) + Own(running, id) + [] == Own(s.trace, id) + Own(running, id);
    }
  }

  lemma {:induction false} OpenedThenRemains(e: Entry, call: ToolCall, es: seq<Event>)
    requires Remaining(es, e) && Outcome(e).call == call
    ensures Tells(Opening(e, call, call.id) + es, Outcome(e), if e.Running? then e.updates else [])
  {
    hide Complete, Finalize;
    var f, start := Outcome(e), ToolStart(call.id, call.name, call.arguments);
    if e.Settled? {
      var all := [start] + [ToolEnd(call.id, call.name, f.outcome, f.isError)] + es;
      assert |all| == 2 && all[0] == start && all[1] == ToolEnd(call.id, call.name, f.outcome, f.isError);
    } else {
      CompleteKeepsCall(e);
      var all := [start] + [] + es;
      assert all[0] == start && forall j | 0 <= j < |es| :: all[1 + j] == es[j];
    }
  }

  lemma {:induction false} CompleteKeepsCall(e: Entry)
    requires e.Running?
    ensures Outcome(e).call == e.call
  {
  }

  // ---- which calls run beside each other ----

  /** How many calls of a trace have started and not ended. */
  function OpenCount(trace: seq<Event>): int {
    if trace == [] then 0
    else
      var e := trace[|trace| - 1];
      OpenCount(trace[..|trace| - 1]) + if e.ToolStart? then 1 else if e.ToolEnd? then -1 else 0
  }

  /** No call starts before the one before it has ended. */
  predicate OneByOne(trace: seq<Event>) {
    OpenCount(trace) == 0 && forall n | 0 <= n <= |trace| :: 0 <= OpenCount(trace[..n]) <= 1
  }

  /** All calls have started before a tool tells anything or a result is given. */
  predicate AllStartFirst(trace: seq<Event>) {
    forall i, j | 0 <= i < j < |trace| && trace[j].ToolStart? :: trace[i].ToolStart? || trace[i].ToolEnd?
  }

  lemma {:induction false} OpenAppend(a: seq<Event>, b: seq<Event>)
    ensures OpenCount(a + b) == OpenCount(a) + OpenCount(b)
  {
    if b == [] {
      assert a + b == a;
    } else {
      OpenAppend(a, b[..|b| - 1]);
      assert (a + b)[..|a + b| - 1] == a + b[..|b| - 1];
    }
  }

  lemma {:induction false} OneThenOne(a: seq<Event>, b: seq<Event>)
    requires OneByOne(a) && OneByOne(b)
    ensures OneByOne(a + b)
  {
    hide OpenCount;
    OpenAppend(a, b);
    forall n | 0 <= n <= |a + b|
      ensures 0 <= OpenCount((a + b)[..n]) <= 1
    {
      if n <= |a| {
        assert (a + b)[..n] == a[..n];
      } else {
        assert (a + b)[..n] == a + b[..n - |a|];
        OpenAppend(a, b[..n - |a|]);
      }
    }
  }

  lemma {:induction false} SilentIsOneByOne(trace: seq<Event>)
    requires forall e | e in trace :: !e.ToolStart? && !e.ToolEnd?
    ensures OneByOne(trace)
  {
    forall n | 0 <= n <= |trace|
      ensures OpenCount(trace[..n]) == 0
    {
      SilentCount(trace, n);
    }
    assert trace[..|trace|] == trace;
  }

  lemma {:induction false} SilentCount(trace: seq<Event>, n: nat)
    requires n <= |trace| && forall e | e in trace :: !e.ToolStart? && !e.ToolEnd?
    ensures OpenCount(trace[..n]) == 0
  {
    if n > 0 {
      SilentCount(trace, n - 1);
      assert trace[..n][..n - 1] == trace[..n - 1];
      assert trace[n - 1] in trace;
    }
  }

  lemma {:induction false} UpdatesAreSilent(call: ToolCall, updates: seq<string>)
    ensures forall e | e in UpdatesOf(call, updates) :: e.ToolUpdate?
  {
    if updates != [] {
      UpdatesAreSilent(call, updates[..|updates| - 1]);
    }
  }

  lemma {:induction false} OneCallAlone(call: ToolCall, updates: seq<string>, f: Finalized)
    ensures OneByOne(OneCall(call, UpdatesOf(call, updates), f))
  {
    var us, m := UpdatesOf(call, updates), ToolResult(ResultOf(f));
    UpdatesAreSilent(call, updates);
    StartedAlone(StartOf(call), us, EndOf(f));
    SilentIsOneByOne(Announce(m));
    OneThenOne([StartOf(call)] + us + [EndOf(f)], Announce(m));
  }

  lemma {:induction false} StartedAlone(start: Event, us: seq<Event>, end: Event)
    requires start.ToolStart? && end.ToolEnd? && forall e | e in us :: !e.ToolStart? && !e.ToolEnd?
    ensures OneByOne([start] + us + [end])
  {
    var all := [start] + us + [end];
    forall n | 0 <= n <= |all|
      ensures OpenCount(all[..n]) == if n == 0 || n == |all| then 0 else 1
    {
      if 0 < n <= |us| + 1 {
        assert all[..n] == [start] + us[..n - 1];
        OpenAppend([start], us[..n - 1]);
        SilentCount(us, n - 1);
        assert [start][..0] == [];
      } else if n == |all| {
        assert all[..n] == all;
        OpenAppend([start] + us, [end]);
        OpenAppend([start], us);
        SilentCount(us, |us|);
        assert us[..|us|] == us && [start][..0] == [] && [end][..0] == [];
      }
    }
    assert all[..|all|] == all;
  }

  lemma {:induction false} SequentialAlone(calls: seq<ToolCall>, scripts: seq<CallScript>, k: nat, aborted: bool)
    requires k <= |calls|
    ensures OneByOne(Sequential(calls, scripts, k, aborted).trace)
    decreases |calls| - k
  {
    hide Settle, Prepare, OneCall, OneByOne;
    SilentIsOneByOne([]);
    if k < |calls| {
      var script := ScriptOf(scripts, k);
      var abortedThen := aborted || script.abortsInPreparation;
      var (trace, f) := RunOne(calls[k], script, abortedThen);
      OneCallAlone(calls[k], if Prepare(calls[k], script, abortedThen).Prepared? then script.updates else [], f);
      SequentialAlone(calls, scripts, k + 1, false);
      OneThenOne(trace, Sequential(calls, scripts, k + 1, false).trace);
      OneThenOne(trace, []);
    }
  }

  lemma {:induction false} StartingOnly(calls: seq<ToolCall>, scripts: seq<CallScript>, k: nat, aborted: bool)
    requires k <= |calls|
    ensures forall e | e in StartAll(calls, scripts, k, aborted).trace :: e.ToolStart? || e.ToolEnd?
    decreases |calls| - k
  {
    hide Settle, Prepare;
    if k < |calls| {
      StartingOnly(calls, scripts, k + 1, false);
    }
  }

  lemma {:induction false} NoneStarts(entries: seq<Entry>, schedule: seq<nat>)
    ensures forall e | e in Concurrent(entries, schedule) :: !e.ToolStart?
    decreases Work(entries)
  {
    if !AllSettled(entries) {
      var i := Pick(entries, schedule);
      WorkStep(entries, i);
      NoneStarts(entries[i := StepEntry(entries[i])], Tail(schedule));
    }
  }

  lemma {:induction false} GivingStartsNone(fs: seq<Finalized>)
    ensures forall e | e in GiveResults(fs) :: !e.ToolStart?
  {
    if fs != [] {
      GivingStartsNone(fs[..|fs| - 1]);
    }
  }

  /** Calls run one after the other if the configuration says so or a tool that one of them names
      may not run beside others; else all of them start before any of their tools tells anything. */
  lemma {:induction false} BatchOrder(calls: seq<ToolCall>, script: BatchScript, sequential: bool, aborted: bool)
    ensures var trace := Execute(calls, script, sequential, aborted).trace;
            var alone := exists i | 0 <= i < |calls| ::
                           ScriptOf(script.calls, i).lookup != NotFound && ScriptOf(script.calls, i).sequentialTool;
            if sequential || alone then OneByOne(trace) else AllStartFirst(trace)
  {
    hide OneByOne, Sequential, StartAll, Concurrent, Slots, GiveResults, OutcomesOf;
    SequentialAlone(calls, script.calls, 0, aborted);
    var s := StartAll(calls, script.calls, 0, aborted);
    var fs := OutcomesOf(Slots(s.entries, script.schedule));
    StartingOnly(calls, script.calls, 0, aborted);
    NoneStarts(s.entries, script.schedule);
    GivingStartsNone(fs);
    StartsBefore(s.trace, Concurrent(s.entries, script.schedule) + GiveResults(fs));
    assert s.trace + (Concurrent(s.entries, script.schedule) + GiveResults(fs))
        == s.trace + Concurrent(s.entries, script.schedule) + GiveResults(fs);
  }

  lemma {:induction false} StartsBefore(a: seq<Event>, b: seq<Event>)
    requires (forall e | e in a :: e.ToolStart? || e.ToolEnd?) && forall e | e in b :: !e.ToolStart?
    ensures AllStartFirst(a + b)
  {
    var trace := a + b;
    assert forall j | |a| <= j < |trace| :: trace[j] == b[j - |a|] && !trace[j].ToolStart?;
    forall i, j | 0 <= i < j < |trace| && trace[j].ToolStart?
      ensures trace[i].ToolStart? || trace[i].ToolEnd?
    {
      if j < |a| {
        assert trace[i] in a;
      }
    }
  }

  // ---- cut-off responses ----

  lemma {:induction false} TruncatedSplits(calls: seq<ToolCall>, k: nat, aborted: bool, id: string)
    returns (own: seq<Event>)
    requires k < |calls|
    ensures var f, rest := TruncatedCall(calls[k]), FailTruncated(calls, k + 1, aborted);
            && Own(FailTruncated(calls, k, aborted).trace, id) == own + Own(rest.trace, id)
            && if id == calls[k].id then Tells(own, f, []) else own == []
  {
    hide Own, Tells, OneCall;
    var f, rest := TruncatedCall(calls[k]), FailTruncated(calls, k + 1, aborted);
    assert UpdatesOf(calls[k], []) == [];
    OwnOfOneCall(calls[k], [], f, id);
    OwnAppend(OneCall(calls[k], [], f), rest.trace, id);
    own := Own(OneCall(calls[k], [], f), id);
  }

  lemma {:induction false} TruncatedSilent(calls: seq<ToolCall>, k: nat, aborted: bool, id: string)
    requires k <= |calls| && forall j | k <= j < |calls| :: calls[j].id != id
    ensures Own(FailTruncated(calls, k, aborted).trace, id) == []
    decreases |calls| - k
  {
    hide Tells, OneCall;
    if k < |calls| {
      var _ := TruncatedSplits(calls, k, aborted, id);
      TruncatedSilent(calls, k + 1, aborted, id);
    }
  }

  lemma {:induction false} TruncatedOwn(calls: seq<ToolCall>, k: nat, aborted: bool, i: nat)
    requires DistinctIds(calls) && k + i < |calls|
    ensures Tells(Own(FailTruncated(calls, k, aborted).trace, calls[k + i].id), TruncatedCall(calls[k + i]), [])
    decreases i
  {
    hide Tells, FailTruncated, TruncatedCall, Own;
    var id := calls[k + i].id;
    var own := TruncatedSplits(calls, k, aborted, id);
    if i > 0 {
      TruncatedOwn(calls, k + 1, aborted, i - 1);
      assert k + 1 + (i - 1) == k + i && calls[k].id != id;
    } else {
      TruncatedSilent(calls, k + 1, aborted, id);
    }
    assert own + [] == own && [] + Own(FailTruncated(calls, k + 1, aborted).trace, id)
                            == Own(FailTruncated(calls, k + 1, aborted).trace, id);
  }

  lemma {:induction false} TruncatedOutcome(calls: seq<ToolCall>, k: nat, aborted: bool, i: nat)
    requires k + i < |calls|
    ensures var fs := FailTruncated(calls, k, aborted).finalized;
            |fs| == |calls| - k && fs[i] == TruncatedCall(calls[k + i])
    decreases i
  {
    TruncatedAnswers(calls, k, aborted);
    if i > 0 {
      TruncatedOutcome(calls, k + 1, aborted, i - 1);
    }
  }

  /** The calls of a response that was cut off come to an error that says so, one by one, and each
      emits its start and its end and nothing else. */
  lemma {:induction false} TruncatedTells(calls: seq<ToolCall>, aborted: bool, i: nat)
    requires DistinctIds(calls) && i < |calls|
    ensures var b := FailTruncated(calls, 0, aborted);
            && |b.finalized| == |calls| && b.finalized[i].call == calls[i]
            && FailsWith(b.finalized[i], OutputLimitHit(calls[i].name))
            && GivenAs(Results(b.finalized)[i], b.finalized[i])
            && Tells(Own(b.trace, calls[i].id), b.finalized[i], [])
            && OneByOne(b.trace)
  {
    hide Tells, FailTruncated, Own, OneByOne, GivenAs, ResultOf;
    TruncatedOutcome(calls, 0, aborted, i);
    TruncatedOwn(calls, 0, aborted, i);
    TruncatedAlone(calls, 0, aborted);
    GivenAsItIs(TruncatedCall(calls[i]));
  }

  lemma {:induction false} GivenAsItIs(f: Finalized)
    ensures GivenAs(ResultOf(f), f)
  {
  }

  lemma {:induction false} TruncatedAlone(calls: seq<ToolCall>, k: nat, aborted: bool)
    requires k <= |calls|
    ensures OneByOne(FailTruncated(calls, k, aborted).trace)
    decreases |calls| - k
  {
    hide OneCall, OneByOne;
    SilentIsOneByOne([]);
    if k < |calls| {
      assert UpdatesOf(calls[k], []) == [];
      OneCallAlone(calls[k], [], TruncatedCall(calls[k]));
      TruncatedAlone(calls, k + 1, aborted);
      OneThenOne(OneCall(calls[k], [], TruncatedCall(calls[k])), FailTruncated(calls, k + 1, aborted).trace);
    }
  }

  // ---- schedules ----

  /** Whichever tool is running may take the next step: no order of their steps is left out. */
  lemma {:induction false} AnyoneMayGoNext(entries: seq<Entry>, i: nat, schedule: seq<nat>)
    requires i < |entries| && entries[i].Running?
    ensures var after := entries[i := StepEntry(entries[i])];
            && Concurrent(entries, [i] + schedule) == [StepEvent(entries[i])] + Concurrent(after, schedule)
            && Slots(entries, [i] + schedule) == Slots(after, schedule)
  {
    hide StepEntry, StepEvent, AllSettled;
    assert !AllSettled(entries) by { NotSettled(entries, i); }
    assert ([i] + schedule)[0] == i && ([i] + schedule)[1..] == schedule;
  }

  lemma {:induction false} NotSettled(entries: seq<Entry>, i: nat)
    requires i < |entries| && entries[i].Running?
    ensures !AllSettled(entries)
  {
  }
}
