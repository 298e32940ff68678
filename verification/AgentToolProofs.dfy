/**
 What every tool batch keeps: results answer the calls in order, the trace stays in the
 grammar, and a parallel batch comes to the same results as a sequential one whatever the
 order in which its tools finish.
 */
module AgentToolProofs {
  import opened Wrappers
  import opened AgentTypes
  import opened AgentTools

  // ---- pairing ----

  /** The outcomes answer the calls from number `k` on, in source order and each its own. */
  predicate Answers(fs: seq<Finalized>, calls: seq<ToolCall>, k: nat) {
    k + |fs| <= |calls| && forall i | 0 <= i < |fs| :: fs[i].call == calls[k + i]
  }

  lemma {:induction false} TruncatedAnswers(calls: seq<ToolCall>, k: nat, aborted: bool)
    requires k <= |calls|
    ensures var b := FailTruncated(calls, k, aborted);
            && Answers(b.finalized, calls, k) && k + |b.finalized| == |calls| && b.aborted == aborted
            && forall f | f in b.finalized :: f.isError && f.outcome == ErrorOutcome(OutputLimitHit(f.call.name))
    decreases |calls| - k
  {
    if k < |calls| {
      TruncatedAnswers(calls, k + 1, aborted);
    }
  }

  lemma {:induction false} AnswersMore(f: Finalized, fs: seq<Finalized>, calls: seq<ToolCall>, k: nat)
    requires k < |calls| && f.call == calls[k] && Answers(fs, calls, k + 1)
    ensures Answers([f] + fs, calls, k)
  {
  }

  lemma {:induction false} SequentialAnswers(calls: seq<ToolCall>, scripts: seq<CallScript>, k: nat, aborted: bool)
    requires k <= |calls|
    ensures var b := Sequential(calls, scripts, k, aborted);
            && Answers(b.finalized, calls, k)
            && (aborted ==> b.aborted)
            && (!b.aborted ==> k + |b.finalized| == |calls|)
            && (b.finalized == [] <==> k == |calls|)
    decreases |calls| - k
  {
    if k < |calls| {
      var script := ScriptOf(scripts, k);
      var f := RunOne(calls[k], script, aborted || script.abortsInPreparation).1;
      var rest := Sequential(calls, scripts, k + 1, false);
      SequentialAnswers(calls, scripts, k + 1, false);
      AnswersMore(f, rest.finalized, calls, k);
      AnswersMore(f, [], calls, k);
    }
  }

  /** What a slot comes to, whenever its task gets its turns. */
  function Outcome(e: Entry): Finalized { if e.Settled? then e.f else Complete(e) }

  function Outcomes(entries: seq<Entry>): (fs: seq<Finalized>)
    ensures |fs| == |entries| && forall i | 0 <= i < |fs| :: fs[i] == Outcome(entries[i])
  {
    if entries == [] then [] else [Outcome(entries[0])] + Outcomes(entries[1..])
  }

  lemma {:induction false} StepKeepsOutcome(e: Entry)
    requires e.Running?
    ensures Outcome(StepEntry(e)) == Outcome(e)
  {
  }

  /** A step of a task moves it towards its own outcome, and no other. */
  lemma {:induction false} OutcomeStays(entries: seq<Entry>, i: nat)
    requires i < |entries| && entries[i].Running?
    ensures Outcomes(entries[i := StepEntry(entries[i])]) == Outcomes(entries)
  {
    hide Complete, StepEntry;
    StepKeepsOutcome(entries[i]);
  }

  /** Whatever the schedule, when all tasks have ended every slot holds its own task's outcome. */
  lemma {:induction false} SlotsHoldOutcomes(entries: seq<Entry>, schedule: seq<nat>)
    ensures OutcomesOf(Slots(entries, schedule)) == Outcomes(entries)
    decreases Work(entries)
  {
    hide OutcomesOf, Outcomes, StepEntry;
    if !AllSettled(entries) {
      var i := Pick(entries, schedule);
      WorkStep(entries, i);
      OutcomeStays(entries, i);
      SlotsHoldOutcomes(entries[i := StepEntry(entries[i])], Tail(schedule));
    }
  }

  lemma {:induction false} OutcomesPrefix(e: Entry, entries: seq<Entry>)
    ensures Outcomes([e] + entries) == [Outcome(e)] + Outcomes(entries)
  {
    assert ([e] + entries)[1..] == entries;
  }

  lemma {:induction false} StartedAnswers(calls: seq<ToolCall>, scripts: seq<CallScript>, k: nat, aborted: bool)
    requires k <= |calls|
    ensures var s := StartAll(calls, scripts, k, aborted);
            && Answers(Outcomes(s.entries), calls, k)
            && (aborted ==> s.aborted)
            && (!s.aborted ==> k + |s.entries| == |calls|)
            && (s.entries == [] <==> k == |calls|)
    decreases |calls| - k
  {
    if k < |calls| {
      var script := ScriptOf(scripts, k);
      var (_, entry) := StartOne(calls[k], script, aborted || script.abortsInPreparation);
      var rest := StartAll(calls, scripts, k + 1, false);
      StartedAnswers(calls, scripts, k + 1, false);
      AnswersMore(Outcome(entry), Outcomes(rest.entries), calls, k);
      AnswersMore(Outcome(entry), [], calls, k);
      OutcomesPrefix(entry, rest.entries);
      OutcomesPrefix(entry, []);
    }
  }

  /** A tool that is found and accepts the arguments, and whose hook neither throws nor blocks. */
  predicate Allowed(script: CallScript) {
    script.lookup == Found && (script.before == NoBefore || script.before == BeforeReturns(None))
  }

  /** A call that does not run ends in one error text, and asks to terminate only if its blocker
      did. */
  lemma {:induction false} RunsExactly(call: ToolCall, script: CallScript, aborted: bool)
    ensures Prepare(call, script, aborted) == Prepared <==> Allowed(script) && !aborted
    ensures Prepare(call, script, aborted) != Prepared ==>
              var f := Settle(call, script, aborted);
              && f.call == call && f.isError && f.outcome.content.Some? && |f.outcome.content.value| == 1
              && (f.outcome.terminate.Some? ==>
                    script.before.BeforeReturns? && script.before.block.Some?
                    && script.before.block.value.terminate == Some(true))
  {
  }

  /** In a batch, the tools that run are exactly those that are allowed, of the calls prepared
      before the signal is aborted: an abort lets no later call start, and a batch that begins
      aborted reports its first call as failed and runs nothing. */
  lemma {:induction false} BatchRuns(calls: seq<ToolCall>, scripts: seq<CallScript>, k: nat, aborted: bool, i: nat)
    requires k <= |calls| && i < |StartAll(calls, scripts, k, aborted).entries|
    ensures var entries := StartAll(calls, scripts, k, aborted).entries;
            var script := ScriptOf(scripts, k + i);
            && (entries[i].Running? <==> Allowed(script) && !aborted && !script.abortsInPreparation)
            && (entries[i].Settled? ==> entries[i].f.isError)
            && (aborted ==> i == 0 && |entries| == 1)
            && forall j | k <= j < k + i ::
                 !ScriptOf(scripts, j).abortsInPreparation && !ScriptOf(scripts, j).abortsAfter
    decreases i
  {
    hide Prepare, Settle, Allowed;
    var script := ScriptOf(scripts, k);
    var abortedThen := aborted || script.abortsInPreparation;
    RunsExactly(calls[k], script, abortedThen);
    StartOneSettles(calls[k], script, abortedThen);
    if i > 0 {
      var rest := StartAll(calls, scripts, k + 1, false).entries;
      assert StartAll(calls, scripts, k, aborted).entries[i] == rest[i - 1];
      BatchRuns(calls, scripts, k + 1, false, i - 1);
      assert k + 1 + (i - 1) == k + i;
    }
  }

  // ---- parallel refines sequential ----

  /** No abort from call `k` on. */
  predicate NoAbort(scripts: seq<CallScript>) {
    forall s | s in scripts :: !s.abortsInPreparation && !s.abortsAfter
  }

  /** What every call comes to when nothing aborts, whatever order the calls run in. */
  function Undisturbed(calls: seq<ToolCall>, scripts: seq<CallScript>, k: nat): seq<Finalized>
    requires k <= |calls|
    decreases |calls| - k
  {
    if k == |calls| then []
    else [Settle(calls[k], ScriptOf(scripts, k), false)] + Undisturbed(calls, scripts, k + 1)
  }

  lemma {:induction false} SequentialUndisturbed(calls: seq<ToolCall>, scripts: seq<CallScript>, k: nat)
    requires k <= |calls| && NoAbort(scripts)
    ensures var b := Sequential(calls, scripts, k, false);
            b.finalized == Undisturbed(calls, scripts, k) && !b.aborted
    decreases |calls| - k
  {
    hide Settle, Prepare, OneCall;
    if k < |calls| {
      SequentialUndisturbed(calls, scripts, k + 1);
    }
  }

  lemma {:induction false} StartOneSettles(call: ToolCall, script: CallScript, aborted: bool)
    ensures Outcome(StartOne(call, script, aborted).1) == Settle(call, script, aborted)
  {
  }

  lemma {:induction false} StartedUndisturbed(calls: seq<ToolCall>, scripts: seq<CallScript>, k: nat)
    requires k <= |calls| && NoAbort(scripts)
    ensures var s := StartAll(calls, scripts, k, false);
            Outcomes(s.entries) == Undisturbed(calls, scripts, k) && !s.aborted
    decreases |calls| - k
  {
    hide Settle, Prepare;
    if k < |calls| {
      StartedUndisturbed(calls, scripts, k + 1);
      var (_, entry) := StartOne(calls[k], ScriptOf(scripts, k), false);
      StartOneSettles(calls[k], ScriptOf(scripts, k), false);
      OutcomesPrefix(entry, StartAll(calls, scripts, k + 1, false).entries);
    }
  }

  // Events are counted one kind at a time: two traces have the same ends, up to order, when
  // they hold every `ToolEnd` event equally often.

  function One(b: bool): nat { if b then 1 else 0 }

  function Count(trace: seq<Event>, e: Event): nat {
    if trace == [] then 0 else Count(trace[..|trace| - 1], e) + One(trace[|trace| - 1] == e)
  }

  predicate NoMessages(trace: seq<Event>) {
    forall e | e in trace :: !e.MessageStart? && !e.MessageEnd?
  }

  /** How often the end `e` is still to come from tasks that are running. */
  function Due(entries: seq<Entry>, e: Event): nat {
    if entries == [] then 0
    else
      var last := entries[|entries| - 1];
      Due(entries[..|entries| - 1], e) + One(last.Running? && EndOf(Outcome(last)) == e)
  }

  /** How often the end `e` belongs to one of the outcomes. */
  function EndsOf(fs: seq<Finalized>, e: Event): nat {
    if fs == [] then 0 else One(EndOf(fs[0]) == e) + EndsOf(fs[1..], e)
  }

  lemma {:induction false} CountAppend(a: seq<Event>, b: seq<Event>, e: Event)
    ensures Count(a + b, e) == Count(a, e) + Count(b, e)
  {
    if b == [] {
      assert a + b == a;
    } else {
      CountAppend(a, b[..|b| - 1], e);
      assert (a + b)[..|a + b| - 1] == a + b[..|b| - 1];
    }
  }

  lemma {:induction false} CountOne(x: Event, e: Event)
    ensures Count([x], e) == One(x == e)
  {
    assert [x][..0] == [];
  }

  lemma {:induction false} CountTwo(x: Event, y: Event, e: Event)
    ensures Count([x, y], e) == One(x == e) + One(y == e)
  {
    assert [x, y][..1] == [x];
    CountOne(x, e);
  }

  lemma {:induction false} DueStep(entries: seq<Entry>, i: nat, e: Event)
    requires i < |entries| && entries[i].Running? && e.ToolEnd?
    ensures Due(entries, e) == Due(entries[i := StepEntry(entries[i])], e) + One(StepEvent(entries[i]) == e)
  {
    var k := |entries| - 1;
    var after := entries[i := StepEntry(entries[i])];
    if i == k {
      assert after[..k] == entries[..k];
    } else {
      DueStep(entries[..k], i, e);
      assert after[..k] == entries[..k][i := StepEntry(entries[i])];
    }
  }

  lemma {:induction false} SettledNotDue(entries: seq<Entry>, e: Event)
    requires AllSettled(entries)
    ensures Due(entries, e) == 0
  {
    if entries != [] {
      SettledNotDue(entries[..|entries| - 1], e);
    }
  }

  /** Under every schedule, the concurrent phase emits exactly the ends that are due. */
  lemma {:induction false} ConcurrentEnds(entries: seq<Entry>, schedule: seq<nat>, e: Event)
    requires e.ToolEnd?
    ensures Count(Concurrent(entries, schedule), e) == Due(entries, e)
    decreases Work(entries)
  {
    if AllSettled(entries) {
      SettledNotDue(entries, e);
    } else {
      var i := Pick(entries, schedule);
      var after := entries[i := StepEntry(entries[i])];
      WorkStep(entries, i);
      DueStep(entries, i, e);
      ConcurrentEnds(after, Tail(schedule), e);
      CountAppend([StepEvent(entries[i])], Concurrent(after, Tail(schedule)), e);
      CountOne(StepEvent(entries[i]), e);
    }
  }

  lemma {:induction false} ConcurrentQuietly(entries: seq<Entry>, schedule: seq<nat>)
    ensures NoMessages(Concurrent(entries, schedule))
    decreases Work(entries)
  {
    if !AllSettled(entries) {
      var i := Pick(entries, schedule);
      WorkStep(entries, i);
      ConcurrentQuietly(entries[i := StepEntry(entries[i])], Tail(schedule));
    }
  }

  lemma {:induction false} DuePrefix(first: Entry, entries: seq<Entry>, e: Event)
    ensures Due([first] + entries, e) == One(first.Running? && EndOf(Outcome(first)) == e) + Due(entries, e)
  {
    var all := [first] + entries;
    var k := |entries|;
    if k == 0 {
      assert all[..0] == [];
    } else {
      DuePrefix(first, entries[..k - 1], e);
      assert all[..k] == [first] + entries[..k - 1];
    }
  }

  /** Preparing a batch emits the ends of the calls it settles at once, and leaves the
      others due. */
  lemma {:induction false} StartedEnds(calls: seq<ToolCall>, scripts: seq<CallScript>, k: nat, aborted: bool, e: Event)
    requires k <= |calls| && e.ToolEnd?
    ensures var s := StartAll(calls, scripts, k, aborted);
            Count(s.trace, e) + Due(s.entries, e) == EndsOf(Outcomes(s.entries), e)
    decreases |calls| - k
  {
    hide Settle, Prepare, Count, Due, EndsOf, Outcomes;
    if k == |calls| {
      NothingStarted(e);
    } else {
      var script := ScriptOf(scripts, k);
      var abortedThen := aborted || script.abortsInPreparation;
      var (trace, entry) := StartOne(calls[k], script, abortedThen);
      var rest := if abortedThen || script.abortsAfter then Started([], [], true)
                  else StartAll(calls, scripts, k + 1, false);
      NothingStarted(e);
      StartedEnds(calls, scripts, k + 1, false, e);
      StartedEndsStep(calls[k], trace, entry, rest, e);
    }
  }

  lemma {:induction false} NothingStarted(e: Event)
    ensures Count([], e) + Due([], e) == EndsOf(Outcomes([]), e)
  {
  }

  lemma {:induction false} StartedEndsStep(call: ToolCall, trace: seq<Event>, entry: Entry, rest: Started, e: Event)
    requires e.ToolEnd?
    requires trace == if entry.Running? then [StartOf(call)] else [StartOf(call), EndOf(Outcome(entry))]
    requires Count(rest.trace, e) + Due(rest.entries, e) == EndsOf(Outcomes(rest.entries), e)
    ensures var s := StartThen(trace, entry, rest);
            Count(s.trace, e) + Due(s.entries, e) == EndsOf(Outcomes(s.entries), e)
  {
    CountAppend(trace, rest.trace, e);
    CountOne(StartOf(call), e);
    CountTwo(StartOf(call), EndOf(Outcome(entry)), e);
    DuePrefix(entry, rest.entries, e);
    OutcomesPrefix(entry, rest.entries);
    assert ([Outcome(entry)] + Outcomes(rest.entries))[1..] == Outcomes(rest.entries);
  }

  lemma {:induction false} StartedQuietly(calls: seq<ToolCall>, scripts: seq<CallScript>, k: nat, aborted: bool)
    requires k <= |calls|
    ensures NoMessages(StartAll(calls, scripts, k, aborted).trace)
    decreases |calls| - k
  {
    if k < |calls| {
      StartedQuietly(calls, scripts, k + 1, false);
    }
  }

  lemma {:induction false} GivingEndsNothing(fs: seq<Finalized>, e: Event)
    requires e.ToolEnd?
    ensures Count(GiveResults(fs), e) == 0
  {
    if fs != [] {
      var k := |fs| - 1;
      var m := ToolResult(ResultOf(fs[k]));
      GivingEndsNothing(fs[..k], e);
      CountAppend(GiveResults(fs[..k]), Announce(m), e);
      CountTwo(MessageStart(m), MessageEnd(m), e);
    }
  }

  /** The refinement: with nothing aborted and the same tools and hooks, a parallel batch
      has, for every completion order, the same outcomes in source order as the sequential
      one, hence the same result messages and the same decision to terminate. */
  lemma {:induction false} ParallelRefinesSequential(calls: seq<ToolCall>, script: BatchScript)
    requires NoAbort(script.calls)
    ensures var p := Parallel(calls, script, false);
            var s := Sequential(calls, script.calls, 0, false);
            && p.finalized == s.finalized && |p.finalized| == |calls|
            && Results(p.finalized) == Results(s.finalized)
            && (ShouldTerminate(p.finalized) <==> ShouldTerminate(s.finalized))
  {
    SequentialUndisturbed(calls, script.calls, 0);
    SequentialAnswers(calls, script.calls, 0, false);
    StartedUndisturbed(calls, script.calls, 0);
    SlotsHoldOutcomes(StartAll(calls, script.calls, 0, false).entries, script.schedule);
  }

  /** The events of a parallel batch before it gives results. */
  function Working(calls: seq<ToolCall>, script: BatchScript, aborted: bool): seq<Event> {
    var started := StartAll(calls, script.calls, 0, aborted);
    started.trace + Concurrent(started.entries, script.schedule)
  }

  /** In a parallel batch, aborted or not, the ends are a permutation of the outcomes, and
      all of them come before the first result message. */
  lemma {:induction false} EndsPrecedeResults(calls: seq<ToolCall>, script: BatchScript, aborted: bool, e: Event)
    requires e.ToolEnd?
    ensures var p := Parallel(calls, script, aborted);
            var working := Working(calls, script, aborted);
            && p.trace == working + GiveResults(p.finalized)
            && NoMessages(working)
            && Count(working, e) == Count(p.trace, e) == EndsOf(p.finalized, e)
  {
    var started := StartAll(calls, script.calls, 0, aborted);
    var running := Concurrent(started.entries, script.schedule);
    var fs := Outcomes(started.entries);
    SlotsHoldOutcomes(started.entries, script.schedule);
    StartedEnds(calls, script.calls, 0, aborted, e);
    StartedQuietly(calls, script.calls, 0, aborted);
    ConcurrentEnds(started.entries, script.schedule, e);
    ConcurrentQuietly(started.entries, script.schedule);
    CountAppend(started.trace, running, e);
    CountAppend(started.trace + running, GiveResults(fs), e);
    GivingEndsNothing(fs, e);
  }
}
