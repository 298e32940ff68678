/**
 The transcript of a run: the events, the agent's state, the loop's own context and what the
 model is sent all hold the same messages, and every tool call in them is answered.
 */
module AgentTranscript {
  import opened Wrappers
  import opened AgentTypes
  import opened AgentTools
  import opened AgentToolProofs
  import opened AgentRun
  import opened AgentRunProofs

  /** After a run the agent's transcript is the one before it followed by the run's messages,
      nothing is streaming any more and no call is pending. */
  lemma {:induction false} StateAfterRun(s: AgentState, prompts: seq<Message>, turns: seq<Turn>)
    requires Follows(s, Idle) && AllGenuine(turns) && AllSingle(turns) && turns != []
    ensures var trace := RunTrace(prompts, turns);
            var after := ReduceAll(s, trace);
            && Ended(trace) == prompts + Flatten(turns)
            && after.messages == s.messages + prompts + Flatten(turns)
            && after.streamingMessage == None && after.pendingToolCalls == {}
  {
    hide AllGenuine, AllSingle, RunTrace, Flatten, Parse, ReduceAll, Ended;
    var trace := RunTrace(prompts, turns);
    RunAccepted(prompts, turns);
    StateFollowsGrammar(s, trace);
    TranscriptIsEnded(s, trace);
    assert s.messages + (prompts + Flatten(turns)) == s.messages + prompts + Flatten(turns);
    assert ReduceAll(s, trace).pendingToolCalls == {};
  }

  // ---- the loop's context ----

  predicate KeepsContext(t: TurnScript) { t.update.None? || t.update.value.context.None? }

  /** The environment of a run that keeps its contracts and replaces no context. */
  predicate Faithful(script: seq<TurnScript>) {
    forall i | 0 <= i < |script| :: Starts(script[i].events) <= 1 && KeepsContext(script[i])
  }

  lemma {:induction false} FlattenAppend(a: seq<Turn>, b: seq<Turn>)
    ensures Flatten(a + b) == Flatten(a) + Flatten(b)
  {
    hide TurnMessages;
    if b == [] {
      assert a + b == a;
    } else {
      var k := |b| - 1;
      FlattenAppend(a, b[..k]);
      assert (a + b)[..|a + b| - 1] == a + b[..k];
      assert Flatten(a + b) == Flatten(a) + Flatten(b[..k]) + TurnMessages(b[k]);
    }
  }

  lemma {:induction false} FlattenOne(turn: Turn, rest: seq<Turn>)
    ensures Flatten([turn]) == TurnMessages(turn)
    ensures Flatten([turn] + rest) == TurnMessages(turn) + Flatten(rest)
  {
    assert [turn][..0] == [];
    assert [] + TurnMessages(turn) == TurnMessages(turn);
    FlattenAppend([turn], rest);
  }

  /** The requests of a run made in the context `context`: every turn was sent what came before
      it, and `final` is what all of them leave. */
  predicate InContext(turns: seq<Turn>, context: seq<Message>, final: seq<Message>) {
    && (forall k | 0 <= k < |turns| ::
          turns[k].request.messages == context + Flatten(turns[..k]) + turns[k].injected)
    && final == context + Flatten(turns)
  }

  lemma {:induction false} TurnInContext(st: LoopState, injected: seq<Message>, source: Source, t: TurnScript)
    requires Starts(t.events) <= 1
    ensures var turn := TakeTurn(st, injected, source, t);
            && turn.request.messages == st.context + injected
            && Single(turn)
            && AfterTurn(st, turn).context == st.context + TurnMessages(turn)
  {
    hide RunBatch, Results, AsMessages;
    var turn := TakeTurn(st, injected, source, t);
    StreamIsOneMessage(turn.request.messages, t.events, t.response, InTurn([], 0, None));
    var a := [Assistant(t.response)];
    assert st.context + injected + a + AsMessages(TurnResults(turn)) == st.context + TurnMessages(turn);
  }

  lemma {:induction false} OneInContext(turn: Turn, context: seq<Message>, final: seq<Message>)
    requires turn.request.messages == context + turn.injected && final == context + TurnMessages(turn)
    ensures InContext([turn], context, final)
  {
    FlattenOne(turn, []);
    assert [turn][..0] == [] && context + [] == context;
  }

  lemma {:induction false} MoreInContext(turn: Turn, rest: seq<Turn>, context: seq<Message>, final: seq<Message>)
    requires turn.request.messages == context + turn.injected
    requires InContext(rest, context + TurnMessages(turn), final)
    ensures InContext([turn] + rest, context, final)
  {
    hide Flatten, TurnMessages;
    var turns := [turn] + rest;
    FlattenOne(turn, rest);
    assert context + TurnMessages(turn) + Flatten(rest) == context + Flatten(turns);
    forall k | 0 <= k < |turns|
      ensures turns[k].request.messages == context + Flatten(turns[..k]) + turns[k].injected
    {
      if k == 0 {
        NothingFlattened(context);
        assert turns[..0] == [];
      } else {
        assert turns[..k] == [turn] + rest[..k - 1];
        FlattenOne(turn, rest[..k - 1]);
        assert context + TurnMessages(turn) + Flatten(rest[..k - 1]) == context + Flatten(turns[..k]);
      }
    }
  }

  lemma {:induction false} NothingFlattened(context: seq<Message>)
    ensures context + Flatten([]) == context
  {
  }

  /** Transcript agreement: in a faithful run, the model is sent exactly the starting context
      and the messages of the run so far, and the loop's context ends as both together. */
  lemma {:induction false} RunInContext(st: LoopState, injected: seq<Message>, source: Source, script: seq<TurnScript>)
    requires Faithful(script)
    ensures var run := RunFrom(st, injected, source, script);
            InContext(run.turns, st.context, run.final.context) && AllSingle(run.turns)
    decreases |script|, 0
  {
    hide InContext, TurnMessages, RunBatch, HasMore;
    var t := if script == [] then EXHAUSTED else script[0];
    var turn := TakeTurn(st, injected, source, t);
    var ended := AfterTurn(st, turn);
    TurnInContext(st, injected, source, t);
    OneInContext(turn, st.context, ended.context);
    if !Failed(t.response) && !t.stops {
      var acted := Acted(Updated(ended, t.update), t.beforeSteering);
      var hasMore := HasMore(t.response, turn.batch.finalized);
      var pending := Drained(acted.queues.steering);
      var rest := Resume(SteeringPolled(acted), hasMore, pending, Steering, t.beforeFollowUp, script[1..]);
      ResumedInContext(SteeringPolled(acted), hasMore, pending, Steering, t.beforeFollowUp, script[1..]);
      MoreInContext(turn, rest.turns, st.context, rest.final.context);
    }
  }

  lemma {:induction false} ResumedInContext(st: LoopState, hasMore: bool, pending: seq<Message>, source: Source,
                                            acts: seq<UserAct>, script: seq<TurnScript>)
    requires Faithful(script)
    ensures var run := Resume(st, hasMore, pending, source, acts, script);
            InContext(run.turns, st.context, run.final.context) && AllSingle(run.turns)
    decreases |script|, 1
  {
    hide InContext;
    if hasMore || pending != [] {
      RunInContext(st, pending, source, script);
    } else {
      var acted := Acted(st, acts);
      var follow := Drained(acted.queues.followUp);
      if follow == [] {
        NothingInContext(st.context);
      } else {
        RunInContext(FollowUpPolled(acted), follow, Following, script);
      }
    }
  }

  lemma {:induction false} NothingInContext(context: seq<Message>)
    ensures InContext([], context, context)
  {
  }

  // ---- the configuration of requests ----

  /** The last model that one of the first `n` turns asked for, or the one at the start. */
  function LatestModel(start: string, script: seq<TurnScript>, n: nat): string
    requires n <= |script|
  {
    if n == 0 then start
    else
      var u := script[n - 1].update;
      if u.Some? && u.value.model.Some? then u.value.model.value else LatestModel(start, script, n - 1)
  }

  /** The last thinking level asked for, where "off" asks for none. */
  function LatestReasoning(start: Option<string>, script: seq<TurnScript>, n: nat): Option<string>
    requires n <= |script|
  {
    if n == 0 then start
    else
      var u := script[n - 1].update;
      if u.Some? && u.value.thinkingLevel.Some? then
        if u.value.thinkingLevel.value == "off" then None else u.value.thinkingLevel
      else LatestReasoning(start, script, n - 1)
  }

  lemma {:induction false} LatestAfterOne(st: LoopState, script: seq<TurnScript>, n: nat)
    requires n < |script|
    ensures n <= |script[1..]|
    ensures var next := Updated(st, script[0].update).config;
            && LatestModel(next.model, script[1..], n) == LatestModel(st.config.model, script, n + 1)
            && LatestReasoning(next.reasoning, script[1..], n) == LatestReasoning(st.config.reasoning, script, n + 1)
  {
    if n > 0 {
      LatestAfterOne(st, script, n - 1);
    }
  }

  /** Turn number `k` takes the script's turn number `k`, and its request uses the configuration
      that was asked for last before it. */
  predicate TakesTurns(turns: seq<Turn>, config: Config, script: seq<TurnScript>) {
    forall k | 0 <= k < |turns| :: IsTurn(turns[k], k, config, script)
  }

  predicate IsTurn(turn: Turn, k: nat, config: Config, script: seq<TurnScript>) {
    && k <= |script|
    && turn.response == (if k < |script| then script[k] else EXHAUSTED).response
    && turn.request.model == LatestModel(config.model, script, k)
    && turn.request.reasoning == LatestReasoning(config.reasoning, script, k)
  }

  lemma {:induction false} LaterTurn(turn: Turn, k: nat, st: LoopState, script: seq<TurnScript>)
    requires script != [] && IsTurn(turn, k, Updated(st, script[0].update).config, script[1..])
    ensures IsTurn(turn, k + 1, st.config, script)
  {
    hide LatestModel, LatestReasoning, Updated;
    if k < |script[1..]| {
      assert script[1..][k] == script[k + 1];
    }
    LatestAfterOne(st, script, k);
  }

  lemma {:induction false} MoreTurnsTaken(turn: Turn, rest: seq<Turn>, st: LoopState, script: seq<TurnScript>)
    requires script != [] && IsTurn(turn, 0, st.config, script)
    requires TakesTurns(rest, Updated(st, script[0].update).config, script[1..])
    ensures TakesTurns([turn] + rest, st.config, script)
  {
    hide IsTurn, Updated;
    var turns := [turn] + rest;
    forall k | 0 <= k < |turns|
      ensures IsTurn(turns[k], k, st.config, script)
    {
      if k > 0 {
        assert turns[k] == rest[k - 1];
        LaterTurn(rest[k - 1], k - 1, st, script);
      }
    }
  }

  lemma {:induction false} FirstTurnTaken(turn: Turn, st: LoopState, script: seq<TurnScript>)
    requires turn.response == (if script == [] then EXHAUSTED else script[0]).response
    requires turn.request.model == st.config.model && turn.request.reasoning == st.config.reasoning
    ensures IsTurn(turn, 0, st.config, script) && TakesTurns([turn], st.config, script)
  {
  }

  /** In every run each turn takes one turn of the environment, and asks the model that was chosen
      last, with the thinking level chosen last. */
  lemma {:induction false} RunTakesTurns(st: LoopState, injected: seq<Message>, source: Source, script: seq<TurnScript>)
    ensures TakesTurns(RunFrom(st, injected, source, script).turns, st.config, script)
    decreases |script|, 0
  {
    hide TakesTurns, HasMore, RunBatch, StreamOf, Updated;
    var t := if script == [] then EXHAUSTED else script[0];
    var turn := TakeTurn(st, injected, source, t);
    FirstTurnTaken(turn, st, script);
    if !Failed(t.response) && !t.stops {
      var ended := AfterTurn(st, turn);
      var acted := Acted(Updated(ended, t.update), t.beforeSteering);
      var hasMore := HasMore(t.response, turn.batch.finalized);
      var pending := Drained(acted.queues.steering);
      ResumedTakesTurns(SteeringPolled(acted), hasMore, pending, Steering, t.beforeFollowUp, script[1..]);
      MoreTurnsTaken(turn,
                     Resume(SteeringPolled(acted), hasMore, pending, Steering, t.beforeFollowUp, script[1..]).turns,
                     ended, script);
    }
  }

  lemma {:induction false} ResumedTakesTurns(st: LoopState, hasMore: bool, pending: seq<Message>, source: Source,
                                             acts: seq<UserAct>, script: seq<TurnScript>)
    ensures TakesTurns(Resume(st, hasMore, pending, source, acts, script).turns, st.config, script)
    decreases |script|, 1
  {
    hide TakesTurns;
    if hasMore || pending != [] {
      RunTakesTurns(st, pending, source, script);
    } else {
      var acted := Acted(st, acts);
      var follow := Drained(acted.queues.followUp);
      if follow == [] {
        NoTurnsTaken(st.config, script);
      } else {
        RunTakesTurns(FollowUpPolled(acted), follow, Following, script);
      }
    }
  }

  lemma {:induction false} NoTurnsTaken(config: Config, script: seq<TurnScript>)
    ensures TakesTurns([], config, script)
  {
  }

  // ---- pairing ----

  /** How a turn's results answer the calls of its response: a failed turn has none, a cut-off
      response gets an error for each, and otherwise they answer a prefix of the calls, in source
      order, which is all of them unless the signal is aborted. */
  predicate Paired(turn: Turn) {
    var calls := ToolCalls(turn.response.content);
    var fs := turn.batch.finalized;
    if Failed(turn.response) then fs == []
    else
      && Answers(fs, calls, 0)
      && (!turn.batch.aborted || turn.response.stopReason == Length ==> |fs| == |calls|)
      && (calls != [] ==> fs != [])
      && (turn.response.stopReason == Length ==>
            forall i | 0 <= i < |fs| :: fs[i] == TruncatedCall(calls[i]))
  }

  lemma {:induction false} BatchIsPaired(response: AssistantMessage, script: BatchScript, sequential: bool,
                                         aborted: bool)
    ensures var b := RunBatch(response, script, sequential, aborted);
            var calls := ToolCalls(response.content);
            && Answers(b.finalized, calls, 0)
            && (!b.aborted || response.stopReason == Length ==> |b.finalized| == |calls|)
            && (calls != [] ==> b.finalized != [])
            && (response.stopReason == Length ==>
                  forall i | 0 <= i < |b.finalized| :: b.finalized[i] == TruncatedCall(calls[i]))
            && (aborted ==> b.aborted)
  {
    hide Sequential, StartAll, FailTruncated, OutcomesOf, Outcomes, Concurrent, Slots, ToolCalls;
    var calls := ToolCalls(response.content);
    if calls != [] {
      TruncatedAnswers(calls, 0, aborted);
      SequentialAnswers(calls, script.calls, 0, aborted);
      StartedAnswers(calls, script.calls, 0, aborted);
      SlotsHoldOutcomes(StartAll(calls, script.calls, 0, aborted).entries, script.schedule);
    }
  }

  lemma {:induction false} TakenIsPaired(st: LoopState, injected: seq<Message>, source: Source, t: TurnScript)
    ensures var turn := TakeTurn(st, injected, source, t);
            Paired(turn) && (st.aborted ==> turn.batch.aborted)
  {
    hide RunBatch, ToolCalls, Answers;
    BatchIsPaired(t.response, t.batch, st.config.sequential, st.aborted);
  }

  /** All turns are paired, and a run that ends unaborted had no aborted batch. */
  predicate AllPaired(turns: seq<Turn>, aborted: bool) {
    forall i | 0 <= i < |turns| :: Paired(turns[i]) && (turns[i].batch.aborted ==> aborted)
  }

  lemma {:induction false} NonePaired(aborted: bool)
    ensures AllPaired([], aborted)
  {
  }

  lemma {:induction false} MorePaired(turn: Turn, rest: seq<Turn>, aborted: bool)
    requires Paired(turn) && (turn.batch.aborted ==> aborted) && AllPaired(rest, aborted)
    ensures AllPaired([turn] + rest, aborted)
  {
    hide Paired;
  }

  /** Every turn of every run is paired, and an abort lasts until the end of the run. */
  lemma {:induction false} RunIsPaired(st: LoopState, injected: seq<Message>, source: Source, script: seq<TurnScript>)
    ensures var run := RunFrom(st, injected, source, script);
            && AllPaired(run.turns, run.final.aborted)
            && (st.aborted ==> run.final.aborted)
    decreases |script|, 0
  {
    hide Paired, AllPaired, HasMore, RunBatch, StreamOf;
    var t := if script == [] then EXHAUSTED else script[0];
    var turn := TakeTurn(st, injected, source, t);
    TakenIsPaired(st, injected, source, t);
    NonePaired(turn.batch.aborted);
    MorePaired(turn, [], turn.batch.aborted);
    assert [turn] + [] == [turn];
    if !Failed(t.response) && !t.stops {
      var acted := Acted(Updated(AfterTurn(st, turn), t.update), t.beforeSteering);
      var hasMore := HasMore(t.response, turn.batch.finalized);
      var pending := Drained(acted.queues.steering);
      var rest := Resume(SteeringPolled(acted), hasMore, pending, Steering, t.beforeFollowUp, script[1..]);
      ResumedIsPaired(SteeringPolled(acted), hasMore, pending, Steering, t.beforeFollowUp, script[1..]);
      MorePaired(turn, rest.turns, rest.final.aborted);
    }
  }

  lemma {:induction false} ResumedIsPaired(st: LoopState, hasMore: bool, pending: seq<Message>, source: Source,
                                           acts: seq<UserAct>, script: seq<TurnScript>)
    ensures var run := Resume(st, hasMore, pending, source, acts, script);
            && AllPaired(run.turns, run.final.aborted)
            && (st.aborted ==> run.final.aborted)
    decreases |script|, 1
  {
    hide AllPaired;
    NonePaired(st.aborted || AbortRun in acts);
    if hasMore || pending != [] {
      RunIsPaired(st, pending, source, script);
    } else {
      var acted := Acted(st, acts);
      RunIsPaired(FollowUpPolled(acted), Drained(acted.queues.followUp), Following, script);
    }
  }

  /** At position `at` of a context: a response, followed at once by exactly one result for
      each of its calls, in source order and with matching ids and names. */
  predicate AnsweredAt(context: seq<Message>, at: nat, response: AssistantMessage) {
    var calls := ToolCalls(response.content);
    && at + |calls| < |context|
    && context[at] == Assistant(response)
    && forall i | 0 <= i < |calls| ::
         && context[at + 1 + i].ToolResult?
         && context[at + 1 + i].result.toolCallId == calls[i].id
         && context[at + 1 + i].result.toolName == calls[i].name
  }

  /** The pairing the model relies on: in every request of an unaborted run that replaces no
      context, every earlier response of the run is answered completely and at once. */
  lemma {:induction false} RequestsAreAnswered(st: LoopState, injected: seq<Message>, source: Source,
                                               script: seq<TurnScript>,
                            j: nat, k: nat)
    requires Faithful(script)
    requires var run := RunFrom(st, injected, source, script);
             !run.final.aborted && j < k < |run.turns|
    ensures var turns := RunFrom(st, injected, source, script).turns;
            AnsweredAt(turns[k].request.messages,
                       |st.context| + |Flatten(turns[..j])| + |turns[j].injected|, turns[j].response)
  {
    hide RunFrom, AnsweredAt, Paired, Flatten, Genuine;
    var run := RunFrom(st, injected, source, script);
    RunInContext(st, injected, source, script);
    RunIsPaired(st, injected, source, script);
    RunsAreGenuine(st, injected, source, script);
    var between := run.turns[j + 1..k];
    assert run.turns[..k] == run.turns[..j] + ([run.turns[j]] + between);
    FlattenAppend(run.turns[..j], [run.turns[j]] + between);
    FlattenOne(run.turns[j], between);
    TurnIsAnswered(st.context + Flatten(run.turns[..j]), run.turns[j],
                   Flatten(between) + run.turns[k].injected);
    assert st.context + (Flatten(run.turns[..j]) + (TurnMessages(run.turns[j]) + Flatten(between)))
           + run.turns[k].injected
        == st.context + Flatten(run.turns[..j]) + TurnMessages(run.turns[j])
           + (Flatten(between) + run.turns[k].injected);
  }

  lemma {:induction false} TurnIsAnswered(before: seq<Message>, turn: Turn, after: seq<Message>)
    requires Paired(turn) && !Failed(turn.response) && !turn.batch.aborted
    ensures AnsweredAt(before + TurnMessages(turn) + after, |before| + |turn.injected|, turn.response)
  {
    hide ToolCalls, AnsweredAt;
    AnswersInPlace(before, turn.injected, turn.response, turn.batch.finalized, after);
    Regroup(before, turn.injected, turn.response, turn.batch.finalized, after);
  }

  lemma {:induction false} Regroup(before: seq<Message>, injected: seq<Message>, response: AssistantMessage,
                                   fs: seq<Finalized>,
                after: seq<Message>)
    ensures before + (injected + [Assistant(response)] + AsMessages(Results(fs))) + after ==
            before + injected + [Assistant(response)] + AsMessages(Results(fs)) + after
  {
  }

  lemma {:induction false} AnswersInPlace(before: seq<Message>, injected: seq<Message>, response: AssistantMessage,
                                          fs: seq<Finalized>,
                       after: seq<Message>)
    requires Answers(fs, ToolCalls(response.content), 0) && |fs| == |ToolCalls(response.content)|
    ensures AnsweredAt(before + injected + [Assistant(response)] + AsMessages(Results(fs)) + after,
                       |before| + |injected|, response)
  {
    hide ToolCalls, Results, AsMessages;
    var calls, rs := ToolCalls(response.content), AsMessages(Results(fs));
    var head := before + injected + [Assistant(response)];
    var context := head + rs + after;
    forall i | 0 <= i < |calls|
      ensures context[|head| + i] == ToolResult(ResultOf(fs[i])) && fs[i].call == calls[i]
    {
      InTheMiddle(head, rs, after, i);
    }
    HeadStays(before + injected, Assistant(response), rs + after);
    assert context == head + (rs + after);
  }

  lemma {:induction false} InTheMiddle(head: seq<Message>, ms: seq<Message>, after: seq<Message>, i: nat)
    requires i < |ms|
    ensures (head + ms + after)[|head| + i] == ms[i]
  {
  }

  lemma {:induction false} HeadStays(before: seq<Message>, m: Message, after: seq<Message>)
    ensures (before + [m] + after)[|before|] == m
  {
  }
}
