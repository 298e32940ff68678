/**
 When a run goes on and when it is over: which turn is the last one, what the next one injects,
 and what the queues hold by then, said without the loop.
 */
module AgentPacing {
  import opened Wrappers
  import opened AgentTypes
  import opened AgentTools
  import opened AgentToolProofs
  import opened AgentOutcomes
  import opened AgentRun
  import opened AgentTranscript
  import opened AgentLifetime

  // ---- what a turn asks for ----

  /** The turn's tools, if it called any, leave nothing for the model to look at: none was cut off,
      and each of the outcomes, of which there is at least one, says that it ends the run. */
  predicate AsksNoMore(turn: Turn) {
    || ToolCalls(turn.response.content) == []
    || (&& turn.response.stopReason != Length
        && turn.batch.finalized != []
        && forall i | 0 <= i < |turn.batch.finalized| :: turn.batch.finalized[i].outcome.terminate == Some(true))
  }

  predicate HasFailed(m: AssistantMessage) { m.stopReason in {StopReason.Error, StopReason.Aborted} }

  lemma {:induction false} FailedExactly(m: AssistantMessage)
    ensures Failed(m) <==> HasFailed(m)
  {
  }

  /** The loop goes on for its tools exactly when the turn asks for more. */
  lemma {:induction false} MoreExactly(turn: Turn)
    ensures HasMore(turn.response, turn.batch.finalized) <==> !AsksNoMore(turn)
  {
    hide ToolCalls;
    var fs := turn.batch.finalized;
    if forall i | 0 <= i < |fs| :: fs[i].outcome.terminate == Some(true) {
      assert forall f | f in fs :: f.outcome.terminate == Some(true);
    } else {
      var i :| 0 <= i < |fs| && fs[i].outcome.terminate != Some(true);
      assert fs[i] in fs;
    }
  }

  // ---- what the polls find ----

  /** What the polls after a turn find, what they leave in the queues, and the user's acts that came
      before them. */
  datatype Poll = Poll(queues: Queues, found: seq<Message>, acts: seq<UserAct>)

  /** The user acts and steering is drained; if that finds nothing and the turn asks for nothing more, the user
      acts again and the follow-ups are drained. */
  function PollAfter(qs: Queues, turn: Turn, t: TurnScript): Poll {
    var steered := ActAll(qs, t.beforeSteering);
    var rest := steered.(steering := AfterDrain(steered.steering));
    if !AsksNoMore(turn) || Drained(steered.steering) != [] then
      Poll(rest, Drained(steered.steering), t.beforeSteering)
    else
      var asked := ActAll(rest, t.beforeFollowUp);
      Poll(asked.(followUp := AfterDrain(asked.followUp)), Drained(asked.followUp),
           t.beforeSteering + t.beforeFollowUp)
  }

  /** Both queues are empty for the loop: the steering drain after the user's acts, and then the
      follow-up drain. */
  predicate NothingQueued(qs: Queues, t: TurnScript) {
    var steered := ActAll(qs, t.beforeSteering);
    var asked := ActAll(steered.(steering := AfterDrain(steered.steering)), t.beforeFollowUp);
    Drained(steered.steering) == [] && Drained(asked.followUp) == []
  }

  /** The queues when turn number `k` of a run begins, if they are `qs` when its first turn does. */
  function QueuesAt(qs: Queues, turns: seq<Turn>, script: seq<TurnScript>, k: nat): Queues
    requires k < |turns|
    decreases k
  {
    if k == 0 then qs
    else
      QueuesAt(PollAfter(qs, turns[0], ScriptAt(script, 0)).queues, turns[1..],
               if script == [] then [] else script[1..], k - 1)
  }

  /** The signal when turn number `k` begins: it is aborted if a batch or the user has done so. */
  predicate SignalAt(qs: Queues, aborted: bool, turns: seq<Turn>, script: seq<TurnScript>, k: nat)
    requires k < |turns|
    decreases k
  {
    if k == 0 then aborted
    else
      var poll := PollAfter(qs, turns[0], ScriptAt(script, 0));
      SignalAt(poll.queues, turns[0].batch.aborted || AbortRun in poll.acts, turns[1..],
               if script == [] then [] else script[1..], k - 1)
  }

  // ---- the last turn ----

  /** The condition for turn number `k` of a run to be its last one. */
  predicate EndsRun(qs: Queues, turns: seq<Turn>, script: seq<TurnScript>, k: nat)
    requires k < |turns|
  {
    || HasFailed(turns[k].response)
    || ScriptAt(script, k).stops
    || (AsksNoMore(turns[k]) && NothingQueued(QueuesAt(qs, turns, script, k), ScriptAt(script, k)))
  }

  /** A run ends with a turn if and only if its response failed, the environment stops the run, or
      it asks for nothing more and nothing is queued; and every other turn is followed by one that
      injects what was queued by then. */
  predicate Paced(qs: Queues, turns: seq<Turn>, script: seq<TurnScript>, k: nat)
    requires k < |turns|
  {
    && (k == |turns| - 1 <==> EndsRun(qs, turns, script, k))
    && (k < |turns| - 1 ==>
          turns[k + 1].injected == PollAfter(QueuesAt(qs, turns, script, k), turns[k], ScriptAt(script, k)).found)
  }

  lemma {:induction false} NothingFound(qs: Queues, turn: Turn, t: TurnScript)
    requires AsksNoMore(turn)
    ensures PollAfter(qs, turn, t).found == [] <==> NothingQueued(qs, t)
  {
    hide ActAll, AsksNoMore, Drained, AfterDrain;
  }

  lemma {:induction false} LaterPaced(qs: Queues, turn: Turn, rest: seq<Turn>, script: seq<TurnScript>, k: nat)
    requires script != [] && k < |rest|
    requires Paced(PollAfter(qs, turn, script[0]).queues, rest, script[1..], k)
    ensures Paced(qs, [turn] + rest, script, k + 1)
  {
    hide PollAfter, NothingQueued, AsksNoMore;
    var turns := [turn] + rest;
    assert turns[1..] == rest;
    assert ScriptAt(script, k + 1) == ScriptAt(script[1..], k);
    assert turns[k + 1] == rest[k] && (k + 1 < |rest| ==> turns[k + 2] == rest[k + 1]);
  }

  /** What one turn leads to. */
  lemma {:induction false} FirstPaced(qs: Queues, turn: Turn, rest: seq<Turn>, script: seq<TurnScript>)
    requires rest == [] <==> EndsRun(qs, [turn], script, 0)
    requires rest != [] ==> rest[0].injected == PollAfter(qs, turn, ScriptAt(script, 0)).found
    ensures Paced(qs, [turn] + rest, script, 0)
  {
    hide PollAfter, NothingQueued, AsksNoMore;
  }

  /** What follows the first turn of a run: nothing, or a run from what the polls left. */
  lemma {:induction false} AfterFirst(st: LoopState, injected: seq<Message>, source: Source, script: seq<TurnScript>)
    returns (rest: seq<Turn>, next: LoopState, nextSource: Source)
    ensures var turn := TakeTurn(st, injected, source, ScriptAt(script, 0));
            && RunFrom(st, injected, source, script).turns == [turn] + rest
            && (rest == [] <==> EndsRun(st.queues, [turn], script, 0))
            && (rest != [] ==>
                  var poll := PollAfter(st.queues, turn, ScriptAt(script, 0));
                  && script != [] && next.queues == poll.queues
                  && next.aborted == (turn.batch.aborted || AbortRun in poll.acts)
                  && next.config.sequential == st.config.sequential
                  && rest == RunFrom(next, poll.found, nextSource, script[1..]).turns)
  {
    hide AsksNoMore, ActAll, Drained, AfterDrain, RunBatch, StreamOf, HasMore, Updated;
    var t := ScriptAt(script, 0);
    var turn := TakeTurn(st, injected, source, t);
    rest, next, nextSource := [], st, source;
    FailedExactly(t.response);
    if !Failed(t.response) && !t.stops {
      var left := Updated(AfterTurn(st, turn), t.update);
      KeepsQueues(AfterTurn(st, turn), t.update);
      MoreExactly(turn);
      if AsksNoMore(turn) {
        NothingFound(st.queues, turn, t);
      }
      var acted := Acted(left, t.beforeSteering);
      if !AsksNoMore(turn) || Drained(acted.queues.steering) != [] {
        next, nextSource := SteeringPolled(acted), Steering;
      } else {
        next, nextSource := FollowUpPolled(Acted(SteeringPolled(acted), t.beforeFollowUp)), Following;
      }
      if !AsksNoMore(turn) || PollAfter(st.queues, turn, t).found != [] {
        rest := RunFrom(next, PollAfter(st.queues, turn, t).found, nextSource, script[1..]).turns;
        NotEmpty(next, PollAfter(st.queues, turn, t).found, nextSource, script[1..]);
      }
    }
  }

  lemma {:induction false} KeepsQueues(st: LoopState, update: Option<TurnUpdate>)
    ensures var next := Updated(st, update);
            next.queues == st.queues && next.aborted == st.aborted && next.config.sequential == st.config.sequential
  {
  }

  lemma {:induction false} NotEmpty(st: LoopState, injected: seq<Message>, source: Source, script: seq<TurnScript>)
    ensures RunFrom(st, injected, source, script).turns != []
    ensures RunFrom(st, injected, source, script).turns[0].injected == injected
  {
    hide RunBatch, Resume;
  }

  /** The last turn of every run, exactly: turn number `k` is the last one if and only if its
      response failed, its script stops, or it has no calls or all its outcomes end the run while
      the steering drain and then the follow-up drain are empty. */
  lemma {:induction false} LastTurnExactly(st: LoopState, injected: seq<Message>, source: Source,
                                           script: seq<TurnScript>, k: nat)
    requires k < |RunFrom(st, injected, source, script).turns|
    ensures Paced(st.queues, RunFrom(st, injected, source, script).turns, script, k)
    decreases |script|, k
  {
    hide AsksNoMore, PollAfter, NothingQueued, RunFrom, Paced, TakeTurn;
    var turn := TakeTurn(st, injected, source, ScriptAt(script, 0));
    var rest, next, nextSource := AfterFirst(st, injected, source, script);
    var found := PollAfter(st.queues, turn, ScriptAt(script, 0)).found;
    if rest != [] {
      NotEmpty(next, found, nextSource, script[1..]);
    }
    if k == 0 {
      FirstPaced(st.queues, turn, rest, script);
    } else {
      LastTurnExactly(next, found, nextSource, script[1..], k - 1);
      LaterPaced(st.queues, turn, rest, script, k - 1);
    }
  }

  /** Each turn's batch is that of its response, run as the turn's script says, one call after the
      other or not as configured, with the signal as it is by then; a failed turn runs none. */
  lemma {:induction false} BatchesFollow(st: LoopState, injected: seq<Message>, source: Source,
                                         script: seq<TurnScript>, k: nat)
    requires k < |RunFrom(st, injected, source, script).turns|
    ensures var turns := RunFrom(st, injected, source, script).turns;
            var now := SignalAt(st.queues, st.aborted, turns, script, k);
            && turns[k].response == ScriptAt(script, k).response
            && turns[k].batch == if HasFailed(turns[k].response) then BatchRun([], [], now)
                                 else RunBatch(turns[k].response, ScriptAt(script, k).batch, st.config.sequential, now)
    decreases |script|, k
  {
    hide AsksNoMore, PollAfter, NothingQueued, RunFrom, RunBatch, EndsRun;
    var turn := TakeTurn(st, injected, source, ScriptAt(script, 0));
    var rest, next, nextSource := AfterFirst(st, injected, source, script);
    var turns := RunFrom(st, injected, source, script).turns;
    FailedExactly(turn.response);
    if k > 0 {
      assert turns[1..] == rest && turns[k] == rest[k - 1];
      BatchesFollow(next, PollAfter(st.queues, turn, ScriptAt(script, 0)).found, nextSource, script[1..], k - 1);
      assert ScriptAt(script[1..], k - 1) == ScriptAt(script, k);
    }
  }

  /** In every turn of every run, each outcome is that of its own call: after a cut-off response the
      error that says so, and else what its tool and its hooks have come to, or what kept the tool
      from running; and it is given to the model as it is. */
  lemma {:induction false} TurnOutcomes(st: LoopState, injected: seq<Message>, source: Source,
                                        script: seq<TurnScript>, k: nat, i: nat)
    requires k < |RunFrom(st, injected, source, script).turns|
    requires i < |RunFrom(st, injected, source, script).turns[k].batch.finalized|
    ensures var turns := RunFrom(st, injected, source, script).turns;
            var f := turns[k].batch.finalized[i];
            && !HasFailed(turns[k].response)
            && i < |ToolCalls(turns[k].response.content)| && f.call == ToolCalls(turns[k].response.content)[i]
            && GivenAs(TurnResults(turns[k])[i], f)
            && if turns[k].response.stopReason == Length then FailsWith(f, OutputLimitHit(f.call.name))
               else
                 Resulted(f, ScriptAt(script, k).batch.calls, i, SignalAt(st.queues, st.aborted, turns, script, k))
  {
    hide RunFrom, SignalAt, ToolCalls, Resulted, Execute, FailTruncated, Results, ResultOf;
    BatchesFollow(st, injected, source, script, k);
    var turns := RunFrom(st, injected, source, script).turns;
    var now := SignalAt(st.queues, st.aborted, turns, script, k);
    var calls := ToolCalls(turns[k].response.content);
    if turns[k].response.stopReason == Length {
      TruncatedAnswers(calls, 0, now);
      GivenAsIs(turns[k].batch.finalized[i]);
    } else if calls != [] {
      BatchOutcomes(calls, ScriptAt(script, k).batch, st.config.sequential, now, i);
    }
  }

  lemma {:induction false} GivenAsIs(f: Finalized)
    ensures GivenAs(ResultOf(f), f)
  {
  }

  /** The same for a whole run: `qs` are the queues after the user's first acts and, unless
      `continue()` has drained them, the initial poll, which is what the first turn injects. */
  lemma {:induction false} WholeRunPaced(st: LoopState, acts: seq<UserAct>, skip: bool, script: seq<TurnScript>, k: nat)
    requires k < |WholeRun(st, acts, skip, script).turns|
    ensures var turns := WholeRun(st, acts, skip, script).turns;
            var acted := ActAll(st.queues, acts);
            var qs := if skip then acted else acted.(steering := AfterDrain(acted.steering));
            && Paced(qs, turns, script, k)
            && turns[0].injected == if skip then [] else Drained(acted.steering)
  {
    hide Paced, RunFrom, ActAll, Drained, AfterDrain;
    var acted := Acted(st, acts);
    if skip {
      LastTurnExactly(acted, [], Steering, script, k);
      NotEmpty(acted, [], Steering, script);
    } else {
      LastTurnExactly(SteeringPolled(acted), Drained(acted.queues.steering), Steering, script, k);
      NotEmpty(SteeringPolled(acted), Drained(acted.queues.steering), Steering, script);
    }
  }

  // ---- queues ----

  /** A drain takes the whole queue or one message, by the queue's mode. */
  lemma {:induction false} DrainsByMode(q: Queue)
    ensures q.mode == All ==> Drained(q) == q.messages && AfterDrain(q).messages == []
    ensures q.mode == OneAtATime ==>
              if q.messages == [] then Drained(q) == [] && AfterDrain(q).messages == []
              else Drained(q) == q.messages[..1] && AfterDrain(q).messages == q.messages[1..]
    ensures AfterDrain(q).mode == q.mode
  {
  }

  /** The mode that was asked for last. */
  function LatestMode(start: QueueMode, acts: seq<UserAct>, which: Source): QueueMode {
    if acts == [] then start
    else
      var act := acts[|acts| - 1];
      if act.SetSteeringMode? && which == Steering then act.mode
      else if act.SetFollowUpMode? && which == Following then act.mode
      else LatestMode(start, acts[..|acts| - 1], which)
  }

  /** The user's acts add to the queues in order, and the mode set last is each queue's. */
  lemma {:induction false} ActsShow(qs: Queues, acts: seq<UserAct>)
    ensures var after := ActAll(qs, acts);
            && after.steering.messages == qs.steering.messages + Asked(acts, Steering)
            && after.followUp.messages == qs.followUp.messages + Asked(acts, Following)
            && after.steering.mode == LatestMode(qs.steering.mode, acts, Steering)
            && after.followUp.mode == LatestMode(qs.followUp.mode, acts, Following)
  {
    ActsEnqueue(qs, acts, Steering);
    ActsEnqueue(qs, acts, Following);
    ModesAreLatest(qs, acts);
  }

  lemma {:induction false} ModesAreLatest(qs: Queues, acts: seq<UserAct>)
    ensures ActAll(qs, acts).steering.mode == LatestMode(qs.steering.mode, acts, Steering)
    ensures ActAll(qs, acts).followUp.mode == LatestMode(qs.followUp.mode, acts, Following)
  {
    if acts != [] {
      ModesAreLatest(qs, acts[..|acts| - 1]);
    }
  }

  // ---- continuing ----

  /** The run that a call adds to the history: its prompts, and what its first turn injects. */
  predicate Runs(life: Life, after: Life, prompts: seq<Message>, source: Source, injected: seq<Message>) {
    && |after.history| == |life.history| + 1 && after.history[..|life.history|] == life.history
    && var chapter := after.history[|life.history|];
       && chapter.Ran? && chapter.prompts == prompts && chapter.source == source
       && chapter.turns != [] && chapter.turns[0].injected == injected
  }

  lemma {:induction false} RunOpRuns(life: Life, queues: Queues, prompts: seq<Message>, source: Source, skip: bool,
                                     env: Env)
    ensures var acted := ActAll(queues, env.acts);
            Runs(life, RunOp(life, queues, prompts, source, skip, env), prompts, source,
                 if skip then [] else Drained(acted.steering))
  {
    hide WholeRun, ReduceAll, RunTrace, ActAll, Drained, Paced;
    var st := StartState(life.state, prompts, env, queues);
    WholeNotEmpty(st, env.acts, skip, env.script);
    WholeRunPaced(st, env.acts, skip, env.script, 0);
  }

  lemma {:induction false} WholeNotEmpty(st: LoopState, acts: seq<UserAct>, skip: bool, script: seq<TurnScript>)
    ensures WholeRun(st, acts, skip, script).turns != []
  {
    hide RunFrom;
    var acted := Acted(st, acts);
    NotEmpty(acted, [], Steering, script);
    NotEmpty(SteeringPolled(acted), Drained(acted.queues.steering), Steering, script);
  }

  /** What a run leaves behind: its messages behind the earlier ones, the error of the last of its
      turns that had one and none of earlier runs, and nothing that streams or is pending. */
  lemma {:induction false} RunLeaves(life: Life, queues: Queues, prompts: seq<Message>, source: Source, skip: bool,
                                     env: Env)
    ensures var after := RunOp(life, queues, prompts, source, skip, env);
            && |after.history| == |life.history| + 1 && after.history[|life.history|].Ran?
            && var trace := RunTrace(prompts, after.history[|life.history|].turns);
               && after.state.messages == life.state.messages + Ended(trace)
               && after.state.errorMessage == LatestError(None, trace)
               && after.state.streamingMessage == None && after.state.pendingToolCalls == {}
  {
    hide WholeRun, ReduceAll, RunTrace, Ended, LatestError;
    var trace := RunTrace(prompts, WholeRun(StartState(life.state, prompts, env, queues), env.acts, skip,
                                            env.script).turns);
    TranscriptIsEnded(Begin(life.state), trace);
    StateShowsLatest(Begin(life.state), trace, "");
  }

  /** A run starts with the agent's configuration, the whole transcript and a signal of its own: its
      first request says so, and its first batch is aborted beforehand only if the user has just
      aborted the run. */
  lemma {:induction false} RunsStartFresh(life: Life, queues: Queues, prompts: seq<Message>, source: Source,
                                          skip: bool, env: Env)
    ensures var after := RunOp(life, queues, prompts, source, skip, env);
            && |after.history| == |life.history| + 1
            && var chapter := after.history[|life.history|];
               && chapter.Ran? && chapter.turns != []
               && var first, now := chapter.turns[0], AbortRun in env.acts;
                  && first.request == Request(env.config.model, env.config.reasoning,
                                              life.state.messages + prompts + first.injected)
                  && first.batch == if HasFailed(first.response) then BatchRun([], [], now)
                                    else RunBatch(first.response, ScriptAt(env.script, 0).batch,
                                                  env.config.sequential, now)
  {
    hide ReduceAll, RunTrace, ActAll, Drained, AfterDrain, RunFrom, RunBatch;
    var acted := Acted(StartState(life.state, prompts, env, queues), env.acts);
    FirstTurnIs(acted, [], env.script);
    FirstTurnIs(SteeringPolled(acted), Drained(acted.queues.steering), env.script);
  }

  lemma {:induction false} FirstTurnIs(st: LoopState, injected: seq<Message>, script: seq<TurnScript>)
    ensures var turns := RunFrom(st, injected, Steering, script).turns;
            && turns != [] && turns[0].injected == injected
            && turns[0].request == Request(st.config.model, st.config.reasoning, st.context + injected)
            && turns[0].batch == if HasFailed(turns[0].response) then BatchRun([], [], st.aborted)
                                 else RunBatch(turns[0].response, ScriptAt(script, 0).batch, st.config.sequential,
                                               st.aborted)
  {
    hide RunFrom, RunBatch;
    var _, _, _ := AfterFirst(st, injected, Steering, script);
    FailedExactly(ScriptAt(script, 0).response);
  }

  /** A lifetime is its calls one after the other, wherever it is cut in two. */
  lemma {:induction false} LifeGoesOn(life: Life, ops: seq<Op>, more: seq<Op>, op: Op)
    ensures LiveAll(life, ops + more) == LiveAll(LiveAll(life, ops), more) && LiveAll(life, [op]) == Live(life, op)
  {
    hide Live;
    assert [op][..0] == [];
    if more == [] {
      assert ops + more == ops;
    } else {
      LifeGoesOn(life, ops, more[..|more| - 1], op);
      assert (ops + more)[..|ops + more| - 1] == ops + more[..|more| - 1];
    }
  }

  /** What continuing does: nothing to an empty transcript. After a response it runs with the
      steering messages it drains, and does not poll for more of them at first; else with the
      follow-ups it drains; and does nothing if there are none. After any other message it runs
      without prompts. */
  lemma {:induction false} ContinuesExactly(life: Life, env: Env)
    ensures var after := Live(life, Continue(env));
            var ms := life.state.messages;
            var steering, followUp := Drained(life.queues.steering), Drained(life.queues.followUp);
            if ms == [] then after == life
            else if !ms[|ms| - 1].Assistant? then
              Runs(life, after, [], Typed, Drained(ActAll(life.queues, env.acts).steering))
            else if steering != [] then Runs(life, after, steering, Steering, [])
            else if followUp != [] then
              Runs(life, after, followUp, Following, Drained(ActAll(life.queues, env.acts).steering))
            else after == life
  {
    hide RunOp, ActAll, Drained, AfterDrain, Runs;
    var qs := life.queues;
    RunOpRuns(life, qs, [], Typed, false, env);
    RunOpRuns(life, qs.(steering := AfterDrain(qs.steering)), Drained(qs.steering), Steering, true, env);
    RunOpRuns(life, qs.(followUp := AfterDrain(qs.followUp)), Drained(qs.followUp), Following, false, env);
    SteeringApart(qs, AfterDrain(qs.followUp), env.acts);
  }

  /** Follow-ups do not touch the steering queue. */
  lemma {:induction false} SteeringApart(qs: Queues, followUp: Queue, acts: seq<UserAct>)
    ensures ActAll(qs.(followUp := followUp), acts).steering == ActAll(qs, acts).steering
  {
    if acts != [] {
      SteeringApart(qs, followUp, acts[..|acts| - 1]);
    }
  }

  /** A prompt runs with the messages it is given, and polls for steering first. */
  lemma {:induction false} PromptsExactly(life: Life, messages: seq<Message>, env: Env)
    ensures Runs(life, Live(life, Op.Prompt(messages, env)), messages, Typed,
                 Drained(ActAll(life.queues, env.acts).steering))
  {
    hide RunOp, ActAll, Drained, Runs;
    RunOpRuns(life, life.queues, messages, Typed, false, env);
  }
}
