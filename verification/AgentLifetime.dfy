/**
 Whole lifetimes of packages/agent/src/agent.ts: prompts, continuations and idle queueing one
 after the other. Every queued message is delivered into the transcript at most once and in
 order, and the transcript is exactly what the runs told, whatever the runs do.
 */
module AgentLifetime {
  import opened Wrappers
  import opened AgentTypes
  import opened AgentTools
  import opened AgentRun
  import opened AgentRunProofs
  import opened AgentTranscript

  // ---- one run conserves each queue ----

  function QueueOf(qs: Queues, which: Source): seq<Message> {
    match which
    case Steering => qs.steering.messages
    case Following => qs.followUp.messages
    case Typed => []
  }

  function AskedBy(act: UserAct, which: Source): seq<Message> {
    if act.Steer? && which == Steering then [act.message]
    else if act.FollowUp? && which == Following then [act.message]
    else []
  }

  /** The messages that the user's acts put into a queue. */
  function Asked(acts: seq<UserAct>, which: Source): seq<Message> {
    if acts == [] then [] else Asked(acts[..|acts| - 1], which) + AskedBy(acts[|acts| - 1], which)
  }

  function FromQueue(ms: seq<Message>, source: Source, which: Source): seq<Message> {
    if source == which then ms else []
  }

  /** The messages that turns injected from a queue. */
  function Injected(turns: seq<Turn>, which: Source): seq<Message> {
    if turns == [] then []
    else FromQueue(turns[0].injected, turns[0].source, which) + Injected(turns[1..], which)
  }

  lemma {:induction false} AskedAppend(a: seq<UserAct>, b: seq<UserAct>, which: Source)
    ensures Asked(a + b, which) == Asked(a, which) + Asked(b, which)
  {
    hide AskedBy;
    if b == [] {
      assert a + b == a;
    } else {
      var k := |b| - 1;
      AskedAppend(a, b[..k], which);
      assert (a + b)[..|a + b| - 1] == a + b[..k];
    }
  }

  lemma {:induction false} ActsEnqueue(qs: Queues, acts: seq<UserAct>, which: Source)
    requires which != Typed
    ensures QueueOf(ActAll(qs, acts), which) == QueueOf(qs, which) + Asked(acts, which)
  {
    if acts == [] {
      assert QueueOf(qs, which) + [] == QueueOf(qs, which);
    } else {
      var k := |acts| - 1;
      ActsEnqueue(qs, acts[..k], which);
      OneActEnqueues(ActAll(qs, acts[..k]), acts[k], which);
      assert QueueOf(qs, which) + Asked(acts[..k], which) + AskedBy(acts[k], which)
          == QueueOf(qs, which) + Asked(acts, which);
    }
  }

  lemma {:induction false} OneActEnqueues(qs: Queues, act: UserAct, which: Source)
    requires which != Typed
    ensures QueueOf(Act(qs, act), which) == QueueOf(qs, which) + AskedBy(act, which)
  {
  }

  /** In both modes a drain takes a prefix off the queue. */
  lemma {:induction false} DrainTakesPrefix(q: Queue)
    ensures Drained(q) + AfterDrain(q).messages == q.messages
  {
  }

  /** What `injected` and a queue hold, with what is asked for later, is what the turns inject
      and what is left in the queue. */
  predicate Conserves(injected: seq<Message>, queued: seq<Message>, run: Run, which: Source) {
    injected + queued + Asked(run.acts, which) == Injected(run.turns, which) + QueueOf(run.final.queues, which)
  }

  lemma {:induction false} LastConserves(turn: Turn, final: LoopState, which: Source)
    ensures Conserves(FromQueue(turn.injected, turn.source, which), QueueOf(final.queues, which),
                      Run([turn], [], final), which)
  {
    var ms := FromQueue(turn.injected, turn.source, which);
    assert Injected([turn][1..], which) == [];
    assert ms + [] == ms;
    assert ms + QueueOf(final.queues, which) + [] == ms + QueueOf(final.queues, which);
  }

  /** A turn, then acts, then a drain of `drained` off the queue `queued`, then the rest. */
  lemma {:induction false} MoreConserves(turn: Turn, queued: seq<Message>, acts: seq<UserAct>,
                                         drained: seq<Message>, left: seq<Message>, rest: Run, which: Source)
    requires drained + left == queued + Asked(acts, which)
    requires Conserves(drained, left, rest, which)
    ensures Conserves(FromQueue(turn.injected, turn.source, which), queued, TurnThen(turn, acts, rest), which)
  {
    hide FromQueue, QueueOf, Asked;
    var ms := FromQueue(turn.injected, turn.source, which);
    var all := TurnThen(turn, acts, rest);
    AskedAppend(acts, rest.acts, which);
    assert all.turns[1..] == rest.turns;
    assert ms + queued + (Asked(acts, which) + Asked(rest.acts, which))
        == ms + (queued + Asked(acts, which) + Asked(rest.acts, which));
    assert ms + (Injected(rest.turns, which) + QueueOf(rest.final.queues, which))
        == ms + Injected(rest.turns, which) + QueueOf(rest.final.queues, which);
  }

  lemma {:induction false} ActsThenConserves(queued: seq<Message>, acts: seq<UserAct>,
                                             drained: seq<Message>, left: seq<Message>, rest: Run, which: Source)
    requires drained + left == queued + Asked(acts, which)
    requires Conserves(drained, left, rest, which)
    ensures Conserves([], queued, rest.(acts := acts + rest.acts), which)
  {
    hide QueueOf, Asked, Injected;
    AskedAppend(acts, rest.acts, which);
    assert [] + queued + (Asked(acts, which) + Asked(rest.acts, which))
        == queued + Asked(acts, which) + Asked(rest.acts, which);
  }

  /** What a steering poll leaves to each queue. */
  lemma {:induction false} SteeringPollConserves(st: LoopState, acts: seq<UserAct>, which: Source)
    requires which != Typed
    ensures var acted := Acted(st, acts);
            FromQueue(Drained(acted.queues.steering), Steering, which) + QueueOf(SteeringPolled(acted).queues, which)
            == QueueOf(st.queues, which) + Asked(acts, which)
  {
    hide Asked;
    ActsEnqueue(st.queues, acts, which);
    DrainTakesPrefix(ActAll(st.queues, acts).steering);
  }

  lemma {:induction false} FollowUpPollConserves(st: LoopState, acts: seq<UserAct>, which: Source)
    requires which != Typed
    ensures var acted := Acted(st, acts);
            FromQueue(Drained(acted.queues.followUp), Following, which) + QueueOf(FollowUpPolled(acted).queues, which)
            == QueueOf(st.queues, which) + Asked(acts, which)
  {
    hide Asked;
    ActsEnqueue(st.queues, acts, which);
    DrainTakesPrefix(ActAll(st.queues, acts).followUp);
  }

  lemma {:induction false} NothingConserves(final: LoopState, which: Source)
    ensures Conserves([], QueueOf(final.queues, which), Run([], [], final), which)
    ensures Conserves(FromQueue([], Following, which), QueueOf(final.queues, which), Run([], [], final), which)
  {
    assert [] + QueueOf(final.queues, which) + [] == [] + QueueOf(final.queues, which);
  }

  lemma {:induction false} RunConserves(st: LoopState, injected: seq<Message>, source: Source,
                                        script: seq<TurnScript>, which: Source)
    requires which != Typed
    ensures Conserves(FromQueue(injected, source, which), QueueOf(st.queues, which),
                      RunFrom(st, injected, source, script), which)
    decreases |script|, 0
  {
    hide Conserves, FromQueue, QueueOf, Asked, HasMore, RunBatch, StreamOf;
    var t := if script == [] then EXHAUSTED else script[0];
    var turn := TakeTurn(st, injected, source, t);
    var ended := AfterTurn(st, turn);
    var next := Updated(ended, t.update);
    LastConserves(turn, ended, which);
    LastConserves(turn, next, which);
    if !Failed(t.response) && !t.stops {
      var acted := Acted(next, t.beforeSteering);
      var hasMore := HasMore(t.response, turn.batch.finalized);
      var pending := Drained(acted.queues.steering);
      var polled := SteeringPolled(acted);
      ResumeConserves(polled, hasMore, pending, Steering, t.beforeFollowUp, script[1..], which);
      SteeringPollConserves(next, t.beforeSteering, which);
      MoreConserves(turn, QueueOf(st.queues, which), t.beforeSteering, FromQueue(pending, Steering, which),
                    QueueOf(polled.queues, which),
                    Resume(polled, hasMore, pending, Steering, t.beforeFollowUp, script[1..]), which);
    }
  }

  lemma {:induction false} ResumeConserves(st: LoopState, hasMore: bool, pending: seq<Message>, source: Source,
                                           acts: seq<UserAct>, script: seq<TurnScript>, which: Source)
    requires which != Typed
    ensures Conserves(FromQueue(pending, source, which), QueueOf(st.queues, which),
                      Resume(st, hasMore, pending, source, acts, script), which)
    decreases |script|, 1
  {
    hide Conserves, QueueOf, Asked;
    if hasMore || pending != [] {
      RunConserves(st, pending, source, script, which);
    } else {
      var acted := Acted(st, acts);
      var follow := Drained(acted.queues.followUp);
      var next := FollowUpPolled(acted);
      var rest := if follow != [] then RunFrom(next, follow, Following, script) else Run([], [], next);
      if follow != [] {
        RunConserves(next, follow, Following, script, which);
      } else {
        NothingConserves(next, which);
      }
      FollowUpPollConserves(st, acts, which);
      ActsThenConserves(QueueOf(st.queues, which), acts, FromQueue(follow, Following, which),
                        QueueOf(next.queues, which), rest, which);
    }
  }

  lemma {:induction false} WholeRunConserves(st: LoopState, acts: seq<UserAct>, skip: bool,
                                             script: seq<TurnScript>, which: Source)
    requires which != Typed
    ensures Conserves([], QueueOf(st.queues, which), WholeRun(st, acts, skip, script), which)
  {
    hide Conserves, QueueOf, Asked, RunFrom;
    var acted := Acted(st, acts);
    if skip {
      RunConserves(acted, [], Steering, script, which);
      ActsEnqueue(st.queues, acts, which);
      assert FromQueue([], Steering, which) + QueueOf(acted.queues, which) == QueueOf(acted.queues, which);
      ActsThenConserves(QueueOf(st.queues, which), acts, FromQueue([], Steering, which),
                        QueueOf(acted.queues, which), RunFrom(acted, [], Steering, script), which);
    } else {
      var polled, pending := SteeringPolled(acted), Drained(acted.queues.steering);
      RunConserves(polled, pending, Steering, script, which);
      SteeringPollConserves(st, acts, which);
      ActsThenConserves(QueueOf(st.queues, which), acts, FromQueue(pending, Steering, which),
                        QueueOf(polled.queues, which), RunFrom(polled, pending, Steering, script), which);
    }
  }

  // ---- lifetimes ----

  /** What a run meets: the agent's configuration, the user's acts before the first poll, and
      the script of its turns. */
  datatype Env = Env(config: Config, acts: seq<UserAct>, script: seq<TurnScript>)

  datatype Op = Prompt(messages: seq<Message>, env: Env) | Continue(env: Env) | Idle(acts: seq<UserAct>)

  /** What has happened: a run with its prompts and where they came from, or acts in between. */
  datatype Chapter =
    | Ran(prompts: seq<Message>, source: Source, turns: seq<Turn>, acts: seq<UserAct>)
    | Rested(acts: seq<UserAct>)

  datatype Life = Life(state: AgentState, queues: Queues, history: seq<Chapter>)

  /** runWithLifecycle before the executor runs. */
  function Begin(s: AgentState): AgentState { s.(streamingMessage := None, errorMessage := None) }

  /** finishRun. */
  function Finish(s: AgentState): AgentState { s.(streamingMessage := None, pendingToolCalls := {}) }

  function StartState(s: AgentState, prompts: seq<Message>, env: Env, queues: Queues): LoopState {
    LoopState(s.messages + prompts, env.config, false, queues)
  }

  function RunOp(life: Life, queues: Queues, prompts: seq<Message>, source: Source, skip: bool, env: Env): Life {
    var run := WholeRun(StartState(life.state, prompts, env, queues), env.acts, skip, env.script);
    Life(Finish(ReduceAll(Begin(life.state), RunTrace(prompts, run.turns))), run.final.queues,
         life.history + [Ran(prompts, source, run.turns, run.acts)])
  }

  /** One call on an idle agent; a call that throws leaves the agent as it was. */
  function Live(life: Life, op: Op): Life {
    match op
    case Prompt(messages, env) => RunOp(life, life.queues, messages, Typed, false, env)
    case Idle(acts) => life.(queues := ActAll(life.queues, acts), history := life.history + [Rested(acts)])
    case Continue(env) =>
      var ms := life.state.messages;
      if ms == [] then life
      else if ms[|ms| - 1].Assistant? then
        var steering, followUp := Drained(life.queues.steering), Drained(life.queues.followUp);
        if steering != [] then
          RunOp(life, life.queues.(steering := AfterDrain(life.queues.steering)), steering, Steering, true, env)
        else if followUp != [] then
          RunOp(life, life.queues.(followUp := AfterDrain(life.queues.followUp)), followUp, Following, false, env)
        else life
      else RunOp(life, life.queues, [], Typed, false, env)
  }

  function LiveAll(life: Life, ops: seq<Op>): Life {
    if ops == [] then life else Live(LiveAll(life, ops[..|ops| - 1]), ops[|ops| - 1])
  }

  /** Everything that was ever put into a queue. */
  function Queued(history: seq<Chapter>, which: Source): seq<Message> {
    if history == [] then []
    else Queued(history[..|history| - 1], which) + Asked(history[|history| - 1].acts, which)
  }

  function DeliveredIn(chapter: Chapter, which: Source): seq<Message> {
    if chapter.Rested? then []
    else FromQueue(chapter.prompts, chapter.source, which) + Injected(chapter.turns, which)
  }

  /** Everything that a queue gave to the transcript. */
  function Delivered(history: seq<Chapter>, which: Source): seq<Message> {
    if history == [] then []
    else Delivered(history[..|history| - 1], which) + DeliveredIn(history[|history| - 1], which)
  }

  function ToldIn(chapter: Chapter): seq<Message> {
    if chapter.Rested? then [] else chapter.prompts + Flatten(chapter.turns)
  }

  /** The transcript that the runs of a history tell. */
  function Told(history: seq<Chapter>): seq<Message> {
    if history == [] then [] else Told(history[..|history| - 1]) + ToldIn(history[|history| - 1])
  }

  /** Up to now, everything queued was delivered or is still queued, in order. */
  predicate Balanced(start: seq<Message>, life: Life, which: Source) {
    start + Queued(life.history, which) == Delivered(life.history, which) + QueueOf(life.queues, which)
  }

  lemma {:induction false} ChapterBalances(start: seq<Message>, history: seq<Chapter>, chapter: Chapter,
                                           before: seq<Message>, after: seq<Message>, which: Source)
    requires start + Queued(history, which) == Delivered(history, which) + before
    requires before + Asked(chapter.acts, which) == DeliveredIn(chapter, which) + after
    ensures start + Queued(history + [chapter], which) == Delivered(history + [chapter], which) + after
  {
    hide Asked, DeliveredIn;
    var asked, given := Asked(chapter.acts, which), DeliveredIn(chapter, which);
    assert (history + [chapter])[..|history|] == history;
    assert start + (Queued(history, which) + asked) == start + Queued(history, which) + asked;
    assert Delivered(history, which) + before + asked == Delivered(history, which) + (before + asked);
    assert Delivered(history, which) + (given + after) == Delivered(history, which) + given + after;
  }

  /** A run that starts with `prompts` taken off the queue. */
  lemma {:induction false} RunBalances(start: seq<Message>, life: Life, queues: Queues, prompts: seq<Message>,
                                       source: Source, skip: bool, env: Env, which: Source)
    requires which != Typed && Balanced(start, life, which)
    requires FromQueue(prompts, source, which) + QueueOf(queues, which) == QueueOf(life.queues, which)
    ensures Balanced(start, RunOp(life, queues, prompts, source, skip, env), which)
  {
    hide QueueOf, Asked, Injected, FromQueue, WholeRun, Queued, Delivered, ReduceAll, RunTrace;
    var run := WholeRun(StartState(life.state, prompts, env, queues), env.acts, skip, env.script);
    WholeRunConserves(StartState(life.state, prompts, env, queues), env.acts, skip, env.script, which);
    var mine, queued, asked := FromQueue(prompts, source, which), QueueOf(queues, which), Asked(run.acts, which);
    assert [] + queued + asked == queued + asked;
    assert mine + queued + asked == mine + (queued + asked);
    assert mine + (Injected(run.turns, which) + QueueOf(run.final.queues, which))
        == mine + Injected(run.turns, which) + QueueOf(run.final.queues, which);
    ChapterBalances(start, life.history, Ran(prompts, source, run.turns, run.acts),
                    QueueOf(life.queues, which), QueueOf(run.final.queues, which), which);
  }

  lemma {:induction false} RestBalances(start: seq<Message>, life: Life, acts: seq<UserAct>, which: Source)
    requires which != Typed && Balanced(start, life, which)
    ensures Balanced(start, Live(life, Op.Idle(acts)), which)
  {
    hide QueueOf, Asked, Queued, Delivered;
    ActsEnqueue(life.queues, acts, which);
    ChapterBalances(start, life.history, Rested(acts), QueueOf(life.queues, which),
                    QueueOf(ActAll(life.queues, acts), which), which);
  }

  lemma {:induction false} OpBalances(start: seq<Message>, life: Life, op: Op, which: Source)
    requires which != Typed && Balanced(start, life, which)
    ensures Balanced(start, Live(life, op), which)
  {
    hide Balanced, RunOp;
    match op
    case Prompt(messages, env) =>
      RunBalances(start, life, life.queues, messages, Typed, false, env, which);
    case Idle(acts) =>
      RestBalances(start, life, acts, which);
    case Continue(env) =>
      DrainTakesPrefix(life.queues.steering);
      DrainTakesPrefix(life.queues.followUp);
      var steering, followUp := Drained(life.queues.steering), Drained(life.queues.followUp);
      RunBalances(start, life, life.queues.(steering := AfterDrain(life.queues.steering)), steering, Steering,
                  true, env, which);
      RunBalances(start, life, life.queues.(followUp := AfterDrain(life.queues.followUp)), followUp, Following,
                  false, env, which);
      RunBalances(start, life, life.queues, [], Typed, false, env, which);
  }

  /** Queue conservation over whole lifetimes: what was in a queue at first and everything put
      into it since is, in order, what it gave to the transcript and what it still holds. */
  lemma {:induction false} QueuesAreConserved(start: Life, ops: seq<Op>, which: Source)
    requires which != Typed && start.history == []
    ensures var life := LiveAll(start, ops);
            QueueOf(start.queues, which) + Queued(life.history, which)
            == Delivered(life.history, which) + QueueOf(life.queues, which)
  {
    hide QueueOf, Live;
    if ops == [] {
      assert QueueOf(start.queues, which) + [] == [] + QueueOf(start.queues, which);
    } else {
      var k := |ops| - 1;
      QueuesAreConserved(start, ops[..k], which);
      OpBalances(QueueOf(start.queues, which), LiveAll(start, ops[..k]), ops[k], which);
    }
  }

  // ---- the transcript of a lifetime ----

  predicate Resting(s: AgentState) { s.streamingMessage == None && s.pendingToolCalls == {} }

  /** All environments keep their contracts and replace no context. */
  predicate FaithfulOps(ops: seq<Op>) {
    forall i | 0 <= i < |ops| :: ops[i].Idle? || Faithful(ops[i].env.script)
  }

  /** The runs of a history were sent, turn by turn, the transcript so far. */
  ghost predicate Informed(start: seq<Message>, history: seq<Chapter>) {
    forall i | 0 <= i < |history| && history[i].Ran? ::
      var context := start + Told(history[..i]) + history[i].prompts;
      InContext(history[i].turns, context, context + Flatten(history[i].turns))
  }

  /** The state agrees with the history. */
  ghost predicate Agrees(start: seq<Message>, life: Life) {
    && Resting(life.state)
    && life.state.messages == start + Told(life.history)
    && Informed(start, life.history)
  }

  lemma {:induction false} RunAgrees(s: AgentState, prompts: seq<Message>, acts: seq<UserAct>, skip: bool,
                                     env: Env, queues: Queues)
    requires Resting(s) && Faithful(env.script)
    ensures var run := WholeRun(StartState(s, prompts, env, queues), acts, skip, env.script);
            var after := Finish(ReduceAll(Begin(s), RunTrace(prompts, run.turns)));
            && Resting(after)
            && after.messages == s.messages + prompts + Flatten(run.turns)
            && InContext(run.turns, s.messages + prompts, s.messages + prompts + Flatten(run.turns))
  {
    hide RunFrom, RunTrace, ReduceAll, AllGenuine, AllSingle, Faithful, Flatten;
    var st := StartState(s, prompts, env, queues);
    var acted := Acted(st, acts);
    var pending := if skip then [] else Drained(acted.queues.steering);
    var from := if skip then acted else SteeringPolled(acted);
    RunInContext(from, pending, Steering, env.script);
    RunsAreGenuine(from, pending, Steering, env.script);
    StateAfterRun(Begin(s), prompts, WholeRun(st, acts, skip, env.script).turns);
  }

  lemma {:induction false} ChapterAgrees(start: seq<Message>, history: seq<Chapter>, chapter: Chapter)
    requires Informed(start, history)
    requires chapter.Ran? ==>
               var context := start + Told(history) + chapter.prompts;
               InContext(chapter.turns, context, context + Flatten(chapter.turns))
    ensures Informed(start, history + [chapter])
    ensures start + Told(history + [chapter]) == start + Told(history) + ToldIn(chapter)
  {
    hide InContext, Told, Flatten;
    var all := history + [chapter];
    assert all[..|history|] == history;
    forall i | 0 <= i < |all| && all[i].Ran?
      ensures var context := start + Told(all[..i]) + all[i].prompts;
              InContext(all[i].turns, context, context + Flatten(all[i].turns))
    {
      if i < |history| {
        assert all[..i] == history[..i];
      }
    }
    ToldMore(history, chapter);
    assert start + (Told(history) + ToldIn(chapter)) == start + Told(history) + ToldIn(chapter);
  }

  lemma {:induction false} ToldMore(history: seq<Chapter>, chapter: Chapter)
    ensures Told(history + [chapter]) == Told(history) + ToldIn(chapter)
  {
    assert (history + [chapter])[..|history|] == history;
  }

  lemma {:induction false} RunOpAgrees(start: seq<Message>, life: Life, queues: Queues, prompts: seq<Message>,
                                       source: Source, skip: bool, env: Env)
    requires Agrees(start, life) && Faithful(env.script)
    ensures Agrees(start, RunOp(life, queues, prompts, source, skip, env))
  {
    hide WholeRun, RunTrace, ReduceAll, Informed, InContext, Told, Flatten, Faithful, Finish, Begin;
    var run := WholeRun(StartState(life.state, prompts, env, queues), env.acts, skip, env.script);
    RunAgrees(life.state, prompts, env.acts, skip, env, queues);
    ChapterAgrees(start, life.history, Ran(prompts, source, run.turns, run.acts));
    assert start + Told(life.history) + (prompts + Flatten(run.turns))
        == start + Told(life.history) + prompts + Flatten(run.turns);
  }

  lemma {:induction false} OpAgrees(start: seq<Message>, life: Life, op: Op)
    requires Agrees(start, life) && (op.Idle? || Faithful(op.env.script))
    ensures Agrees(start, Live(life, op))
  {
    hide RunOp, Informed, Told, Faithful;
    match op
    case Prompt(messages, env) =>
      RunOpAgrees(start, life, life.queues, messages, Typed, false, env);
    case Idle(acts) =>
      ChapterAgrees(start, life.history, Rested(acts));
      assert start + Told(life.history) + [] == start + Told(life.history);
    case Continue(env) =>
      var steering, followUp := Drained(life.queues.steering), Drained(life.queues.followUp);
      RunOpAgrees(start, life, life.queues.(steering := AfterDrain(life.queues.steering)), steering, Steering,
                  true, env);
      RunOpAgrees(start, life, life.queues.(followUp := AfterDrain(life.queues.followUp)), followUp, Following,
                  false, env);
      RunOpAgrees(start, life, life.queues, [], Typed, false, env);
  }

  /** Transcript agreement over whole lifetimes: the agent's messages are the initial ones and
      what the runs told, and every request to the model held exactly the transcript so far. */
  lemma {:induction false} TranscriptsAgree(start: Life, ops: seq<Op>)
    requires start.history == [] && Resting(start.state) && FaithfulOps(ops)
    ensures var life := LiveAll(start, ops);
            && Resting(life.state)
            && life.state.messages == start.state.messages + Told(life.history)
            && Informed(start.state.messages, life.history)
  {
    hide Live, Faithful;
    var ms := start.state.messages;
    if ops == [] {
      assert ms + [] == ms;
    } else {
      var k := |ops| - 1;
      TranscriptsAgree(start, ops[..k]);
      OpAgrees(ms, LiveAll(start, ops[..k]), ops[k]);
    }
  }
}
