/**
 The agent loop of packages/agent/src/agent-loop.ts as a function of what its environment
 does: the model's streams, tools and hooks, and what the user queues meanwhile (agent.ts).
 A run is over a finite script of turns; where the script ends, the model's next stream
 reports an abort, which ends the run. So every run that ends, and every finite part of one
 that does not, is the run of some script.
 */
module AgentRun {
  import opened Wrappers
  import opened AgentTypes
  import opened AgentTools

  // ---- streams: streamAssistantResponse ----

  datatype StreamEvent = Start(partial: AssistantMessage) | Delta(partial: AssistantMessage) | Done

  datatype Streamed = Streamed(trace: seq<Event>, context: seq<Message>)

  /** Reads a stream; `added` says whether a partial message is the last one of the context. */
  function ReadStream(context: seq<Message>, events: seq<StreamEvent>, added: bool, final: AssistantMessage): Streamed
    requires added ==> context != []
    decreases |events|
  {
    if events == [] || events[0].Done? then
      var m := Assistant(final);
      if added then Streamed([MessageEnd(m)], context[|context| - 1 := m])
      else Streamed([MessageStart(m), MessageEnd(m)], context + [m])
    else
      var p := Assistant(events[0].partial);
      if events[0].Start? then
        Emitting(MessageStart(p), ReadStream(context + [p], events[1..], true, final))
      else if added then
        Emitting(MessageUpdate(p), ReadStream(context[|context| - 1 := p], events[1..], true, final))
      else
        ReadStream(context, events[1..], false, final)
  }

  function Emitting(e: Event, s: Streamed): Streamed { Streamed([e] + s.trace, s.context) }

  // ---- queues: PendingMessageQueue ----

  datatype QueueMode = All | OneAtATime

  datatype Queue = Queue(messages: seq<Message>, mode: QueueMode)

  function Enqueue(q: Queue, m: Message): Queue { q.(messages := q.messages + [m]) }

  function Drained(q: Queue): seq<Message> {
    if q.mode == All then q.messages else if q.messages == [] then [] else [q.messages[0]]
  }

  function AfterDrain(q: Queue): Queue {
    q.(messages := q.messages[|Drained(q)|..])
  }

  datatype Queues = Queues(steering: Queue, followUp: Queue)

  /** What a user does between two steps of a run. */
  datatype UserAct =
    | Steer(message: Message)
    | FollowUp(message: Message)
    | SetSteeringMode(mode: QueueMode)
    | SetFollowUpMode(mode: QueueMode)
    | AbortRun

  function Act(qs: Queues, act: UserAct): Queues {
    match act
    case Steer(m) => qs.(steering := Enqueue(qs.steering, m))
    case FollowUp(m) => qs.(followUp := Enqueue(qs.followUp, m))
    case SetSteeringMode(mode) => qs.(steering := qs.steering.(mode := mode))
    case SetFollowUpMode(mode) => qs.(followUp := qs.followUp.(mode := mode))
    case AbortRun => qs
  }

  function ActAll(qs: Queues, acts: seq<UserAct>): Queues {
    if acts == [] then qs else Act(ActAll(qs, acts[..|acts| - 1]), acts[|acts| - 1])
  }

  // ---- the loop: runLoop ----

  /** What `prepareNextTurn` may replace. */
  datatype TurnUpdate =
    TurnUpdate(context: Option<seq<Message>>, model: Option<string>, thinkingLevel: Option<string>)

  datatype TurnScript = TurnScript(events: seq<StreamEvent>, response: AssistantMessage, batch: BatchScript,
                                   update: Option<TurnUpdate>, stops: bool,
                                   beforeSteering: seq<UserAct>, beforeFollowUp: seq<UserAct>)

  /** The turn that ends a run whose script is used up. */
  const EXHAUSTED: TurnScript :=
    TurnScript([], AssistantMessage([], Aborted, Some("aborted")), BatchScript([], [], false), None, false, [], [])

  function ScriptAt(script: seq<TurnScript>, i: nat): TurnScript {
    if i < |script| then script[i] else EXHAUSTED
  }

  datatype Config = Config(model: string, reasoning: Option<string>, sequential: bool)

  datatype LoopState = LoopState(context: seq<Message>, config: Config, aborted: bool, queues: Queues)

  datatype Request = Request(model: string, reasoning: Option<string>, messages: seq<Message>)

  /** Where an injected message comes from. */
  datatype Source = Typed | Steering | Following

  /** One turn: what was injected, what the model was sent, and what came of it. */
  datatype Turn = Turn(injected: seq<Message>, source: Source, request: Request, events: seq<StreamEvent>,
                       response: AssistantMessage, batch: BatchRun)

  predicate Failed(m: AssistantMessage) { m.stopReason == Error || m.stopReason == Aborted }

  function TurnResults(turn: Turn): seq<ToolResultMessage> { Results(turn.batch.finalized) }

  function TakeTurn(st: LoopState, injected: seq<Message>, source: Source, t: TurnScript): Turn {
    var context := st.context + injected;
    Turn(injected, source, Request(st.config.model, st.config.reasoning, context), t.events, t.response,
         if Failed(t.response) then BatchRun([], [], st.aborted)
         else RunBatch(t.response, t.batch, st.config.sequential, st.aborted))
  }

  function StreamOf(turn: Turn): Streamed {
    ReadStream(turn.request.messages, turn.events, false, turn.response)
  }

  /** The loop's state when the turn's `turn_end` has been emitted. */
  function AfterTurn(st: LoopState, turn: Turn): LoopState {
    st.(context := StreamOf(turn).context + AsMessages(TurnResults(turn)), aborted := turn.batch.aborted)
  }

  function Updated(st: LoopState, update: Option<TurnUpdate>): LoopState {
    match update
    case None => st
    case Some(u) =>
      st.(context := u.context.GetOr(st.context),
          config := st.config.(model := u.model.GetOr(st.config.model),
                               reasoning := if u.thinkingLevel.None? then st.config.reasoning
                                            else if u.thinkingLevel.value == "off" then None
                                            else u.thinkingLevel))
  }

  /** The user acts; then the steering queue is drained. */
  function Acted(st: LoopState, acts: seq<UserAct>): LoopState {
    st.(queues := ActAll(st.queues, acts), aborted := st.aborted || AbortRun in acts)
  }

  function SteeringPolled(st: LoopState): LoopState {
    st.(queues := st.queues.(steering := AfterDrain(st.queues.steering)))
  }

  function FollowUpPolled(st: LoopState): LoopState {
    st.(queues := st.queues.(followUp := AfterDrain(st.queues.followUp)))
  }

  /** A run from some point on: its turns, the user's acts it saw, and its final state. */
  datatype Run = Run(turns: seq<Turn>, acts: seq<UserAct>, final: LoopState)

  function TurnThen(turn: Turn, acts: seq<UserAct>, rest: Run): Run {
    Run([turn] + rest.turns, acts + rest.acts, rest.final)
  }

  /** From the start of a turn that injects `injected`. */
  function RunFrom(st: LoopState, injected: seq<Message>, source: Source, script: seq<TurnScript>): Run
    decreases |script|, 0
  {
    var t := if script == [] then EXHAUSTED else script[0];
    var turn := TakeTurn(st, injected, source, t);
    var ended := AfterTurn(st, turn);
    if Failed(t.response) then Run([turn], [], ended)
    else
      var next := Updated(ended, t.update);
      if t.stops then Run([turn], [], next)
      else
        var acted := Acted(next, t.beforeSteering);
        TurnThen(turn, t.beforeSteering,
                 Resume(SteeringPolled(acted), HasMore(t.response, turn.batch.finalized),
                        Drained(acted.queues.steering), Steering, t.beforeFollowUp, script[1..]))
  }

  /** From where the loop decides whether to go on: for tool results, for pending messages,
      and else for follow-ups. */
  function Resume(st: LoopState, hasMore: bool, pending: seq<Message>, source: Source,
                  acts: seq<UserAct>, script: seq<TurnScript>): Run
    decreases |script|, 1
  {
    if hasMore || pending != [] then RunFrom(st, pending, source, script)
    else
      var acted := Acted(st, acts);
      var follow := Drained(acted.queues.followUp);
      var next := FollowUpPolled(acted);
      var rest := if follow != [] then RunFrom(next, follow, Following, script) else Run([], [], next);
      rest.(acts := acts + rest.acts)
  }

  /** A whole run: the initial steering poll, which `continue()` may skip, and the turns. */
  function WholeRun(st: LoopState, acts: seq<UserAct>, skipInitialPoll: bool, script: seq<TurnScript>): Run {
    var acted := Acted(st, acts);
    var rest := if skipInitialPoll then RunFrom(acted, [], Steering, script)
                else RunFrom(SteeringPolled(acted), Drained(acted.queues.steering), Steering, script);
    rest.(acts := acts + rest.acts)
  }

  // ---- events of a run ----

  function AnnounceAll(ms: seq<Message>): seq<Event> {
    if ms == [] then [] else AnnounceAll(ms[..|ms| - 1]) + Announce(ms[|ms| - 1])
  }

  function TurnMessages(turn: Turn): seq<Message> {
    turn.injected + [Assistant(turn.response)] + AsMessages(TurnResults(turn))
  }

  function Flatten(turns: seq<Turn>): seq<Message> {
    if turns == [] then [] else Flatten(turns[..|turns| - 1]) + TurnMessages(turns[|turns| - 1])
  }

  /** A turn after its `turn_start`. */
  function TurnTrace(turn: Turn): seq<Event> {
    AnnounceAll(turn.injected) + StreamOf(turn).trace + turn.batch.trace
    + [TurnEnd(Assistant(turn.response), TurnResults(turn))]
  }

  /** The events of a run up to the end of the last of `turns`; the `prompts` it was given
      belong to the first turn. */
  function TurnsTrace(prompts: seq<Message>, turns: seq<Turn>): seq<Event> {
    if turns == [] then [AgentStart, TurnStart] + AnnounceAll(prompts)
    else
      TurnsTrace(prompts, turns[..|turns| - 1]) + (if |turns| > 1 then [TurnStart] else [])
      + TurnTrace(turns[|turns| - 1])
  }

  /** All events of a run. */
  function RunTrace(prompts: seq<Message>, turns: seq<Turn>): seq<Event> {
    TurnsTrace(prompts, turns) + [AgentEnd(prompts + Flatten(turns))]
  }
}
