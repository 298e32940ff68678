/**
 Messages, events and the state reducer of packages/agent (types.ts and agent.ts), and the
 grammar of event traces. Timestamps are dropped; texts and details are opaque strings, and the
 loop's own error texts are constructors.
 */
module AgentTypes {
  import opened Wrappers

  datatype StopReason = Pending | Stop | Length | ToolUse | Error | Aborted | Deferred

  datatype ToolCall = ToolCall(id: string, name: string, arguments: string)

  datatype Content = Text(text: string) | Call(call: ToolCall)

  datatype AssistantMessage =
    AssistantMessage(content: seq<Content>, stopReason: StopReason, errorMessage: Option<string>)

  /** A part of a result's content: a tool's own text, or one of the loop's error texts. */
  datatype Part =
    | Plain(text: string)
    | NoSuchTool(name: string)
    | OperationAborted
    | ExecutionBlocked
    | OutputLimitHit(name: string)

  /** What a tool gives back; `terminate` is the hint to stop after the batch. */
  datatype ToolOutcome = ToolOutcome(content: Option<seq<Part>>, details: string, usage: Option<nat>,
                                     addedToolNames: seq<string>, terminate: Option<bool>)

  datatype ToolResultMessage = ToolResultMessage(toolCallId: string, toolName: string, content: seq<Part>,
                                                 details: string, usage: Option<nat>,
                                                 addedToolNames: seq<string>, isError: bool)

  datatype Message =
    | User(text: string)
    | Custom(kind: string, text: string)
    | Assistant(message: AssistantMessage)
    | ToolResult(result: ToolResultMessage)

  datatype Event =
    | AgentStart
    | AgentEnd(messages: seq<Message>)
    | TurnStart
    | TurnEnd(message: Message, toolResults: seq<ToolResultMessage>)
    | MessageStart(message: Message)
    | MessageUpdate(message: Message)
    | MessageEnd(message: Message)
    | ToolStart(toolCallId: string, toolName: string, arguments: string)
    | ToolUpdate(toolCallId: string, partialResult: string)
    | ToolEnd(toolCallId: string, toolName: string, outcome: ToolOutcome, isError: bool)

  function ToolCalls(content: seq<Content>): (calls: seq<ToolCall>) {
    if content == [] then []
    else (if content[0].Call? then [content[0].call] else []) + ToolCalls(content[1..])
  }

  /** The calls are those of all parts in their order: of one part its call, if it is one, and of two
      pieces those of the first followed by those of the second. */
  lemma {:induction false} CallsExactly(one: seq<Content>, two: seq<Content>, part: Content)
    ensures ToolCalls(one + two) == ToolCalls(one) + ToolCalls(two)
    ensures ToolCalls([part]) == (match part case Call(call) => [call] case Text(_) => []) && ToolCalls([]) == []
  {
    assert [part][1..] == [];
    if one == [] {
      assert one + two == two && [] + ToolCalls(two) == ToolCalls(two);
    } else {
      CallsExactly(one[1..], two, part);
      assert (one + two)[1..] == one[1..] + two;
    }
  }

  /** The result message owed for a `ToolEnd`: missing content becomes an empty list. */
  function ResultMessage(id: string, name: string, outcome: ToolOutcome, isError: bool): ToolResultMessage {
    ToolResultMessage(id, name, outcome.content.GetOr([]), outcome.details, outcome.usage,
                      outcome.addedToolNames, isError)
  }

  // ---- the reducer: agent.ts, processEvents ----

  datatype AgentState = AgentState(messages: seq<Message>, streamingMessage: Option<Message>,
                                   pendingToolCalls: set<string>, errorMessage: Option<string>)

  function Reduce(s: AgentState, e: Event): AgentState {
    match e
    case MessageStart(m) => s.(streamingMessage := Some(m))
    case MessageUpdate(m) => s.(streamingMessage := Some(m))
    case MessageEnd(m) => s.(streamingMessage := None, messages := s.messages + [m])
    case ToolStart(id, _, _) => s.(pendingToolCalls := s.pendingToolCalls + {id})
    case ToolEnd(id, _, _, _) => s.(pendingToolCalls := s.pendingToolCalls - {id})
    case TurnEnd(m, _) =>
      // An empty message counts as none.
      if m.Assistant? && m.message.errorMessage.GetOr("") != "" then s.(errorMessage := m.message.errorMessage)
      else s
    case AgentEnd(_) => s.(streamingMessage := None)
    case _ => s
  }

  function ReduceAll(s: AgentState, trace: seq<Event>): AgentState {
    if trace == [] then s else Reduce(ReduceAll(s, trace[..|trace| - 1]), trace[|trace| - 1])
  }

  // ---- the grammar of traces ----

  /** A tool batch in progress: `open` are the calls started and not ended, `owed` the
      results of ended calls whose message is still to come, `results` those given. */
  datatype Batch = Batch(response: AssistantMessage, open: multiset<string>, owed: multiset<ToolResultMessage>,
                         results: seq<ToolResultMessage>)

  /** How far a trace has come; `ended` are the messages ended so far in the run. */
  datatype Grammar =
    | Idle
    | InRun(ended: seq<Message>, turns: nat)
    | InTurn(ended: seq<Message>, turns: nat, last: Option<Message>)
    | InMessage(ended: seq<Message>, turns: nat, started: Message)
    | InBatch(ended: seq<Message>, turns: nat, batch: Batch)
    | InResult(ended: seq<Message>, turns: nat, batch: Batch, given: ToolResultMessage)
    | Over(ended: seq<Message>, turns: nat)
    | Broken

  function Next(g: Grammar, e: Event): Grammar {
    match g
    case Idle => if e.AgentStart? then InRun([], 0) else Broken
    case InRun(ended, turns) =>
      (match e
       case TurnStart => InTurn(ended, turns, None)
       case AgentEnd(ms) => if turns > 0 && ms == ended then Over(ended, turns) else Broken
       case _ => Broken)
    case InTurn(ended, turns, last) =>
      (match e
       case MessageStart(m) => InMessage(ended, turns, m)
       case ToolStart(id, _, _) =>
         if last.Some? && last.value.Assistant? then
           InBatch(ended, turns, Batch(last.value.message, multiset{id}, multiset{}, []))
         else Broken
       case TurnEnd(m, rs) =>
         if last == Some(m) && m.Assistant? && rs == [] then InRun(ended, turns + 1) else Broken
       case _ => Broken)
    case InMessage(ended, turns, m) =>
      (match e
       case MessageUpdate(p) => if m.Assistant? && p.Assistant? then InMessage(ended, turns, p) else Broken
       case MessageEnd(f) =>
         if f == m || (m.Assistant? && f.Assistant?) then InTurn(ended + [f], turns, Some(f)) else Broken
       case _ => Broken)
    case InBatch(ended, turns, batch) =>
      (match e
       case ToolStart(id, _, _) => InBatch(ended, turns, batch.(open := batch.open + multiset{id}))
       case ToolUpdate(id, _) => if id in batch.open then g else Broken
       case ToolEnd(id, name, outcome, isError) =>
         if id in batch.open then
           InBatch(ended, turns, batch.(open := batch.open - multiset{id},
                                        owed := batch.owed + multiset{ResultMessage(id, name, outcome, isError)}))
         else Broken
       case MessageStart(m) =>
         if m.ToolResult? && m.result in batch.owed then InResult(ended, turns, batch, m.result) else Broken
       case TurnEnd(m, rs) =>
         if batch == Batch(batch.response, multiset{}, multiset{}, rs) && m == Assistant(batch.response) then
           InRun(ended, turns + 1)
         else Broken
       case _ => Broken)
    case InResult(ended, turns, batch, r) =>
      if e == MessageEnd(ToolResult(r)) then
        InBatch(ended + [ToolResult(r)], turns,
                batch.(owed := batch.owed - multiset{r}, results := batch.results + [r]))
      else Broken
    case Over(_, _) => Broken
    case Broken => Broken
  }

  function Parse(g: Grammar, trace: seq<Event>): Grammar {
    if trace == [] then g else Next(Parse(g, trace[..|trace| - 1]), trace[|trace| - 1])
  }

  lemma {:induction false} ParseAppend(g: Grammar, a: seq<Event>, b: seq<Event>)
    ensures Parse(g, a + b) == Parse(Parse(g, a), b)
  {
    if b == [] {
      assert a + b == a;
    } else {
      ParseAppend(g, a, b[..|b| - 1]);
      assert (a + b)[..|a + b| - 1] == a + b[..|b| - 1];
    }
  }

  lemma {:induction false} ParseOne(g: Grammar, e: Event)
    ensures Parse(g, [e]) == Next(g, e)
  {
    assert [e][..0] == [];
  }

  lemma {:induction false} ParseTwo(g: Grammar, e: Event, f: Event)
    ensures Parse(g, [e, f]) == Next(Next(g, e), f)
  {
    assert [e, f][..1] == [e];
    ParseOne(g, e);
  }

  /** Following a trace piece by piece. */
  lemma {:induction false} ParseThen(g0: Grammar, a: seq<Event>, g1: Grammar, b: seq<Event>, g2: Grammar)
    requires Parse(g0, a) == g1 && Parse(g1, b) == g2
    ensures Parse(g0, a + b) == g2
  {
    ParseAppend(g0, a, b);
  }

  /** The messages a trace ends, in order. */
  function Ended(trace: seq<Event>): seq<Message> {
    if trace == [] then []
    else
      var e := trace[|trace| - 1];
      Ended(trace[..|trace| - 1]) + if e.MessageEnd? then [e.message] else []
  }

  /** The reduced transcript is the starting one followed by the messages of all
      `message_end` events, for every trace whatever. */
  lemma {:induction false} TranscriptIsEnded(s: AgentState, trace: seq<Event>)
    ensures ReduceAll(s, trace).messages == s.messages + Ended(trace)
  {
    if trace != [] {
      TranscriptIsEnded(s, trace[..|trace| - 1]);
    }
  }

  function Open(g: Grammar): multiset<string> {
    if g.InBatch? || g.InResult? then g.batch.open else multiset{}
  }

  /** How the reduced state follows the grammar: a message is streaming exactly inside a
      message, and only calls that are open are pending. */
  ghost predicate Follows(s: AgentState, g: Grammar) {
    && (s.streamingMessage.Some? <==> g.InMessage? || g.InResult?)
    && forall id | id in s.pendingToolCalls :: id in Open(g)
  }

  lemma {:induction false} FollowsStep(s: AgentState, g: Grammar, e: Event)
    requires Follows(s, g) && Next(g, e) != Broken
    ensures Follows(Reduce(s, e), Next(g, e))
  {
    if g.InBatch? && e.ToolEnd? {
      assert forall id | id in s.pendingToolCalls && id != e.toolCallId :: id in Next(g, e).batch.open;
    }
  }

  lemma {:induction false} EndedStep(g: Grammar, e: Event)
    requires Next(g, e) != Broken
    ensures Next(g, e).ended ==
            (if g.Idle? then [] else g.ended) + (if e.MessageEnd? then [e.message] else [])
  {
  }

  /** On every trace the grammar accepts so far, the state follows it, and the grammar's
      ended messages are the trace's. In particular a finished run leaves no streaming
      message and no pending call behind. */
  lemma {:induction false} StateFollowsGrammar(s: AgentState, trace: seq<Event>)
    requires Follows(s, Idle) && Parse(Idle, trace) != Broken
    ensures Follows(ReduceAll(s, trace), Parse(Idle, trace))
    ensures Ended(trace) == if Parse(Idle, trace) == Idle then [] else Parse(Idle, trace).ended
  {
    if trace != [] {
      var k := |trace| - 1;
      StateFollowsGrammar(s, trace[..k]);
      FollowsStep(ReduceAll(s, trace[..k]), Parse(Idle, trace[..k]), trace[k]);
      EndedStep(Parse(Idle, trace[..k]), trace[k]);
    }
  }

  // ---- what the state shows ----

  /** The message that a trace leaves streaming: what was started or updated last, unless a message
      or the run has ended since. */
  function LatestPartial(start: Option<Message>, trace: seq<Event>): Option<Message> {
    if trace == [] then start
    else
      var e := trace[|trace| - 1];
      if e.MessageStart? || e.MessageUpdate? then Some(e.message)
      else if e.MessageEnd? || e.AgentEnd? then None
      else LatestPartial(start, trace[..|trace| - 1])
  }

  /** Whether the last that a trace tells of a call is its start. */
  predicate Pending(start: set<string>, trace: seq<Event>, id: string) {
    if trace == [] then id in start
    else
      var e := trace[|trace| - 1];
      if (e.ToolStart? || e.ToolEnd?) && e.toolCallId == id then e.ToolStart?
      else Pending(start, trace[..|trace| - 1], id)
  }

  /** The error of the last turn that ended with one. */
  function LatestError(start: Option<string>, trace: seq<Event>): Option<string> {
    if trace == [] then start
    else
      var e := trace[|trace| - 1];
      if e.TurnEnd? && e.message.Assistant? && e.message.message.errorMessage.Some?
         && e.message.message.errorMessage.value != ""
      then e.message.message.errorMessage
      else LatestError(start, trace[..|trace| - 1])
  }

  /** The reduced state shows what the trace told last: the message that is streaming, the calls that
      have started and not ended, and the latest error. */
  lemma {:induction false} StateShowsLatest(s: AgentState, trace: seq<Event>, id: string)
    ensures var after := ReduceAll(s, trace);
            && after.streamingMessage == LatestPartial(s.streamingMessage, trace)
            && (id in after.pendingToolCalls <==> Pending(s.pendingToolCalls, trace, id))
            && after.errorMessage == LatestError(s.errorMessage, trace)
  {
    if trace != [] {
      StateShowsLatest(s, trace[..|trace| - 1], id);
    }
  }
}
