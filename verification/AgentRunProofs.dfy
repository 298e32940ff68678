/**
 What every run of the agent loop keeps: its trace is in the grammar, its transcript agrees
 with its events and with what the model is sent, every tool call is answered, and queued
 messages are delivered once and in order.
 */
module AgentRunProofs {
  import opened Wrappers
  import opened AgentTypes
  import opened AgentTools
  import opened AgentToolProofs
  import opened AgentToolGrammar
  import opened AgentRun

  // ---- streams ----

  /** How many `start` events a stream has before it is done. */
  function Starts(events: seq<StreamEvent>): nat {
    if events == [] || events[0].Done? then 0
    else (if events[0].Start? then 1 else 0) + Starts(events[1..])
  }

  /** A stream is one message of the trace, and adds just the final message to the context,
      if and only if it starts at most once; updates before the start are dropped. */
  lemma {:induction false} StreamIsOneMessage(context: seq<Message>, events: seq<StreamEvent>, final: AssistantMessage,
                                              g: Grammar)
    requires g.InTurn?
    ensures var s := ReadStream(context, events, false, final);
            var m := Assistant(final);
            if Starts(events) <= 1 then
              && Parse(g, s.trace) == InTurn(g.ended + [m], g.turns, Some(m))
              && s.context == context + [m]
            else Parse(g, s.trace) == Broken && |s.context| > |context| + 1
    decreases |events|
  {
    var m := Assistant(final);
    if events == [] || events[0].Done? {
      ParseTwo(g, MessageStart(m), MessageEnd(m));
    } else {
      var p := Assistant(events[0].partial);
      if events[0].Start? {
        StartedStream(context + [p], events[1..], final, InMessage(g.ended, g.turns, p));
        var rest := ReadStream(context + [p], events[1..], true, final);
        ParseOne(g, MessageStart(p));
        ParseAppend(g, [MessageStart(p)], rest.trace);
        if Starts(events) <= 1 {
          assert (context + [p])[|context| := m] == context + [m];
        }
      } else {
        StreamIsOneMessage(context, events[1..], final, g);
      }
    }
  }

  lemma {:induction false} StartedStream(context: seq<Message>, events: seq<StreamEvent>, final: AssistantMessage,
                                         g: Grammar)
    requires g.InMessage? && g.started.Assistant? && context != []
    ensures var s := ReadStream(context, events, true, final);
            var m := Assistant(final);
            if Starts(events) == 0 then
              && Parse(g, s.trace) == InTurn(g.ended + [m], g.turns, Some(m))
              && s.context == context[|context| - 1 := m]
            else Parse(g, s.trace) == Broken && |s.context| > |context|
    decreases |events|
  {
    var m := Assistant(final);
    if events == [] || events[0].Done? {
      ParseOne(g, MessageEnd(m));
    } else {
      var p := Assistant(events[0].partial);
      if events[0].Start? {
        var rest := ReadStream(context + [p], events[1..], true, final);
        ParseOne(g, MessageStart(p));
        ParseAppend(g, [MessageStart(p)], rest.trace);
        BrokenStays(rest.trace);
        ContextGrows(context + [p], events[1..], final);
      } else {
        var rest := ReadStream(context[|context| - 1 := p], events[1..], true, final);
        StartedStream(context[|context| - 1 := p], events[1..], final, InMessage(g.ended, g.turns, p));
        ParseOne(g, MessageUpdate(p));
        ParseAppend(g, [MessageUpdate(p)], rest.trace);
      }
    }
  }

  /** What a stream shows before it is done and after it has started: the partial messages of its
      updates; those before the start are dropped. */
  function Partials(events: seq<StreamEvent>, started: bool): seq<Message> {
    if events == [] || events[0].Done? then []
    else if events[0].Start? then Partials(events[1..], true)
    else (if started then [Assistant(events[0].partial)] else []) + Partials(events[1..], started)
  }

  /** The messages of a trace's updates, in order. */
  function UpdatesIn(trace: seq<Event>): seq<Message> {
    if trace == [] then []
    else (if trace[0].MessageUpdate? then [trace[0].message] else []) + UpdatesIn(trace[1..])
  }

  /** The partial message that a stream starts with. */
  function FirstPartial(events: seq<StreamEvent>): Option<AssistantMessage> {
    if events == [] || events[0].Done? then None
    else if events[0].Start? then Some(events[0].partial)
    else FirstPartial(events[1..])
  }

  /** The events of a stream that starts at most once: its start with the first partial message, an
      update for each later one in order, and its end with the final message; or just the final
      message if it never starts. */
  lemma {:induction false} StreamShows(context: seq<Message>, events: seq<StreamEvent>, final: AssistantMessage,
                                       started: bool)
    requires started ==> context != [] && Starts(events) == 0
    requires Starts(events) <= 1
    ensures var trace := ReadStream(context, events, started, final).trace;
            var first := FirstPartial(events);
            && UpdatesIn(trace) == Partials(events, started)
            && trace != [] && trace[|trace| - 1] == MessageEnd(Assistant(final))
            && (!started ==>
                  && |trace| == |UpdatesIn(trace)| + 2
                  && trace[0] == MessageStart(Assistant(if first.Some? then first.value else final)))
            && (started ==> |trace| == |UpdatesIn(trace)| + 1)
    decreases |events|
  {
    hide UpdatesIn;
    if events == [] || events[0].Done? {
      EndShows(Assistant(final));
    } else {
      var p := Assistant(events[0].partial);
      if events[0].Start? {
        var rest := ReadStream(context + [p], events[1..], true, final).trace;
        StreamShows(context + [p], events[1..], final, true);
        OneMoreShown(MessageStart(p), rest);
      } else if started {
        var rest := ReadStream(context[|context| - 1 := p], events[1..], true, final).trace;
        StreamShows(context[|context| - 1 := p], events[1..], final, true);
        OneMoreShown(MessageUpdate(p), rest);
      } else {
        StreamShows(context, events[1..], final, false);
      }
    }
  }

  lemma {:induction false} EndShows(m: Message)
    ensures UpdatesIn([MessageEnd(m)]) == [] && UpdatesIn([MessageStart(m), MessageEnd(m)]) == []
  {
    assert [MessageEnd(m)][1..] == [] && [MessageStart(m), MessageEnd(m)][1..] == [MessageEnd(m)];
  }

  lemma {:induction false} OneMoreShown(e: Event, rest: seq<Event>)
    ensures UpdatesIn([e] + rest) == (if e.MessageUpdate? then [e.message] else []) + UpdatesIn(rest)
  {
    assert ([e] + rest)[1..] == rest;
  }

  lemma {:induction false} BrokenStays(trace: seq<Event>)
    ensures Parse(Broken, trace) == Broken
  {
    if trace != [] {
      BrokenStays(trace[..|trace| - 1]);
    }
  }

  lemma {:induction false} ContextGrows(context: seq<Message>, events: seq<StreamEvent>, final: AssistantMessage)
    requires context != []
    ensures |ReadStream(context, events, true, final).context| >= |context|
    decreases |events|
  {
    if events != [] && !events[0].Done? {
      var p := Assistant(events[0].partial);
      if events[0].Start? {
        ContextGrows(context + [p], events[1..], final);
      } else {
        ContextGrows(context[|context| - 1 := p], events[1..], final);
      }
    }
  }

  // ---- the grammar ----

  lemma {:induction false} AnnouncedAccepted(ms: seq<Message>, ended: seq<Message>, turns: nat, last: Option<Message>)
    ensures Parse(InTurn(ended, turns, last), AnnounceAll(ms)) ==
            InTurn(ended + ms, turns, if ms == [] then last else Some(ms[|ms| - 1]))
  {
    if ms == [] {
      assert ended + [] == ended;
    } else {
      var k := |ms| - 1;
      AnnouncedAccepted(ms[..k], ended, turns, last);
      OneAnnounced(InTurn(ended, turns, last), AnnounceAll(ms[..k]), ended + ms[..k], turns, ms[k]);
      assert ended + ms[..k] + [ms[k]] == ended + ms;
    }
  }

  lemma {:induction false} OneAnnounced(g: Grammar, trace: seq<Event>, ended: seq<Message>, turns: nat, m: Message)
    requires Parse(g, trace).InTurn? && Parse(g, trace).ended == ended && Parse(g, trace).turns == turns
    ensures Parse(g, trace + Announce(m)) == InTurn(ended + [m], turns, Some(m))
  {
    ParseAppend(g, trace, Announce(m));
    ParseTwo(Parse(g, trace), MessageStart(m), MessageEnd(m));
  }

  /** A batch that really is the batch of the turn's response. */
  ghost predicate Genuine(turn: Turn) {
    if Failed(turn.response) then turn.batch.trace == [] && turn.batch.finalized == []
    else exists script, sequential, aborted :: turn.batch == RunBatch(turn.response, script, sequential, aborted)
  }

  predicate Single(turn: Turn) { Starts(turn.events) <= 1 }

  lemma {:induction false} RunBatchAccepted(a: AssistantMessage, script: BatchScript, sequential: bool, aborted: bool,
                                            g: Grammar)
    requires g.InTurn? && g.last == Some(Assistant(a))
    ensures var b := RunBatch(a, script, sequential, aborted);
            Parse(g, b.trace) == After(g, a, [], Results(b.finalized))
  {
    var calls := ToolCalls(a.content);
    if calls != [] {
      if a.stopReason == Length {
        TruncatedAccepted(calls, 0, aborted, g, a, []);
      } else if sequential || HasSequentialTool(calls, script.calls) {
        SequentialAccepted(calls, script.calls, 0, aborted, g, a, []);
      } else {
        ParallelAccepted(calls, script, aborted, g, a);
      }
    }
  }

  lemma {:induction false} GenuineAccepted(turn: Turn, g: Grammar)
    requires Genuine(turn) && g.InTurn? && g.last == Some(Assistant(turn.response))
    ensures Parse(g, turn.batch.trace) == After(g, turn.response, [], TurnResults(turn))
  {
    if !Failed(turn.response) {
      var script, sequential, aborted :|
        turn.batch == RunBatch(turn.response, script, sequential, aborted);
      RunBatchAccepted(turn.response, script, sequential, aborted, g);
    }
  }

  lemma {:induction false} TurnEndAccepted(g: Grammar, a: AssistantMessage, rs: seq<ToolResultMessage>)
    requires g.InTurn? && g.last == Some(Assistant(a))
    ensures Parse(After(g, a, [], rs), [TurnEnd(Assistant(a), rs)]) == InRun(g.ended + AsMessages(rs), g.turns + 1)
  {
    ParseOne(After(g, a, [], rs), TurnEnd(Assistant(a), rs));
    assert [] + rs == rs;
    if rs == [] {
      assert g.ended + AsMessages(rs) == g.ended;
    }
  }

  /** A turn is one turn of the grammar if its stream starts at most once, and else breaks it. */
  lemma {:induction false} TurnAccepted(turn: Turn, ended: seq<Message>, turns: nat, last: Option<Message>)
    requires Genuine(turn)
    ensures Parse(InTurn(ended, turns, last), TurnTrace(turn)) ==
            if Single(turn) then InRun(ended + TurnMessages(turn), turns + 1) else Broken
  {
    hide Genuine, AnnounceAll, Next, AsMessages, Results;
    var g0 := InTurn(ended, turns, last);
    var injected, stream := AnnounceAll(turn.injected), StreamOf(turn).trace;
    AnnouncedAccepted(turn.injected, ended, turns, last);
    var g1 := Parse(g0, injected);
    StreamIsOneMessage(turn.request.messages, turn.events, turn.response, g1);
    var g2 := Parse(g1, stream);
    ParseThen(g0, injected, g1, stream, g2);
    if Single(turn) {
      GenuineAccepted(turn, g2);
      TurnEndAccepted(g2, turn.response, TurnResults(turn));
      var g3 := After(g2, turn.response, [], TurnResults(turn));
      ParseThen(g0, injected + stream, g2, turn.batch.trace, g3);
      ParseAppend(g0, injected + stream + turn.batch.trace, [TurnEnd(Assistant(turn.response), TurnResults(turn))]);
      Messages(ended, turn);
    } else {
      var rest := [TurnEnd(Assistant(turn.response), TurnResults(turn))];
      BrokenStays(turn.batch.trace);
      BrokenStays(rest);
      ParseThen(g0, injected + stream, Broken, turn.batch.trace, Broken);
      ParseThen(g0, injected + stream + turn.batch.trace, Broken, rest, Broken);
    }
  }

  /** How many messages a trace starts. */
  function MessageStarts(trace: seq<Event>): nat {
    if trace == [] then 0
    else MessageStarts(trace[..|trace| - 1]) + if trace[|trace| - 1].MessageStart? then 1 else 0
  }

  /** On a trace that the grammar accepts between two events of a run, every message that starts
      ends before the next one starts. */
  lemma {:induction false} StartsAreEnded(g: Grammar, trace: seq<Event>)
    requires (g.InTurn? || g.InRun?) && Parse(g, trace) != Broken
    ensures var after := Parse(g, trace);
            && after != Idle && after.ended == g.ended + Ended(trace)
            && MessageStarts(trace) == |Ended(trace)| + Inside(after)
  {
    if trace != [] {
      hide Next, Inside;
      var k := |trace| - 1;
      var before := Parse(g, trace[..k]);
      BrokenNext(trace[k]);
      StartsAreEnded(g, trace[..k]);
      EndedStep(before, trace[k]);
      InsideStep(before, trace[k]);
    }
  }

  /** A message has started and not ended. */
  function Inside(g: Grammar): nat { if g.InMessage? || g.InResult? then 1 else 0 }

  lemma {:induction false} BrokenNext(e: Event)
    ensures Next(Broken, e) == Broken
  {
  }

  lemma {:induction false} InsideStep(g: Grammar, e: Event)
    requires g != Idle && Next(g, e) != Broken
    ensures Next(g, e) != Idle
    ensures Inside(Next(g, e)) + (if e.MessageEnd? then 1 else 0) == Inside(g) + if e.MessageStart? then 1 else 0
  {
  }

  /** A turn whose stream starts at most once starts and ends the messages injected, then one
      response, then tool results, and nothing else: the response is the only assistant message
      that was not injected. */
  lemma {:induction false} OneResponse(turn: Turn)
    requires Genuine(turn) && Single(turn)
    ensures var ended := Ended(TurnTrace(turn));
            && MessageStarts(TurnTrace(turn)) == |ended|
            && |turn.injected| < |ended| && ended[..|turn.injected|] == turn.injected
            && forall i | |turn.injected| <= i < |ended| ::
                 if i == |turn.injected| then ended[i] == Assistant(turn.response) else ended[i].ToolResult?
  {
    hide Genuine, Single, TurnTrace, Next, Parse, AsMessages, Results, Ended, MessageStarts, TurnMessages;
    TurnAccepted(turn, [], 0, None);
    StartsAreEnded(InTurn([], 0, None), TurnTrace(turn));
    NothingBefore(TurnMessages(turn), Ended(TurnTrace(turn)));
    OneAmong(turn);
  }

  lemma {:induction false} NothingBefore(a: seq<Message>, b: seq<Message>)
    ensures [] + a == a && [] + b == b
  {
  }

  lemma {:induction false} OneAmong(turn: Turn)
    ensures var ms := TurnMessages(turn);
            && |turn.injected| < |ms| && ms[..|turn.injected|] == turn.injected
            && forall i | |turn.injected| <= i < |ms| ::
                 if i == |turn.injected| then ms[i] == Assistant(turn.response) else ms[i].ToolResult?
  {
    hide Results;
  }

  lemma {:induction false} Messages(ended: seq<Message>, turn: Turn)
    ensures ended + turn.injected + [Assistant(turn.response)] + AsMessages(TurnResults(turn)) ==
            ended + TurnMessages(turn)
  {
  }

  ghost predicate AllGenuine(turns: seq<Turn>) { forall i | 0 <= i < |turns| :: Genuine(turns[i]) }

  predicate AllSingle(turns: seq<Turn>) { forall i | 0 <= i < |turns| :: Single(turns[i]) }

  lemma {:induction false} RunOpens(prompts: seq<Message>)
    ensures var g := Parse(Idle, TurnsTrace(prompts, []));
            g.InTurn? && g.ended == prompts && g.turns == 0
  {
    ParseTwo(Idle, AgentStart, TurnStart);
    AnnouncedAccepted(prompts, [], 0, None);
    ParseAppend(Idle, [AgentStart, TurnStart], AnnounceAll(prompts));
    assert [] + prompts == prompts;
  }

  lemma {:induction false} TurnsAccepted(prompts: seq<Message>, turns: seq<Turn>)
    requires AllGenuine(turns) && turns != []
    ensures Parse(Idle, TurnsTrace(prompts, turns)) ==
            if AllSingle(turns) then InRun(prompts + Flatten(turns), |turns|) else Broken
  {
    hide Genuine, Single, TurnTrace, TurnMessages, Next, Parse, TurnsTrace, Flatten;
    var k := |turns| - 1;
    var before := turns[..k];
    LastTurn(prompts, turns);
    if k == 0 {
      RunOpens(prompts);
      NextTurnAccepted(Idle, TurnsTrace(prompts, []), [], turns[0], prompts, 0);
    } else {
      TurnsAccepted(prompts, before);
      if AllSingle(before) {
        NextTurnAccepted(Idle, TurnsTrace(prompts, before), [TurnStart], turns[k], prompts + Flatten(before), k);
      } else {
        StaysBroken(TurnsTrace(prompts, before), [TurnStart], TurnTrace(turns[k]));
      }
    }
  }

  /** What the last turn adds. */
  lemma {:induction false} LastTurn(prompts: seq<Message>, turns: seq<Turn>)
    requires turns != []
    ensures var k := |turns| - 1;
            && TurnsTrace(prompts, turns) ==
               TurnsTrace(prompts, turns[..k]) + (if k == 0 then [] else [TurnStart]) + TurnTrace(turns[k])
            && prompts + Flatten(turns) == prompts + Flatten(turns[..k]) + TurnMessages(turns[k])
            && (AllSingle(turns) <==> AllSingle(turns[..k]) && Single(turns[k]))
            && (k == 0 ==> turns[..k] == [] && prompts + Flatten(turns[..k]) == prompts)
  {
    hide TurnTrace, TurnMessages, Single;
    var k := |turns| - 1;
    assert prompts + (Flatten(turns[..k]) + TurnMessages(turns[k]))
        == prompts + Flatten(turns[..k]) + TurnMessages(turns[k]);
  }

  lemma {:induction false} StaysBroken(trace: seq<Event>, start: seq<Event>, more: seq<Event>)
    requires Parse(Idle, trace) == Broken
    ensures Parse(Idle, trace + start + more) == Broken
  {
    hide Parse;
    ParseAppend(Idle, trace, start);
    ParseAppend(Idle, trace + start, more);
    BrokenStays(start);
    BrokenStays(more);
  }

  lemma {:induction false} NextTurnAccepted(g: Grammar, trace: seq<Event>, start: seq<Event>, turn: Turn,
                                            ended: seq<Message>, n: nat)
    requires Genuine(turn)
    requires Parse(g, trace).InTurn? || Parse(g, trace).InRun?
    requires Parse(g, trace).ended == ended && Parse(g, trace).turns == n
    requires start == if Parse(g, trace).InTurn? then [] else [TurnStart]
    ensures Parse(g, trace + start + TurnTrace(turn)) ==
            if Single(turn) then InRun(ended + TurnMessages(turn), n + 1) else Broken
  {
    hide Genuine, Single, TurnTrace, TurnMessages;
    ParseAppend(g, trace, start);
    ParseOne(Parse(g, trace), TurnStart);
    ParseAppend(g, trace + start, TurnTrace(turn));
    TurnAccepted(turn, ended, n, Parse(g, trace + start).last);
  }

  /** Every run emits a trace of the grammar, with one turn of the grammar per turn and ended
      by one `agent_end` that reports its messages, if and only if each stream of the run
      starts at most once. */
  lemma {:induction false} RunAccepted(prompts: seq<Message>, turns: seq<Turn>)
    requires AllGenuine(turns) && turns != []
    ensures Parse(Idle, RunTrace(prompts, turns)) ==
            if AllSingle(turns) then Over(prompts + Flatten(turns), |turns|) else Broken
  {
    hide AllGenuine, AllSingle, TurnsTrace, Flatten, Parse;
    var end := AgentEnd(prompts + Flatten(turns));
    TurnsAccepted(prompts, turns);
    ParseAppend(Idle, TurnsTrace(prompts, turns), [end]);
    ParseOne(Parse(Idle, TurnsTrace(prompts, turns)), end);
  }

  /** The turns of a run are genuine, and only the last one may have failed. */
  lemma {:induction false} RunsAreGenuine(st: LoopState, injected: seq<Message>, source: Source,
                                          script: seq<TurnScript>)
    ensures var run := RunFrom(st, injected, source, script);
            && run.turns != [] && AllGenuine(run.turns)
            && run.turns[0].injected == injected && run.turns[0].source == source
            && forall i | 0 <= i < |run.turns| - 1 :: !Failed(run.turns[i].response)
    decreases |script|, 0
  {
    hide Genuine, AllGenuine, RunBatch, HasMore, StreamOf, ActAll, Drained, AfterDrain, Updated;
    var t := if script == [] then EXHAUSTED else script[0];
    var turn := TakeTurn(st, injected, source, t);
    TakenIsGenuine(st, injected, source, t);
    if !Failed(t.response) && !t.stops {
      var acted := Acted(Updated(AfterTurn(st, turn), t.update), t.beforeSteering);
      var rest := Resume(SteeringPolled(acted), HasMore(t.response, turn.batch.finalized),
                         Drained(acted.queues.steering), Steering, t.beforeFollowUp, script[1..]);
      ResumedAreGenuine(SteeringPolled(acted), HasMore(t.response, turn.batch.finalized),
                        Drained(acted.queues.steering), Steering, t.beforeFollowUp, script[1..]);
      OneMoreGenuine(turn, rest.turns);
    } else {
      OneGenuine(turn);
    }
  }

  lemma {:induction false} OneGenuine(turn: Turn)
    requires Genuine(turn)
    ensures AllGenuine([turn])
  {
    hide Genuine;
  }

  lemma {:induction false} OneMoreGenuine(turn: Turn, rest: seq<Turn>)
    requires Genuine(turn) && AllGenuine(rest)
    requires rest != [] ==> !Failed(turn.response)
    requires forall i | 0 <= i < |rest| - 1 :: !Failed(rest[i].response)
    ensures AllGenuine([turn] + rest)
    ensures forall i | 0 <= i < |[turn] + rest| - 1 :: !Failed(([turn] + rest)[i].response)
  {
    hide Genuine;
    assert forall i | 0 < i < |[turn] + rest| :: ([turn] + rest)[i] == rest[i - 1];
  }

  lemma {:induction false} TakenIsGenuine(st: LoopState, injected: seq<Message>, source: Source, t: TurnScript)
    ensures Genuine(TakeTurn(st, injected, source, t))
  {
    var turn := TakeTurn(st, injected, source, t);
    assert !Failed(t.response) ==>
             turn.batch == RunBatch(turn.response, t.batch, st.config.sequential, st.aborted);
  }

  lemma {:induction false} ResumedAreGenuine(st: LoopState, hasMore: bool, pending: seq<Message>, source: Source,
                                             acts: seq<UserAct>, script: seq<TurnScript>)
    ensures var run := Resume(st, hasMore, pending, source, acts, script);
            AllGenuine(run.turns) && forall i | 0 <= i < |run.turns| - 1 :: !Failed(run.turns[i].response)
    decreases |script|, 1
  {
    hide Genuine;
    if hasMore || pending != [] {
      RunsAreGenuine(st, pending, source, script);
    } else {
      var acted := Acted(st, acts);
      RunsAreGenuine(FollowUpPolled(acted), Drained(acted.queues.followUp), Following, script);
    }
  }

  /** A whole run, from its prompts to its `agent_end`, in the grammar. */
  lemma {:induction false} WholeRunAccepted(st: LoopState, prompts: seq<Message>, acts: seq<UserAct>, skip: bool,
                                            script: seq<TurnScript>)
    ensures var turns := WholeRun(st, acts, skip, script).turns;
            && turns != []
            && (forall i | 0 <= i < |turns| - 1 :: !Failed(turns[i].response))
            && Parse(Idle, RunTrace(prompts, turns)) ==
               if AllSingle(turns) then Over(prompts + Flatten(turns), |turns|) else Broken
  {
    hide RunFrom, AllGenuine, AllSingle, Parse, RunTrace, Flatten;
    var acted := Acted(st, acts);
    if skip {
      RunsAreGenuine(acted, [], Steering, script);
    } else {
      RunsAreGenuine(SteeringPolled(acted), Drained(acted.queues.steering), Steering, script);
    }
    RunAccepted(prompts, WholeRun(st, acts, skip, script).turns);
  }
}
