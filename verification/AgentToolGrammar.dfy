/**
 Every tool batch keeps to the grammar of traces: every call started is ended exactly once,
 its updates lie between, and every end is answered by exactly one result message that
 carries the same id, outcome and error flag.
 */
module AgentToolGrammar {
  import opened Wrappers
  import opened AgentTypes
  import opened AgentTools
  import opened AgentToolProofs

  /** After the response `a`, ready for the batch's next call: nothing open, nothing owed. */
  predicate Ready(g: Grammar, a: AssistantMessage, results: seq<ToolResultMessage>) {
    || (g.InTurn? && g.last == Some(Assistant(a)) && results == [])
    || (g.InBatch? && g.batch == Batch(a, multiset{}, multiset{}, results))
  }

  /** Where giving the results `rs` leads. */
  function After(g: Grammar, a: AssistantMessage, results: seq<ToolResultMessage>, rs: seq<ToolResultMessage>): Grammar
    requires Ready(g, a, results)
  {
    if rs == [] then g
    else InBatch(g.ended + AsMessages(rs), g.turns, Batch(a, multiset{}, multiset{}, results + rs))
  }

  lemma {:induction false} AfterAfter(g: Grammar, a: AssistantMessage, results: seq<ToolResultMessage>,
                   r: ToolResultMessage, rs: seq<ToolResultMessage>)
    requires Ready(g, a, results)
    ensures Ready(After(g, a, results, [r]), a, results + [r])
    ensures After(After(g, a, results, [r]), a, results + [r], rs) == After(g, a, results, [r] + rs)
  {
    assert AsMessages([r] + rs) == AsMessages([r]) + AsMessages(rs);
    assert results + [r] + rs == results + ([r] + rs);
    assert g.ended + AsMessages([r]) + AsMessages(rs) == g.ended + (AsMessages([r]) + AsMessages(rs));
  }

  lemma {:induction false} UpdateStays(g: Grammar, call: ToolCall, update: string)
    requires g.InBatch? && call.id in g.batch.open
    ensures Parse(g, [ToolUpdate(call.id, update)]) == g
  {
    ParseOne(g, ToolUpdate(call.id, update));
  }

  lemma {:induction false} UpdatesAccepted(g: Grammar, call: ToolCall, updates: seq<string>)
    requires g.InBatch? && call.id in g.batch.open
    ensures Parse(g, UpdatesOf(call, updates)) == g
  {
    hide Next;
    if updates != [] {
      var k := |updates| - 1;
      UpdatesAccepted(g, call, updates[..k]);
      UpdateStays(g, call, updates[k]);
      ParseAppend(g, UpdatesOf(call, updates[..k]), [ToolUpdate(call.id, updates[k])]);
    }
  }

  lemma {:induction false} StartAccepted(g: Grammar, a: AssistantMessage, results: seq<ToolResultMessage>,
                                         call: ToolCall)
    requires Ready(g, a, results)
    ensures Parse(g, [StartOf(call)]) ==
            InBatch(g.ended, g.turns, Batch(a, multiset{call.id}, multiset{}, results))
  {
    ParseOne(g, StartOf(call));
    assert multiset{} + multiset{call.id} == multiset{call.id};
  }

  lemma {:induction false} EndAccepted(ended: seq<Message>, turns: nat, a: AssistantMessage,
                                       results: seq<ToolResultMessage>, f: Finalized)
    ensures Parse(InBatch(ended, turns, Batch(a, multiset{f.call.id}, multiset{}, results)), [EndOf(f)]) ==
            InBatch(ended, turns, Batch(a, multiset{}, multiset{ResultOf(f)}, results))
  {
    ParseOne(InBatch(ended, turns, Batch(a, multiset{f.call.id}, multiset{}, results)), EndOf(f));
    assert multiset{f.call.id} - multiset{f.call.id} == multiset{};
    assert multiset{} + multiset{ResultOf(f)} == multiset{ResultOf(f)};
  }

  /** An owed result is given. */
  lemma {:induction false} GiftAccepted(ended: seq<Message>, turns: nat, a: AssistantMessage, open: multiset<string>,
                     owed: multiset<ToolResultMessage>, results: seq<ToolResultMessage>, r: ToolResultMessage)
    ensures Parse(InBatch(ended, turns, Batch(a, open, owed + multiset{r}, results)), Announce(ToolResult(r))) ==
            InBatch(ended + [ToolResult(r)], turns, Batch(a, open, owed, results + [r]))
  {
    var g := InBatch(ended, turns, Batch(a, open, owed + multiset{r}, results));
    ParseTwo(g, MessageStart(ToolResult(r)), MessageEnd(ToolResult(r)));
    assert owed + multiset{r} - multiset{r} == owed;
  }

  lemma {:induction false} OneCallAccepted(g: Grammar, a: AssistantMessage, results: seq<ToolResultMessage>,
                        call: ToolCall, updates: seq<string>, f: Finalized)
    requires Ready(g, a, results) && f.call == call
    ensures Parse(g, OneCall(call, UpdatesOf(call, updates), f)) == After(g, a, results, [ResultOf(f)])
  {
    var r := ResultOf(f);
    var started := InBatch(g.ended, g.turns, Batch(a, multiset{call.id}, multiset{}, results));
    var ended := InBatch(g.ended, g.turns, Batch(a, multiset{}, multiset{r}, results));
    var us := UpdatesOf(call, updates);
    StartAccepted(g, a, results, call);
    UpdatesAccepted(started, call, updates);
    ParseThen(g, [StartOf(call)], started, us, started);
    EndAccepted(g.ended, g.turns, a, results, f);
    ParseThen(g, [StartOf(call)] + us, started, [EndOf(f)], ended);
    assert multiset{} + multiset{r} == multiset{r};
    GiftAccepted(g.ended, g.turns, a, multiset{}, multiset{}, results, r);
    assert AsMessages([r]) == [ToolResult(r)];
    ParseThen(g, [StartOf(call)] + us + [EndOf(f)], ended, Announce(ToolResult(r)), After(g, a, results, [r]));
  }

  lemma {:induction false} ResultsPrefix(f: Finalized, fs: seq<Finalized>)
    ensures Results([f] + fs) == [ResultOf(f)] + Results(fs)
  {
  }

  lemma {:induction false} TruncatedAccepted(calls: seq<ToolCall>, k: nat, aborted: bool,
                                            g: Grammar, a: AssistantMessage, results: seq<ToolResultMessage>)
    requires k <= |calls| && Ready(g, a, results)
    ensures var b := FailTruncated(calls, k, aborted);
            Parse(g, b.trace) == After(g, a, results, Results(b.finalized))
    decreases |calls| - k
  {
    if k < |calls| {
      var f := TruncatedCall(calls[k]);
      var rest := FailTruncated(calls, k + 1, aborted);
      OneCallAccepted(g, a, results, calls[k], [], f);
      AfterAfter(g, a, results, ResultOf(f), Results(rest.finalized));
      TruncatedAccepted(calls, k + 1, aborted, After(g, a, results, [ResultOf(f)]), a, results + [ResultOf(f)]);
      ParseAppend(g, OneCall(calls[k], [], f), rest.trace);
      ResultsPrefix(f, rest.finalized);
    }
  }

  lemma {:induction false} SequentialAccepted(calls: seq<ToolCall>, scripts: seq<CallScript>, k: nat, aborted: bool,
                                             g: Grammar, a: AssistantMessage, results: seq<ToolResultMessage>)
    requires k <= |calls| && Ready(g, a, results)
    ensures var b := Sequential(calls, scripts, k, aborted);
            Parse(g, b.trace) == After(g, a, results, Results(b.finalized))
    decreases |calls| - k
  {
    hide RunOne, OneCall, Settle, Prepare, Ready, After, Parse, Results;
    if k == |calls| {
      NothingAccepted(g, a, results);
    } else {
      var script := ScriptOf(scripts, k);
      var abortedThen := aborted || script.abortsInPreparation;
      var (trace, f) := RunOne(calls[k], script, abortedThen);
      RunOneAccepted(calls[k], script, abortedThen, g, a, results);
      var rest := if abortedThen || script.abortsAfter then BatchRun([], [], true)
                  else Sequential(calls, scripts, k + 1, false);
      AfterAfter(g, a, results, ResultOf(f), []);
      var here := After(g, a, results, [ResultOf(f)]);
      NothingAccepted(here, a, results + [ResultOf(f)]);
      SequentialAccepted(calls, scripts, k + 1, false, here, a, results + [ResultOf(f)]);
      OneThenOthers(g, a, results, trace, f, rest);
    }
  }

  lemma {:induction false} NothingAccepted(g: Grammar, a: AssistantMessage, results: seq<ToolResultMessage>)
    requires Ready(g, a, results)
    ensures Parse(g, []) == After(g, a, results, Results([]))
  {
  }

  lemma {:induction false} OneThenOthers(g: Grammar, a: AssistantMessage, results: seq<ToolResultMessage>,
                      trace: seq<Event>, f: Finalized, rest: BatchRun)
    requires Ready(g, a, results) && Ready(After(g, a, results, [ResultOf(f)]), a, results + [ResultOf(f)])
    requires Parse(g, trace) == After(g, a, results, [ResultOf(f)])
    requires Parse(After(g, a, results, [ResultOf(f)]), rest.trace) ==
             After(After(g, a, results, [ResultOf(f)]), a, results + [ResultOf(f)], Results(rest.finalized))
    ensures Parse(g, trace + rest.trace) == After(g, a, results, Results([f] + rest.finalized))
  {
    AfterAfter(g, a, results, ResultOf(f), Results(rest.finalized));
    ParseAppend(g, trace, rest.trace);
    ResultsPrefix(f, rest.finalized);
  }

  lemma {:induction false} RunOneAccepted(call: ToolCall, script: CallScript, aborted: bool,
                       g: Grammar, a: AssistantMessage, results: seq<ToolResultMessage>)
    requires Ready(g, a, results)
    ensures var (trace, f) := RunOne(call, script, aborted);
            Parse(g, trace) == After(g, a, results, [ResultOf(f)])
  {
    var updates := if Prepare(call, script, aborted).Prepared? then script.updates else [];
    OneCallAccepted(g, a, results, call, updates, Settle(call, script, aborted));
  }

  // ---- parallel batches ----

  /** The id of a call that is still open. */
  function OpenBy(e: Entry): multiset<string> {
    if e.Running? then multiset{Outcome(e).call.id} else multiset{}
  }

  /** The result that a settled call is owed. */
  function OwedTo(e: Entry): multiset<ToolResultMessage> {
    if e.Settled? then multiset{ResultOf(Outcome(e))} else multiset{}
  }

  function OpenOf(entries: seq<Entry>): multiset<string> {
    if entries == [] then multiset{} else OpenOf(entries[..|entries| - 1]) + OpenBy(entries[|entries| - 1])
  }

  function OwedOf(entries: seq<Entry>): multiset<ToolResultMessage> {
    if entries == [] then multiset{} else OwedOf(entries[..|entries| - 1]) + OwedTo(entries[|entries| - 1])
  }

  /** After the response `a` and the start of `entries`, some of them settled by now. */
  function During(g: Grammar, a: AssistantMessage, entries: seq<Entry>): Grammar
    requires g.InTurn?
  {
    if entries == [] then g else InBatch(g.ended, g.turns, Batch(a, OpenOf(entries), OwedOf(entries), []))
  }

  lemma {:induction false} StepOfEntry(e: Entry)
    requires e.Running?
    ensures OpenBy(e) == multiset{Outcome(e).call.id} && OwedTo(e) == multiset{}
    ensures if e.updates == [] then
              OpenBy(StepEntry(e)) == multiset{} && OwedTo(StepEntry(e)) == multiset{ResultOf(Outcome(e))}
            else
              OpenBy(StepEntry(e)) == OpenBy(e) && OwedTo(StepEntry(e)) == multiset{}
  {
    StepKeepsOutcome(e);
  }

  /** Replacing one slot changes the open calls and the owed results by that slot's. */
  lemma {:induction false} SlotChanges(entries: seq<Entry>, i: nat, e: Entry)
    requires i < |entries|
    ensures OpenOf(entries[i := e]) + OpenBy(entries[i]) == OpenOf(entries) + OpenBy(e)
    ensures OwedOf(entries[i := e]) + OwedTo(entries[i]) == OwedOf(entries) + OwedTo(e)
  {
    hide OpenBy, OwedTo;
    var k := |entries| - 1;
    var after := entries[i := e];
    if i == k {
      assert after[..k] == entries[..k];
      Swap(OpenOf(entries[..k]), OpenBy(e), OpenBy(entries[k]));
      Swap(OwedOf(entries[..k]), OwedTo(e), OwedTo(entries[k]));
    } else {
      SlotChanges(entries[..k], i, e);
      assert after[..k] == entries[..k][i := e];
      Swap(OpenOf(after[..k]), OpenBy(entries[k]), OpenBy(entries[i]));
      Swap(OpenOf(entries[..k]), OpenBy(entries[k]), OpenBy(e));
      Swap(OwedOf(after[..k]), OwedTo(entries[k]), OwedTo(entries[i]));
      Swap(OwedOf(entries[..k]), OwedTo(entries[k]), OwedTo(e));
    }
  }

  lemma {:induction false} Swap<T>(m: multiset<T>, x: multiset<T>, y: multiset<T>)
    ensures m + x + y == m + y + x
  {
  }

  /** How one step of a running task moves its call from open to owed. */
  lemma {:induction false} EntryStep(entries: seq<Entry>, i: nat)
    requires i < |entries| && entries[i].Running?
    ensures var e := entries[i];
            var after := entries[i := StepEntry(e)];
            if e.updates == [] then
              && OpenOf(entries) == OpenOf(after) + multiset{Outcome(e).call.id}
              && OwedOf(after) == OwedOf(entries) + multiset{ResultOf(Outcome(e))}
            else
              && OpenOf(after) == OpenOf(entries) && OwedOf(after) == OwedOf(entries)
              && Outcome(e).call.id in OpenOf(entries)
  {
    hide OpenOf, OwedOf, OpenBy, OwedTo, Outcome, StepEntry, ResultOf;
    var e := entries[i];
    var after := entries[i := StepEntry(e)];
    StepOfEntry(e);
    SlotChanges(entries, i, StepEntry(e));
    assert e.updates == [] ==> OpenOf(after) + OpenBy(e) == OpenOf(entries) + multiset{} == OpenOf(entries)
                               && OwedOf(after) + multiset{} == OwedOf(after);
    if e.updates != [] {
      StillOpen(entries, i);
      assert OpenOf(after) + OpenBy(e) - OpenBy(e) == OpenOf(after);
      assert OpenOf(entries) + OpenBy(e) - OpenBy(e) == OpenOf(entries);
      assert OwedOf(after) + multiset{} == OwedOf(after) && OwedOf(entries) + multiset{} == OwedOf(entries);
    }
  }

  lemma {:induction false} StillOpen(entries: seq<Entry>, i: nat)
    requires i < |entries| && entries[i].Running?
    ensures Outcome(entries[i]).call.id in OpenOf(entries)
  {
    hide Outcome;
    if i < |entries| - 1 {
      StillOpen(entries[..|entries| - 1], i);
    }
  }

  lemma {:induction false} UpdateAccepted(g: Grammar, e: Entry)
    requires e.Running? && e.updates != [] && g.InBatch? && Outcome(e).call.id in g.batch.open
    ensures Parse(g, [StepEvent(e)]) == g
  {
    ParseOne(g, StepEvent(e));
  }

  lemma {:induction false} SettlingAccepted(ended: seq<Message>, turns: nat, a: AssistantMessage,
                                            open: multiset<string>,
                         owed: multiset<ToolResultMessage>, f: Finalized)
    ensures Parse(InBatch(ended, turns, Batch(a, open + multiset{f.call.id}, owed, [])), [EndOf(f)]) ==
            InBatch(ended, turns, Batch(a, open, owed + multiset{ResultOf(f)}, []))
  {
    ParseOne(InBatch(ended, turns, Batch(a, open + multiset{f.call.id}, owed, [])), EndOf(f));
    assert open + multiset{f.call.id} - multiset{f.call.id} == open;
  }

  lemma {:induction false} EntryAccepted(entries: seq<Entry>, i: nat, g: Grammar, a: AssistantMessage)
    requires g.InTurn? && i < |entries| && entries[i].Running?
    ensures Parse(During(g, a, entries), [StepEvent(entries[i])]) ==
            During(g, a, entries[i := StepEntry(entries[i])])
  {
    EntryStep(entries, i);
    var e := entries[i];
    if e.updates == [] {
      SettlingAccepted(g.ended, g.turns, a, OpenOf(entries[i := StepEntry(e)]), OwedOf(entries), Outcome(e));
    } else {
      UpdateAccepted(During(g, a, entries), e);
    }
  }

  lemma {:induction false} ConcurrentAccepted(entries: seq<Entry>, schedule: seq<nat>, g: Grammar, a: AssistantMessage)
    requires g.InTurn?
    ensures Parse(During(g, a, entries), Concurrent(entries, schedule)) == During(g, a, Slots(entries, schedule))
    decreases Work(entries)
  {
    if !AllSettled(entries) {
      var i := Pick(entries, schedule);
      var after := entries[i := StepEntry(entries[i])];
      WorkStep(entries, i);
      EntryAccepted(entries, i, g, a);
      ConcurrentAccepted(after, Tail(schedule), g, a);
      ParseThen(During(g, a, entries), [StepEvent(entries[i])], During(g, a, after),
                Concurrent(after, Tail(schedule)), During(g, a, Slots(entries, schedule)));
    }
  }

  lemma {:induction false} StartedAccepted(calls: seq<ToolCall>, scripts: seq<CallScript>, k: nat, aborted: bool,
                                          g: Grammar, a: AssistantMessage, before: seq<Entry>)
    requires k <= |calls| && g.InTurn? && g.last == Some(Assistant(a))
    ensures var s := StartAll(calls, scripts, k, aborted);
            Parse(During(g, a, before), s.trace) == During(g, a, before + s.entries)
    decreases |calls| - k
  {
    if k == |calls| {
      assert before + [] == before;
    } else {
      var script := ScriptOf(scripts, k);
      var abortedThen := aborted || script.abortsInPreparation;
      var (trace, entry) := StartOne(calls[k], script, abortedThen);
      var rest := if abortedThen || script.abortsAfter then Started([], [], true)
                  else StartAll(calls, scripts, k + 1, false);
      OneStartAccepted(calls[k], trace, entry, g, a, before);
      Regroup(before, entry, rest.entries);
      if rest.entries != [] || k + 1 < |calls| {
        StartedAccepted(calls, scripts, k + 1, false, g, a, before + [entry]);
      }
      ParseThen(During(g, a, before), trace, During(g, a, before + [entry]), rest.trace,
                During(g, a, before + [entry] + rest.entries));
    }
  }

  lemma {:induction false} Regroup(before: seq<Entry>, entry: Entry, rest: seq<Entry>)
    ensures before + ([entry] + rest) == before + [entry] + rest
    ensures rest == [] ==> before + [entry] + rest == before + [entry]
  {
  }

  lemma {:induction false} DuringMore(g: Grammar, a: AssistantMessage, before: seq<Entry>, entry: Entry)
    requires g.InTurn?
    ensures During(g, a, before + [entry]) ==
            InBatch(g.ended, g.turns,
                    Batch(a, OpenOf(before) + OpenBy(entry), OwedOf(before) + OwedTo(entry), []))
  {
    assert (before + [entry])[..|before|] == before;
  }

  lemma {:induction false} OneStartAccepted(call: ToolCall, trace: seq<Event>, entry: Entry,
                         g: Grammar, a: AssistantMessage, before: seq<Entry>)
    requires g.InTurn? && g.last == Some(Assistant(a)) && Outcome(entry).call == call
    requires trace == if entry.Running? then [StartOf(call)] else [StartOf(call), EndOf(Outcome(entry))]
    ensures Parse(During(g, a, before), trace) == During(g, a, before + [entry])
  {
    DuringMore(g, a, before, entry);
    if entry.Running? {
      OpeningAccepted(During(g, a, before), g, a, OpenOf(before), OwedOf(before), call);
      assert OwedOf(before) + multiset{} == OwedOf(before);
    } else {
      ImmediateAccepted(During(g, a, before), g, a, OpenOf(before), OwedOf(before), Outcome(entry));
      assert OpenOf(before) + multiset{} == OpenOf(before);
    }
  }

  /** Between starts: just after the response, or with some calls open and some owed. */
  ghost predicate Starting(here: Grammar, g: Grammar, a: AssistantMessage, open: multiset<string>,
                           owed: multiset<ToolResultMessage>)
    requires g.InTurn?
  {
    || (here == g && g.last == Some(Assistant(a)) && open == multiset{} && owed == multiset{})
    || here == InBatch(g.ended, g.turns, Batch(a, open, owed, []))
  }

  lemma {:induction false} OpeningAccepted(here: Grammar, g: Grammar, a: AssistantMessage, open: multiset<string>,
                        owed: multiset<ToolResultMessage>, call: ToolCall)
    requires g.InTurn? && Starting(here, g, a, open, owed)
    ensures Parse(here, [StartOf(call)]) ==
            InBatch(g.ended, g.turns, Batch(a, open + multiset{call.id}, owed, []))
  {
    ParseOne(here, StartOf(call));
    if here == g {
      assert open + multiset{call.id} == multiset{call.id};
    }
  }

  lemma {:induction false} ImmediateAccepted(here: Grammar, g: Grammar, a: AssistantMessage, open: multiset<string>,
                          owed: multiset<ToolResultMessage>, f: Finalized)
    requires g.InTurn? && Starting(here, g, a, open, owed)
    ensures Parse(here, [StartOf(f.call), EndOf(f)]) ==
            InBatch(g.ended, g.turns, Batch(a, open, owed + multiset{ResultOf(f)}, []))
  {
    var id := f.call.id;
    var afterStart := InBatch(g.ended, g.turns, Batch(a, open + multiset{id}, owed, []));
    OpeningAccepted(here, g, a, open, owed, f.call);
    SettlingAccepted(g.ended, g.turns, a, open, owed, f);
    ParseThen(here, [StartOf(f.call)], afterStart, [EndOf(f)],
              InBatch(g.ended, g.turns, Batch(a, open, owed + multiset{ResultOf(f)}, [])));
    assert [StartOf(f.call)] + [EndOf(f)] == [StartOf(f.call), EndOf(f)];
  }

  lemma {:induction false} SettledOwes(entries: seq<Entry>)
    requires AllSettled(entries)
    ensures OpenOf(entries) == multiset{} && OwedOf(entries) == multiset(Results(OutcomesOf(entries)))
  {
    if entries != [] {
      var k := |entries| - 1;
      SettledOwes(entries[..k]);
      assert OutcomesOf(entries) == OutcomesOf(entries[..k]) + [entries[k].f];
      assert Results(OutcomesOf(entries)) == Results(OutcomesOf(entries[..k])) + [ResultOf(entries[k].f)];
    }
  }

  lemma {:induction false} GivingAccepted(ended: seq<Message>, turns: nat, a: AssistantMessage, fs: seq<Finalized>,
                                         owed: multiset<ToolResultMessage>)
    ensures Parse(InBatch(ended, turns, Batch(a, multiset{}, multiset(Results(fs)) + owed, [])), GiveResults(fs))
            == InBatch(ended + AsMessages(Results(fs)), turns, Batch(a, multiset{}, owed, Results(fs)))
  {
    if fs == [] {
      assert multiset(Results(fs)) + owed == owed;
      assert ended + AsMessages([]) == ended;
    } else {
      var k := |fs| - 1;
      var r := ResultOf(fs[k]);
      var g := InBatch(ended, turns, Batch(a, multiset{}, multiset(Results(fs)) + owed, []));
      var rs, ms := Results(fs[..k]), AsMessages(Results(fs[..k]));
      GivingAccepted(ended, turns, a, fs[..k], owed + multiset{r});
      OneMoreResult(rs, r, owed, ended);
      GiftAccepted(ended + ms, turns, a, multiset{}, owed, rs, r);
      ParseThen(g, GiveResults(fs[..k]),
                InBatch(ended + ms, turns, Batch(a, multiset{}, owed + multiset{r}, rs)),
                Announce(ToolResult(r)),
                InBatch(ended + ms + [ToolResult(r)], turns, Batch(a, multiset{}, owed, rs + [r])));
    }
  }

  lemma {:induction false} OneMoreResult(rs: seq<ToolResultMessage>, r: ToolResultMessage,
                                         owed: multiset<ToolResultMessage>,
                      ended: seq<Message>)
    ensures multiset(rs + [r]) + owed == multiset(rs) + (owed + multiset{r})
    ensures ended + AsMessages(rs + [r]) == ended + AsMessages(rs) + [ToolResult(r)]
  {
    assert AsMessages(rs + [r]) == AsMessages(rs) + [ToolResult(r)];
  }

  lemma {:induction false} ParallelAccepted(calls: seq<ToolCall>, script: BatchScript, aborted: bool, g: Grammar,
                                            a: AssistantMessage)
    requires g.InTurn? && g.last == Some(Assistant(a))
    ensures var b := Parallel(calls, script, aborted);
            Parse(g, b.trace) == After(g, a, [], Results(b.finalized))
  {
    var started := StartAll(calls, script.calls, 0, aborted);
    var running := Concurrent(started.entries, script.schedule);
    StartedAccepted(calls, script.calls, 0, aborted, g, a, []);
    assert [] + started.entries == started.entries;
    ConcurrentAccepted(started.entries, script.schedule, g, a);
    var slots := Slots(started.entries, script.schedule);
    ParseThen(g, started.trace, During(g, a, started.entries), running, During(g, a, slots));
    AllGiven(slots, g, a);
    ParseThen(g, started.trace + running, During(g, a, slots),
              GiveResults(OutcomesOf(slots)), After(g, a, [], Results(OutcomesOf(slots))));
  }

  lemma {:induction false} AllGiven(slots: seq<Entry>, g: Grammar, a: AssistantMessage)
    requires g.InTurn? && g.last == Some(Assistant(a)) && AllSettled(slots)
    ensures Parse(During(g, a, slots), GiveResults(OutcomesOf(slots))) ==
            After(g, a, [], Results(OutcomesOf(slots)))
  {
    SettledOwes(slots);
    if slots != [] {
      GivenAll(g, a, OutcomesOf(slots));
    }
  }

  lemma {:induction false} GivenAll(g: Grammar, a: AssistantMessage, fs: seq<Finalized>)
    requires g.InTurn? && g.last == Some(Assistant(a)) && fs != []
    ensures Parse(InBatch(g.ended, g.turns, Batch(a, multiset{}, multiset(Results(fs)), [])), GiveResults(fs)) ==
            After(g, a, [], Results(fs))
  {
    GivingAccepted(g.ended, g.turns, a, fs, multiset{});
    assert multiset(Results(fs)) + multiset{} == multiset(Results(fs));
    assert [] + Results(fs) == Results(fs);
  }
}
