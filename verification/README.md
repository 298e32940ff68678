# Verified model of the agent harness

This project models the parts of the harness where asynchronous steps, bytes and object graphs
meet, and proves what they keep. Code between two awaits runs to its end, so a step of a model is
what runs between two awaits; tools, the model's streams, the session service, the store and the
user are inputs that may do anything in any order.

How the files are laid out:

- **Frames** (`FrameFormat`, `FrameDecoder`, `MessageCodec`). The wire format with a reference
  reading of whole byte streams; the encoder and the incremental decoder on real arrays, proved
  against it; and the validating message decoder on top.
- **Agent** (`AgentTypes`, `AgentTools`, `AgentToolProofs`, `AgentToolGrammar`, `AgentOutcomes`,
  `AgentRun`, `AgentRunProofs`, `AgentTranscript`, `AgentLifetime`, `AgentPacing`, `Agent`). The events
  with their grammar and their reducer; one tool batch, sequential or parallel, and what each call
  comes to; whole runs of the loop over scripts of turns, and when they go on; lifetimes of an agent.
  `Agent.dfy` holds the agent and its loop as classes and loops, each
  proved to do what the specification of the same step says. A run is over a finite script; where
  the script ends, the next stream reports an abort, which ends the run, so every finite run and
  every finite part of an endless one is the run of some script.
- **Sessions** (`Sessions`, `SessionProofs`, `SessionManager`). The ref-counted live runtimes as a
  transition system, its invariant, and the manager as a class whose methods are the steps.
- **Leases** (`Leases`, `LeaseClient`). Shared and exclusive session leases of the client, likewise.
- **Model refresh** (`ModelRefresh`, `ModelRefresher`). Generations and the publication chain of one
  provider, likewise.
- **Protocol** (`Handshake`, `HandshakeProgress`, `Snapshots`, `SnapshotServer`). Client and server
  composed over FIFO channels, what either does with any message, and that nothing gets stuck; and the numbered
  snapshots from the publisher to the client's store.
- **Object graphs** (`ObjectGraph`, `JsonCopies`, `SanitizedDetails`, `JsonCopier`). Copying graphs
  with shared and cyclic objects into JSON trees.
- **Layout** (`Layout`, `DirectLayout`, `LayoutBoxes`, `Arrangement`, `ScrollSearch`). Where boxes are, clips, scroll
  views and hit testing.
- **Fuzzy matching** (`StableSort`, `Fuzzy`).

Some of the properties one would like are false of the code. For each it is proved exactly when the
code keeps it, and a run, an input or a family of them is given for which it does not:

- A stream that starts twice breaks the grammar of events and leaves a partial message in the
  context (`AgentRunProofs.StreamIsOneMessage`, `AgentRunProofs.RunAccepted`).
- Attaching does not look at a disposal that began meanwhile, so that a connection may be attached
  to a session that is gone (`SessionProofs.AttachedExactly`, `SessionProofs.AttachedRuns`,
  `SessionProofs.AttachedToDisposed`).
- Close gives up the guarantee of one runtime per session
  (`SessionProofs.OneOutstandingExactly`, `SessionProofs.OneOutstandingRuns`,
  `SessionProofs.TwoRuntimesAfterClose`), and disposes under running operations
  (`SessionProofs.OperationsInUseExactly`).
- A detach response that comes after its lease was invalidated takes the count from another holder
  (`Leases.KeptExactly`, `Leases.KeptInRuns`, `Leases.LateDetachMiscounts`).
- A refresh superseded in its storage step still completes it, so that the store may hold models
  that memory never gets (`ModelRefresh.AppliedExactly`, `ModelRefresh.StoredButNotApplied`).
- Requests that wait for the handshake may be overtaken by one that comes just after it
  (`Handshake.RequestsInOrder`, `Handshake.SecondRequestFirst`).
- A property called `__proto__` is lost in a copy, and may make a sanitized value that is no
  protocol value (`JsonCopies.CopyIsUnfolding`, `SanitizedDetails.SanitizedIsAccepted`,
  `SanitizedDetails.ProtoIsRejected`).

`dafny verify dfyconfig.toml` checks all files together.

Where the code and its comments differ, the models follow the code: `continue()` (agent.ts:360)
also continues from an assistant message when something is queued.

## Model

| member | source | states |
|---|---|---|
| FrameFormat.HeaderBijection | packages/protocol/src/framing.ts:33-36 | lengths up to 2^32 - 1 and four-byte headers correspond one to one, in both directions |
| FrameFormat.HeaderOrder | packages/protocol/src/framing.ts:33-36 | headers compare byte by byte from the first one as their lengths do: the most significant byte comes first |
| FrameFormat.ParseAppend | packages/protocol/src/framing.ts:80-142 | reading more bytes only continues from what the bytes before left over; nothing already read changes |
| FrameFormat.ChunkInvariance | packages/protocol/src/framing.ts:73-144 | two cuttings of the same bytes give the same payloads and the same left-over bytes, or both fail |
| FrameFormat.FeedIsParse | packages/protocol/src/framing.ts:73-144 | the pushes together read what the whole stream says, and the push that fails is the one whose chunk completes the first header over the limit |
| FrameFormat.RoundTrip | packages/protocol/src/framing.ts:28-39 | every cutting of the encoded form of payloads within the limit is read back as exactly those payloads, with nothing left over |
| FrameFormat.OnlyWireIsRead | packages/protocol/src/framing.ts:73-153 | conversely, bytes that end between frames are the encoded form of exactly the payloads read |
| FrameFormat.ParseIsSound | packages/protocol/src/framing.ts:80-142 | any byte stream is the encoded form of the payloads read from it followed by its left-over bytes |
| FrameFormat.RestIsStuck | packages/protocol/src/framing.ts:80-142 | the left-over of a stream reads as itself: it never hides a complete frame, so that no payload is held back |
| FrameFormat.CompleteFrames | packages/protocol/src/framing.ts:42-53 | a byte string is one frame of a payload within a limit if and only if its header says so and its length agrees |
| Framing.ResolveMaxFrameLength | packages/protocol/src/framing.ts:19-25 | the limit given, or the default when there is none, is accepted exactly from 0 to 2^32 - 1 and then used as it is |
| Framing.EncodeFrame | packages/protocol/src/framing.ts:28-39 | fails exactly for payloads over 2^32 - 1 bytes, and else gives a new array that holds the frame |
| Framing.AssertCompleteFrame | packages/protocol/src/framing.ts:42-53 | accepts exactly the frames of payloads within an acceptable limit |
| Framing.FrameDecoder.constructor | packages/protocol/src/framing.ts:58-71 | a new decoder is open, between frames, with nothing received |
| Framing.FrameDecoder.ReadHeader | packages/protocol/src/framing.ts:82-90 | takes header bytes in order, and answers the announced length once all four are there |
| Framing.FrameDecoder.GrowBlock | packages/protocol/src/framing.ts:108-114 | allocates the next block only when the last one is full, and keeps the block discipline |
| Framing.FrameDecoder.FillBlock | packages/protocol/src/framing.ts:115-122 | copies as many bytes as block and chunk allow; what has been received grows by exactly those |
| Framing.FrameDecoder.TakePayload | packages/protocol/src/framing.ts:124-141 | the finished frame holds exactly the payload received, and the decoder no longer holds its array |
| Framing.FrameDecoder.Push | packages/protocol/src/framing.ts:73-144 | for every state and chunk: the arrays returned hold the payloads that the stream now says, the left-over is kept, and a header over the limit fails the decoder; ended and failed decoders refuse |
| Framing.FrameDecoder.End | packages/protocol/src/framing.ts:146-153 | succeeds exactly between frames, and else fails the decoder as truncated |
| Framing.AllocationFollowsData | packages/protocol/src/framing.ts:107-114 | allocated bytes never exceed the announced length, and are always less than the received bytes plus one block |
| Framing.DecodeStream | packages/protocol/src/framing.ts:73-153 | a real decoder fed chunk by chunk and ended gives exactly what the reference reading gives, error cases included |
| MessageCodec.MessagesRoundTrip | packages/protocol/src/codec.ts:60-115 | encoding messages and decoding them again gives the same messages in order, however the stream is cut, whenever reading undoes writing for each of them and they fit the limit |
| MessageCodec.DecodesExactly | packages/protocol/src/codec.ts:88-126 | a stream decodes to some messages if and only if it is, to its last byte, the frames of payloads within the limit that are read as these messages one by one |
| MessageCodec.ValidatedMessageDecoder.Push | packages/protocol/src/codec.ts:102-115 | the messages completed by a chunk, or an error that is final: an oversized frame, or a payload that is no message |
| MessageCodec.ValidatedMessageDecoder.End | packages/protocol/src/codec.ts:117-125 | succeeds exactly between frames, on a decoder that has neither failed nor ended; any other end, also a second one, fails it for good |
| MessageCodec.DecodeMessages | packages/protocol/src/codec.ts:88-126 | a real decoder fed chunk by chunk succeeds exactly when the specification does, with the same messages |
| AgentTypes.CallsExactly | packages/agent/src/agent-loop.ts:203 | the tool calls of a response are those of all its call parts, in their order |
| AgentTypes.TranscriptIsEnded | packages/agent/src/agent.ts:544-577 | for every trace whatever, the reduced transcript is the starting one followed by the messages of all message_end events |
| AgentTypes.StateFollowsGrammar | packages/agent/src/agent.ts:544-582 | on every trace of the grammar the reduced state follows it: a message streams exactly inside a message, and only open tool calls are pending |
| AgentTypes.StateShowsLatest | packages/agent/src/agent.ts:544-582 | for every trace whatever, the reduced state shows what was told last: the message that was started or updated and not ended, the calls started and not ended, and the error of the last turn that had one |
| AgentToolProofs.TruncatedAnswers | packages/agent/src/agent-loop.ts:381-406 | a response cut off by its length yields one error result for each call, in order, and executes none |
| AgentToolProofs.SequentialAnswers | packages/agent/src/agent-loop.ts:433-487 | the outcomes answer the calls in order, each its own; all of them unless the signal is aborted, and never none |
| AgentToolProofs.StartedAnswers | packages/agent/src/agent-loop.ts:499-538 | a parallel batch starts calls in order, all of them unless the signal is aborted |
| AgentToolProofs.BatchRuns | packages/agent/src/agent-loop.ts:499-538 | the tools of a parallel batch that run are exactly the allowed ones among the calls prepared before an abort; an abort lets no later call start, and every other call started is settled as an error |
| AgentToolProofs.SlotsHoldOutcomes | packages/agent/src/agent-loop.ts:519-542 | whatever the order in which running tools take their steps, when all have ended each slot holds the outcome of its own call, in source order |
| AgentToolProofs.ParallelRefinesSequential | packages/agent/src/agent-loop.ts:433-554 | with nothing aborted and the same tools and hooks, a parallel batch has for every completion order the same outcomes in source order as the sequential one, hence the same results and the same decision to terminate |
| AgentToolProofs.EndsPrecedeResults | packages/agent/src/agent-loop.ts:489-548 | for every schedule, the tool_execution_end events of a parallel batch are a permutation of its outcomes and all come before the first result message |
| AgentToolProofs.ConcurrentEnds | packages/agent/src/agent-loop.ts:540-542 | the concurrent phase emits exactly the ends still due, each as often, whatever the schedule |
| AgentOutcomes.BatchOutcomes | packages/agent/src/agent-loop.ts:600-745 | in every batch, sequential or parallel and under every schedule, field by field: a call that was kept from running is an error with exactly the text of what kept it; a tool that threw, without a hook, is an error with exactly its text, and one that returned is no error and keeps all its fields; an afterToolCall hook replaces exactly the fields it gives, and one that throws makes an error with its own text; the result message says the same |
| AgentOutcomes.BatchReaches | packages/agent/src/agent-loop.ts:433-538 | a batch reaches its calls in order up to and with the first at which the signal is aborted, and the signal it leaves is aborted exactly if it was or came to be |
| AgentOutcomes.BatchTells | packages/agent/src/agent-loop.ts:433-554 | the tool events of a call are its start with its arguments, the updates of its tool in order if it ran, and its end with its outcome, and nothing else |
| AgentOutcomes.BatchOrder | packages/agent/src/agent-loop.ts:408-426 | calls run one after the other if the configuration or the tool of any of them says so; else all have started before any tool tells anything or a result is given |
| AgentOutcomes.TruncatedTells | packages/agent/src/agent-loop.ts:381-406 | each call of a response that was cut off comes to exactly the error that says so, starts and ends and emits nothing else, one call after the other |
| AgentOutcomes.AnyoneMayGoNext | packages/agent/src/agent-loop.ts:519-542 | whichever tool is running may take the next step: the schedules leave no interleaving out |
| AgentToolGrammar.TruncatedAccepted | packages/agent/src/agent-loop.ts:381-406 | the failed batch of a cut-off response keeps to the grammar of tool batches |
| AgentToolGrammar.SequentialAccepted | packages/agent/src/agent-loop.ts:433-487 | a sequential batch keeps to the grammar: each start has one later end, updates between, and one matching result message |
| AgentToolGrammar.ParallelAccepted | packages/agent/src/agent-loop.ts:489-554 | a parallel batch keeps to the grammar under every schedule and every abort |
| AgentRunProofs.StreamIsOneMessage | packages/agent/src/agent-loop.ts:314-372 | a stream is one message of the trace and adds one message to the context if and only if it starts at most once |
| AgentRunProofs.StreamShows | packages/agent/src/agent-loop.ts:314-372 | what a stream emits before its response: a start for its first partial message and an update for each later one, in order, and none for what comes before the start |
| AgentRunProofs.TurnAccepted | packages/agent/src/agent-loop.ts:173-224 | a turn (injected messages, one response, its batch, turn_end) is one turn of the grammar if its stream starts at most once, and else breaks it |
| AgentRunProofs.OneResponse | packages/agent/src/agent-loop.ts:173-224 | such a turn starts and ends the injected messages, one response and tool results, and nothing else: the response is its only assistant message that was not injected |
| AgentRunProofs.RunAccepted | packages/agent/src/agent-loop.ts:155-275 | the events of a run are in the grammar, with one balanced turn each and one final agent_end that reports exactly the messages ended, if and only if every stream starts at most once |
| AgentRunProofs.WholeRunAccepted | packages/agent/src/agent-loop.ts:95-275 | every run for every script of its environment does this, and only its last turn may have failed |
| AgentTranscript.StateAfterRun | packages/agent/src/agent.ts:544-582 | after a run the agent's messages are the earlier ones, the prompts and the run's messages; nothing streams and no call is pending |
| AgentTranscript.RunInContext | packages/agent/src/agent-loop.ts:155-275 | when no context is replaced, every request holds exactly the starting context and the messages of the run so far, and the loop's context ends as all of them |
| AgentTranscript.RunTakesTurns | packages/agent/src/agent-loop.ts:232-245 | each turn takes one turn of the environment, and its request uses the model and the thinking level that were chosen last before it |
| AgentTranscript.BatchIsPaired | packages/agent/src/agent-loop.ts:381-426 | the results of a response answer a prefix of its calls by position; all of them unless aborted, and all as errors after a length stop |
| AgentTranscript.RunIsPaired | packages/agent/src/agent-loop.ts:192-222 | every turn of every run is paired in this way, a failed turn has no results, and an abort lasts until the end of the run |
| AgentTranscript.RequestsAreAnswered | packages/agent/src/agent-loop.ts:192-222 | in every request of an unaborted run that replaces no context, each earlier response is followed at once by exactly one result per call, in source order, with matching ids and names |
| AgentPacing.LastTurnExactly | packages/agent/src/agent-loop.ts:171-275 | a turn of a run is the last one if and only if its response failed, or the environment stops the run, or it called no tools or was not cut off and all its outcomes, at least one, ask to terminate, while the steering drain after the user's acts and then the follow-up drain find nothing; and every other turn is followed by one that injects what those drains found |
| AgentPacing.WholeRunPaced | packages/agent/src/agent-loop.ts:155-275 | the same for whole runs, whose first turn injects what the initial poll finds, unless continue() has drained it |
| AgentPacing.BatchesFollow | packages/agent/src/agent-loop.ts:175-224 | each turn has the response of its script, and its batch is that of this response with the signal as batches and the user have left it; a failed turn has none |
| AgentPacing.TurnOutcomes | packages/agent/src/agent-loop.ts:175-224 | over whole runs: each outcome of each turn is that of its own call, as for one batch, and its result message says the same |
| AgentPacing.DrainsByMode | packages/agent/src/agent.ts:141-154 | a drain takes everything in the one mode and the first message in the other, and leaves the rest |
| AgentPacing.ActsShow | packages/agent/src/agent.ts:125-159 | what users queue is appended to its own queue in order, and each queue is in the mode that was set last |
| AgentLifetime.WholeRunConserves | packages/agent/src/agent-loop.ts:167-268 | over one run, a queue's messages and everything enqueued meanwhile are what the turns injected from it and what it still holds, in order |
| AgentLifetime.QueuesAreConserved | packages/agent/src/agent.ts:361-388 | over whole lifetimes of prompts, continuations and queueing, for both queues: what was queued equals what was delivered into the transcript followed by what is still queued, in order; messages drained by continue() and the skipped poll included |
| AgentPacing.RunLeaves | packages/agent/src/agent.ts:486-542 | a run leaves its messages behind the earlier ones, the error of the last of its turns that had one and none of earlier runs, and nothing that streams or is pending |
| AgentPacing.RunsStartFresh | packages/agent/src/agent.ts:486-508 | a run starts with the agent's configuration, the whole transcript and a signal of its own |
| AgentPacing.LifeGoesOn | packages/agent/src/agent.ts:348-388 | a lifetime is its calls one after the other, wherever it is cut in two |
| AgentPacing.ContinuesExactly | packages/agent/src/agent.ts:361-388 | continuing does nothing to an empty transcript; after a response it runs with the steering messages it drains and skips the initial poll, or else with the follow-ups it drains, or does nothing; after any other message it runs without prompts |
| AgentPacing.PromptsExactly | packages/agent/src/agent.ts:348-358 | a prompt is one more run with exactly its messages, and steering is polled first |
| AgentLifetime.TranscriptsAgree | packages/agent/src/agent.ts:409-443 | over whole lifetimes, the agent's messages are the initial ones and what the runs told, and every request held exactly the transcript so far |
| Agents.PendingMessageQueue.Drain | packages/agent/src/agent.ts:141-154 | takes the whole queue or its first message, by mode; what is taken and what is left are the queue as it was |
| Agents.Transcript.Emit | packages/agent/src/agent.ts:544-582 | reduces one event into the state; the state stays the reduction of the whole trace |
| Agents.StreamAssistantResponse | packages/agent/src/agent-loop.ts:281-372 | the request holds the context as it was; events and context are those of the stream's specification |
| Agents.FailToolCallsFromTruncatedMessage | packages/agent/src/agent-loop.ts:381-406 | emits and returns what the specification of a cut-off batch says, and does not terminate |
| Agents.ExecuteToolCallsSequential | packages/agent/src/agent-loop.ts:433-487 | emits, returns and decides what the specification of a sequential batch says, and leaves the signal as it says |
| Agents.StartToolCalls | packages/agent/src/agent-loop.ts:499-538 | the preparation loop gives the entries, events and signal of its specification |
| Agents.AwaitAll | packages/agent/src/agent-loop.ts:540-542 | runs all started tools to their end under any schedule; the step that ends a tool computes its outcome and writes it into its slot, and the slots end as the outcomes in source order |
| Agents.ExecuteToolCallsParallel | packages/agent/src/agent-loop.ts:489-554 | emits, returns and decides what the specification of a parallel batch says |
| Agents.RunTurn | packages/agent/src/agent-loop.ts:175-224 | one turn of the inner loop is the specified turn: events, context, signal, results, request; and it goes on for its results exactly if it called tools and was cut off or not all outcomes ask to terminate |
| Agents.RunLoop | packages/agent/src/agent-loop.ts:155-275 | the nested loops do exactly the specified run: its events, its new messages, its requests, its queues and its signal |
| Agents.RunAgentLoop | packages/agent/src/agent-loop.ts:95-118 | a run with prompts emits the run's whole trace and returns exactly its new messages |
| Agents.RunAgentLoopContinue | packages/agent/src/agent-loop.ts:120-143 | refuses an empty context and one that ends with a response before it emits anything; else emits and returns what a run without prompts does |
| Agents.HandleRunFailure | packages/agent/src/agent.ts:509-526 | a failed run ends with the events of one failure message, which joins the transcript |
| Agents.FailureIsRecorded | packages/agent/src/agent.ts:509-534 | wherever a run breaks off, the agent keeps what had ended by then, followed by the failure, and nothing of the run is left over |
| Agents.Agent.RunMessages | packages/agent/src/agent.ts:409-435 | a run inside its lifecycle leaves the agent as the specified lifetime step does |
| Agents.Agent.RunContinuation | packages/agent/src/agent.ts:425-435 | a continuation inside its lifecycle leaves the agent as the specified lifetime step does |
| Agents.Agent.RunThatThrows | packages/agent/src/agent.ts:486-534 | a run that throws after any events leaves what had ended by then, followed by the failure, and an idle agent |
| Agents.Agent.Prompt | packages/agent/src/agent.ts:348-358 | refuses while a run is active, and else is the specified lifetime step |
| Agents.Agent.Continue | packages/agent/src/agent.ts:361-388 | drains steering, then follow-ups, or continues, exactly as specified; where it throws it changes nothing |
| SessionProofs.OneRuntimePerSession | packages/server/src/sessions.ts:186-246 | until close has cleared the map, over all interleavings, a session has at most one outstanding runtime, from the service call until its dispose has settled |
| SessionProofs.OneOutstandingExactly | packages/server/src/sessions.ts:186-207 | in every state, also after close, a step keeps one outstanding runtime a session if and only if it is no acquisition that finds its session in neither map while a runtime of it is outstanding |
| SessionProofs.OneOutstandingRuns | packages/server/src/sessions.ts:186-246 | over whole runs, sessions have at most one outstanding runtime all the time if and only if no step is such an acquisition |
| SessionProofs.NoDisposalUnderOperation | packages/server/src/sessions.ts:309-345 | until close has cleared the map, a runtime on which an admitted operation runs is in use: it is not being and has not been disposed |
| SessionProofs.OperationsInUseExactly | packages/server/src/sessions.ts:152-184 | in every state, a step keeps every operation on a runtime in use if and only if it is not the last step of close over a running operation |
| SessionProofs.OperationsInUseRuns | packages/server/src/sessions.ts:152-184 | over whole runs, operations are on runtimes in use all the time if and only if no close comes over a running operation |
| SessionProofs.DisposalWaitsForOperations | packages/server/src/sessions.ts:171-184 | in every run, no step but the last one of close starts a disposal on a runtime while an operation runs on it |
| SessionProofs.DisposedOnce | packages/server/src/sessions.ts:152-169 | in every run, dispose is called once on a runtime if it is being or has been disposed, and else never |
| SessionProofs.CloseDisposesAll | packages/server/src/sessions.ts:152-169 | when close has waited for the openings it disposes every runtime in use, and leaves all others as they are |
| SessionProofs.NoneInUseAfterClose | packages/server/src/sessions.ts:209-246 | after close no runtime is in use or becomes so, whatever service calls and snapshots still return |
| SessionProofs.OpeningsCanSettle | packages/server/src/sessions.ts:209-246 | nothing gets stuck: from every state that is reached, answers of the service, of snapshots and of disposals alone let all openings settle |
| SessionProofs.CloseCanFinish | packages/server/src/sessions.ts:152-169 | once begun, close can always finish, and then no runtime is in use |
| SessionProofs.OperatesExactly | packages/server/src/sessions.ts:309-318 | a step adds an operation of a connection on a runtime if and only if that connection asks for it while it is attached to the runtime's session and the session is live, has not failed and is not being disposed |
| SessionProofs.OperatorsWereAttached | packages/server/src/sessions.ts:309-318 | over whole runs: whoever operates was attached to that session, and the session was live, when its operation began |
| SessionProofs.AttachedExactly | packages/server/src/sessions.ts:300-307 | in every state, a step keeps whoever is attached on runtimes in use if and only if it neither attaches a usable connection to a session whose disposal has begun, nor closes a session that has connections |
| SessionProofs.AttachedRuns | packages/server/src/sessions.ts:186-346 | over whole runs, whoever is attached is on a runtime in use all the time if and only if no step does so |
| SessionProofs.SidesAgreeInRuns | packages/server/src/sessions.ts:75-132 | in such runs a connection has a session on record if and only if that session is live, in use, and counts the connection |
| SessionProofs.AttachedToDisposed | packages/server/src/sessions.ts:300-307 | a run that shows that attach does not look at a later disposal: a connection ends attached to a runtime that is gone |
| SessionProofs.TwoRuntimesAfterClose | packages/server/src/sessions.ts:152-169 | a run that shows that one runtime per session ends with close |
| SessionProofs.NextKeeps | packages/server/src/sessions.ts:38-346 | every step keeps the invariant that places each runtime in the maps by its stage and counts its operations |
| SessionManager.LiveSessionManager.AcquireOnce | packages/server/src/sessions.ts:186-207 | one pass of the acquire loop: it fails on a session that has ended, waits for a disposal or an opening, or goes on to attach; it opens a session exactly when it is in neither map, and until close never one that has an outstanding runtime |
| SessionManager.LiveSessionManager.AttachConnection | packages/server/src/sessions.ts:300-307 | attaches a usable connection on both sides, and changes nothing for another |
| SessionManager.LiveSessionManager.BeginOperation | packages/server/src/sessions.ts:309-318 | admits an operation if and only if the connection is attached and the session live, not ended and not being disposed; it is counted on that session's runtime, which until close is in use |
| SessionManager.LiveSessionManager.DetachSession | packages/server/src/sessions.ts:75-89 | exactly the session loses exactly the connection, on both sides |
| SessionManager.LiveSessionManager.DisconnectAll | packages/server/src/sessions.ts:122-132 | exactly the connection leaves exactly the sessions it was attached to |
| SessionManager.LiveSessionManager.DisposeIfUnused | packages/server/src/sessions.ts:324-345 | disposes exactly when the server is not closing, nothing uses the session, and it is idle or ended |
| SessionManager.LiveSessionManager.CloseSessions | packages/server/src/sessions.ts:157-168 | the end of close disposes exactly what is still in use, once each, and empties the map |
| SessionManager.LiveSessionManager.ReceiveRuntime | packages/server/src/sessions.ts:209-216 | create, once the service has answered: given up, disposed if the server is closing, or on to its first snapshot |
| SessionManager.LiveSessionManager.ReceiveSnapshot | packages/server/src/sessions.ts:217-245 | create, once the snapshot is there: the session is live without connections, or its runtime is disposed |
| SessionManager.LiveSessionManager.EndOperation | packages/server/src/sessions.ts:175-184 | one operation less on the same runtime |
| SessionManager.LiveSessionManager.AfterDispose | packages/server/src/sessions.ts:334-345 | a disposed runtime leaves the map if it is still there |
| SessionManager.LiveSessionManager.AwaitOpenings | packages/server/src/sessions.ts:152-156 | close waits for exactly the openings of that moment |
| SessionManager.LiveSessionManager.ResumeAfterDisposal | packages/server/src/sessions.ts:186-196 | back to the head of the loop, or out with the error |
| SessionManager.LiveSessionManager.ResumeAfterOpening | packages/server/src/sessions.ts:197-206 | an opening that succeeded is attached to, one that failed is given up |
| SessionManager.LiveSessionManager.OneRuntimeEach | packages/server/src/sessions.ts:186-246 | in the manager's own fields: one outstanding runtime a session until close has cleared the map |
| SessionManager.LiveSessionManager.OperatingInUse | packages/server/src/sessions.ts:309-318 | in the manager's own fields: whoever operates, operates on a runtime in use until then |
| SessionManager.LiveSessionManager.AttachmentsAgree | packages/server/src/sessions.ts:75-132 | in the manager's own fields: both sides of an attachment agree as long as no step has strayed |
| SessionManager.LiveSessionManager.DisposedAtMostOnce | packages/server/src/sessions.ts:152-169 | in the manager's own fields: dispose is called once if at all |
| Leases.CountsAreHolders | packages/client/src/client.ts:381-400 | in orderly runs a session's count is the number of its unreleased tokens; an exclusive token is recorded exactly while it is unreleased, and then it is the only one |
| Leases.UninvalidatedIsOrderly | packages/client/src/client.ts:381-407 | runs without invalidations are orderly |
| Leases.KeptExactly | packages/client/src/client.ts:402-407 | counts and records stay right in a step if and only if the step is orderly: an invalidation finds nothing still attaching, and a late detach response finds its lease current or nobody holding the session |
| Leases.KeptInRuns | packages/client/src/client.ts:381-407 | over whole runs, counts and records are right all the time if and only if every step is orderly |
| Leases.OnlyTheLastDetaches | packages/client/src/client.ts:237-252 | only the last holder of a session asks the server to detach |
| Leases.ReservesExactly | packages/client/src/client.ts:383-393 | in orderly runs a reservation is refused, and changes nothing, if and only if a token holds the session, and for a shared one if and only if an exclusive token does; else there is one more token and one more holder |
| Leases.HoldsUntil | packages/client/src/client.ts:210-268 | in orderly runs a token holds its session until exactly these: its call fails, it is given up while others hold the session, the server has detached it, it is given up in spite of a failure, or it is invalidated; and never again |
| Leases.AsksToDetachExactly | packages/client/src/client.ts:231-252 | in orderly runs a current lease that is given up is released at once if others hold the session, and if none does the server is asked to detach and the lease is kept until the answer |
| Leases.ReleasedOnce | packages/client/src/client.ts:231-268 | in every run each token is released at most once, across detach, dispose, failure and retry: exactly when it ends as released |
| Leases.LateDetachMiscounts | packages/client/src/client.ts:240-244 | a run that shows that a detach response after an invalidation takes the count from another holder |
| LeaseClient.SessionLeases.Reserve | packages/client/src/client.ts:381-393 | refuses, in orderly runs, exactly what conflicts with a holder, and else adds and counts the token and records an exclusive one; nothing else changes |
| LeaseClient.SessionLeases.ReleaseLease | packages/client/src/client.ts:395-400 | one holder less of the token's session, if any, and no record of the token; every other count and record stays |
| LeaseClient.SessionLeases.BeginRelease | packages/client/src/client.ts:231-252 | invalidates a stale lease, asks for a detach for the last holder, and else releases at once; nothing else changes |
| LeaseClient.SessionLeases.DetachResponded | packages/client/src/client.ts:240-268 | releases after a success, and after a failure if so asked, which is noted for cleanup; else the lease is active again, or invalidated if it is stale |
| LeaseClient.SessionLeases.CreateLease | packages/client/src/client.ts:209-213 | the lease is granted in the present generation |
| LeaseClient.SessionLeases.AbandonReservation | packages/client/src/client.ts:170-176 | a call that fails gives its reservation back |
| LeaseClient.SessionLeases.InvalidateLeases | packages/client/src/client.ts:402-407 | drops counts and records and begins a new generation |
| LeaseClient.SessionLeases.CountsHold | packages/client/src/client.ts:381-400 | in the client's own fields: counts are the numbers of holders and exclusive records are theirs, as long as all steps were orderly |
| LeaseClient.SessionLeases.DetachesAlone | packages/client/src/client.ts:237-252 | in the client's own fields: when a release would ask for a detach, no one else holds the session |
| LeaseClient.SessionLeases.ReleasedAtMostOnce | packages/client/src/client.ts:231-268 | in the client's own fields: no token is released twice |
| ModelRefresh.OneInStorage | packages/ai/src/models.ts:344-361 | at most one publication of a provider is in its storage step |
| ModelRefresh.GenerationsNeverDecrease | packages/ai/src/models.ts:338-365 | the generations of completed store mutations and applied updates, in the order in which they happen, never decrease, so a superseded refresh overwrites nothing newer |
| ModelRefresh.OneRefreshRuns | packages/ai/src/models.ts:320-336 | at most one running refresh of a provider is not superseded, and it is the one of the present generation |
| ModelRefresh.FreshExactly | packages/ai/src/models.ts:347-356 | a publication stays current in a step if and only if the step begins no refresh, replaces no provider and does not cancel its own caller; what is stale stays stale |
| ModelRefresh.AppliedExactly | packages/ai/src/models.ts:344-358 | a publication whose storage step began and succeeded is applied to memory if and only if nothing of the kind came between its turn and its conclusion; the store holds what it persisted either way |
| ModelRefresh.AppliedAtOnce | packages/ai/src/models.ts:344-358 | a publication that stores nothing is applied to memory in its turn if and only if its refresh is still current, and settles either way |
| ModelRefresh.TurnExactly | packages/ai/src/models.ts:344-358 | what a publication does in its turn: nothing if it is stale, its storage step if it has one, and else its update |
| ModelRefresh.PublicationsCanSettle | packages/ai/src/models.ts:344-365 | the chain never gets stuck: from every state that is reached all publications can settle one after the other |
| ModelRefresh.StoredButNotApplied | packages/ai/src/models.ts:350-357 | a run that shows that a refresh superseded in its storage step still completes it and then leaves memory alone |
| ModelRefresh.EffectsStay | packages/ai/src/models.ts:344-358 | effects are never undone or reordered |
| ModelRefresher.ArrivesExactly | packages/ai/src/models.ts:344-358 | in terms of the store and the memory: the store holds what was persisted, and memory gets the update if and only if nothing displaced the refresh in between |
| ModelRefresher.ProviderModels.SupersedeRefresh | packages/ai/src/models.ts:320-329 | a new generation aborts exactly the registered controller |
| ModelRefresher.ProviderModels.ReplaceProvider | packages/ai/src/models.ts:269-278 | registers or deletes a provider; nothing that was published for the one before is current any more |
| ModelRefresher.ProviderModels.BeginRefresh | packages/ai/src/models.ts:331-336 | a refresh runs in a new generation under its own controller, and exactly the one before is aborted |
| ModelRefresher.ProviderModels.StartPublication | packages/ai/src/models.ts:346-354 | a publication with its turn is dropped if its refresh is aborted or of an earlier generation; else it goes to storage, or if it stores nothing memory gets its update at once; memory is as it was in all other cases |
| ModelRefresher.ProviderModels.StoreAnswered | packages/ai/src/models.ts:350-354 | a completed mutation is what the store then holds; memory waits |
| ModelRefresher.ProviderModels.ConcludePublication | packages/ai/src/models.ts:356-358 | memory is updated only if the refresh is still current, and the result says so |
| ModelRefresher.ProviderModels.QueuePublication | packages/ai/src/models.ts:338-346 | a publication queues up behind all others |
| ModelRefresher.ProviderModels.EndRefresh | packages/ai/src/models.ts:430-435 | the controller of a refresh that ends is forgotten if it is still the registered one |
| ModelRefresher.ProviderModels.OneAtTheStore | packages/ai/src/models.ts:344-361 | in the fields: one publication at most is in its storage step |
| ModelRefresher.ProviderModels.Arrived | packages/ai/src/models.ts:344-358 | in the fields: after a concluded publication the store holds what it persisted, and memory its update unless its refresh was displaced |
| Handshake.NeverOutOfOrder | packages/client/src/connection.ts:162-204 | over reliable channels, with either side closing at any time, neither side ever sees a message out of order |
| Handshake.HelloFirst | packages/server/src/server.ts:185-250 | the server's hello is its first message and its only one, and no request is kept or run before it has arrived |
| HandshakeProgress.EveryoneCanBeAnswered | packages/server/src/server.ts:185-269 | nothing gets stuck: from every state that is reached, as long as neither side has closed there is a way on after which the client is connected, every request it ever sent has been answered, and it waits for nothing |
| HandshakeProgress.OpenUntil | packages/server/src/server.ts:185-328 | a connection is closed only by the decision of either side |
| HandshakeProgress.NothingAfterClose | packages/server/src/server.ts:271-328 | a server that has closed sends nothing any more, stays closed and starts nothing; a client that has disconnected has no open requests and sends nothing |
| HandshakeProgress.PhasesExactly | packages/server/src/server.ts:221-250 | the hello is sent when its snapshot is there, the connection is ready when it has been sent, and the newest snapshot follows, unless the server closes |
| HandshakeProgress.TakenExactly | packages/server/src/server.ts:185-219 | for any message in any state: a hello is taken exactly as the first message and requests exactly after it; any other message is answered by an error and closes; requests run at once if the connection is ready and wait while the handshake goes on |
| HandshakeProgress.HandleExactly | packages/client/src/connection.ts:162-204 | for any message in any state: the client is connected afterwards exactly if it could expect it, and then exactly the request answered is closed; every other message ends the connection with all open requests |
| Handshake.ResponsesMatch | packages/client/src/client.ts:294-319 | every response answers one request, once, with its id and its command, and a connected client finds it among its open requests |
| Handshake.CompletesExactly | packages/server/src/server.ts:252-269 | a request that completes is answered with its own number, and with its command if it succeeded and an error if not; a connection that is gone gets nothing |
| Handshake.OvertakenExactly | packages/server/src/server.ts:209-218 | a request is started while an older one waits if and only if it arrives after the hello has been sent and the connection is ready, and before the waiting ones have run |
| Handshake.RequestsInOrder | packages/server/src/server.ts:209-240 | over whole runs, requests are handled in the order in which they were sent and none waits behind a younger one, if and only if none arrives in that window while others wait |
| Handshake.BegunIsRunning | packages/server/src/server.ts:209-218 | the requests that a step starts are exactly those that join the running ones |
| Handshake.SecondRequestFirst | packages/server/src/server.ts:209-240 | a run in which the second request is handled before the first |
| Handshake.NextKeeps | packages/server/src/server.ts:185-269 | every step of either side keeps the invariant of logs, stages, and open requests |
| Snapshots.InformedOrOnItsWay | packages/server/src/snapshots.ts:50-61 | at every moment a ready connection has been sent the highest revision ever assigned, or it is on its way in the follow-up of its handshake or in the broadcast in progress |
| Snapshots.EveryoneIsInformed | packages/server/src/snapshots.ts:50-61 | a ready connection to which nothing is on its way has been sent the highest revision ever assigned, however handshake and broadcasts overlapped; once all has arrived its client stores exactly that revision |
| Snapshots.EveryoneStoresNewest | packages/server/src/snapshots.ts:50-61 | from wherever a run has come to, a ready connection's client stores the highest revision ever assigned as soon as what is on its way has been sent and has arrived, and nothing else need happen |
| Snapshots.RevisionsGrow | packages/client/src/state.ts:100-104 | no step takes a revision back, and the client's stored revision never decreases |
| Snapshots.ConnectionKeeps | packages/server/src/server.ts:230-249 | a handshake that ends with an outdated snapshot owes the connection a newer one |
| SnapshotServer.ServerSnapshotPublisher.PerformBroadcast | packages/server/src/snapshots.ts:50-55 | a new revision is assigned exactly if someone is ready and the server is not closing, and goes to exactly those who are |
| SnapshotServer.ServerSnapshotPublisher.ApplyServerSnapshot | packages/client/src/state.ts:100-104 | the client keeps the newer of two snapshots |
| SnapshotServer.ServerSnapshotPublisher.SendHello | packages/server/src/server.ts:230-237 | the hello carries the revision that was current when its snapshot was begun, unless the server is closing |
| SnapshotServer.ServerSnapshotPublisher.FinishHandshake | packages/server/src/server.ts:238-248 | the connection is ready, and owed the newest revision exactly if the one it was sent is outdated |
| SnapshotServer.ServerSnapshotPublisher.SendOne | packages/server/src/snapshots.ts:60 | the revision goes to the next recipient that is not gone |
| SnapshotServer.ServerSnapshotPublisher.Informs | packages/server/src/snapshots.ts:50-61 | in the publisher's own fields: a ready connection to which nothing is on its way has been sent the newest revision, and its client stores it once all has arrived |
| ObjectGraph.ConvertExactly | packages/server/src/protocol.ts:142-163 | on every finite graph the walk ends, and it succeeds exactly when what is reachable is acyclic, with allowed leaves and plain containers only; shared objects are fine |
| ObjectGraph.NodeSound | packages/server/src/protocol.ts:148-161 | an object is fine below a path exactly if it is new and plain and what it holds is fine below the longer path |
| JsonCopies.CopyIsUnfolding | packages/server/src/protocol.ts:154-159 | a copy is the tree unfolding of the graph if and only if no reachable object has a property called __proto__, which the copy would lose |
| JsonCopies.UnfoldingIsCopy | packages/server/src/protocol.ts:142-163 | for such graphs copying gives a tree if and only if the tree is the unfolding and has standard objects only |
| JsonCopies.AcceptedExactly | packages/protocol/src/codec.ts:25-39 | a tree in the heap is accepted as a protocol value exactly if all its objects have the standard prototype |
| JsonCopies.ProtocolExactly | packages/protocol/src/codec.ts:25-39 | any value is a protocol value if and only if what is reachable from it, leaving out undefined properties, is acyclic and holds allowed leaves, arrays and standard objects only |
| JsonCopies.CopiedExactly | packages/server/src/protocol.ts:142-163 | a tree in the heap can be copied strictly exactly if none of its objects has a foreign prototype |
| SanitizedDetails.SanitizedIsAccepted | packages/server/src/protocol.ts:166-186 | whatever is sanitized, cycles and functions included: the result is accepted as a protocol value, and copied strictly to itself, if and only if no object the sanitizer meets has a property __proto__ that holds null, or an array or record that is not on the path; it can be copied at all if and only if none holds such an array or record |
| SanitizedDetails.CleanIsAccepted | packages/server/src/protocol.ts:166-186 | so it is accepted whenever no reachable object has a property called __proto__ |
| SanitizedDetails.SanitizedShows | packages/server/src/protocol.ts:166-186 | the sanitizer makes nothing of undefined, functions and symbols, and of everything else a tree that agrees with it: each leaf, numbers that are not finite and big integers as printed, dates in ISO form, arrays item by item with null for nothing, records property by property without nothing, and what is on the path as a mark |
| SanitizedDetails.CopiedIsSanitized | packages/server/src/protocol.ts:142-186 | what can be copied strictly is sanitized to the same tree |
| SanitizedDetails.ProtoIsRejected | packages/server/src/protocol.ts:178-181 | inputs for which it is not: with null the result is no protocol value but can be copied, with an array it can not be copied either |
| SanitizedDetails.BuiltHolds | packages/server/src/protocol.ts:176-182 | the new objects hold the tree and the old ones are as they were |
| JsonCopier.Copier.ToProtocolJsonValue | packages/server/src/protocol.ts:142-163 | the walk with one set for the current path gives the specified result or error and leaves the set as it was, on every way out |
| Layout.LaidOutIsClipped | packages/tui/src/layout.ts:90-241 | in every laid-out tree, nested scroll views included, each clip is point by point what the box's rectangle and its parent's clip share |
| Layout.PruningIsExact | packages/tui/src/layout.ts:400-410 | the walk pruned by clips finds what a scan of all boxes finds in which the point lies in the box and in all boxes around it |
| Layout.SearchIsExhaustive | packages/tui/src/layout.ts:400-410 | the search returns exactly those scroll views, deepest first, and in the scan's order at equal depth |
| ScrollSearch.SearchExactly | packages/tui/src/layout.ts:400-410 | in every laid-out frame the search gives exactly the scroll views that contain the point and whose surrounding boxes all do, each once, as paths from the root: the deepest first, and at equal depth in the order of the document |
| Layout.GetScrollViewsAt | packages/tui/src/layout.ts:400-410 | collects by the pruned walk and sorts |
| Layout.PointsExactly | packages/tui/src/layout.ts:384-386 | a rectangle holds as many columns and rows of points as it is wide and high, from its corner on |
| Layout.IntersectIsBoth | packages/tui/src/layout.ts:54-60 | an intersection holds exactly the points of both rectangles |
| DirectLayout.LayoutIsDirect | packages/tui/src/layout.ts:130-162 | laying out at the old scroll position, moving and clipping again gives the same boxes as laying out once at the new position |
| Arrangement.LayoutIsArranged | packages/tui/src/layout.ts:100-241 | in every laid-out tree rows follow one another downwards and columns to the right with their gaps, without overlapping; each row has its size and its box's width, each column its width, height and place by its alignment; content is as wide as asked and shifted up by what is scrolled; and what is given no height is as high as what it holds |
| LayoutBoxes.TranslateBox | packages/tui/src/layout.ts:90-93 | moving a tree of boxes in place is the specified move of the whole tree |
| LayoutBoxes.UpdateBoxClips | packages/tui/src/layout.ts:95-98 | clipping a tree of boxes in place is the specified clipping of the whole tree |
| StableSort.SortIsStable | packages/tui/src/fuzzy.ts:135 | the result is ascending, and elements with equal keys keep their order |
| StableSort.SortedOnce | packages/tui/src/fuzzy.ts:135 | there is only one such result |
| Fuzzy.GreedyIsComplete | packages/tui/src/fuzzy.ts:30-61 | the left-to-right scan spells the query exactly when it is a subsequence of the text |
| Fuzzy.ScanIsEarliest | packages/tui/src/fuzzy.ts:30-57 | the scan takes each character no later than any other spelling does |
| Fuzzy.MatchQuery | packages/tui/src/fuzzy.ts:16-68 | the loop gives the specified match and the score of the earliest spelling |
| Fuzzy.ScoredExactly | packages/tui/src/fuzzy.ts:16-68 | a query that is a subsequence is worth, in tenths, the sum of the places of its earliest spelling, less 100 for each word it starts, plus 20 for each character it skips, less 50 for each pair of places in one run, less 1000 if it is the whole text |
| Fuzzy.SwappedScoredExactly | packages/tui/src/fuzzy.ts:70-97 | a query that is none, but whose halves exchanged are, is worth what that spelling is plus 50; the empty query is worth nothing |
| Fuzzy.ScoresAddUp | packages/tui/src/fuzzy.ts:115-133 | wherever the words of a query are cut in two, a text matches all if it matches both parts, and the scores add up |
| Fuzzy.MatchesExactly | packages/tui/src/fuzzy.ts:70-92 | a text matches exactly when the query, or its swapped letter and digit halves, is a subsequence of it |
| Fuzzy.SwappedHalves | packages/tui/src/fuzzy.ts:75-81 | a query of letters and digits is swapped at its border |
| Fuzzy.SwappedOnlyHalves | packages/tui/src/fuzzy.ts:75-81 | no other query is swapped |
| Fuzzy.TokensAreWords | packages/tui/src/fuzzy.ts:104-107 | the words are not empty, hold no space or slash, and are all the rest of the query in order |
| Fuzzy.CharactersExactly | packages/tui/src/fuzzy.ts:33-106 | spaces and slashes divide words, letters and digits are the plain ones, and a word starts at the front and after a space or one of five signs |
| Fuzzy.TokensAreMaximal | packages/tui/src/fuzzy.ts:104-107 | each word is a longest run without a space or a slash, and every other character is in a word |
| Fuzzy.KeptExactly | packages/tui/src/fuzzy.ts:115-133 | a text is kept exactly when every token, or its swapped form, is a subsequence of it |
| Fuzzy.FilterExactly | packages/tui/src/fuzzy.ts:113-136 | the kept items come by ascending total score, ties in their order |
| Fuzzy.FuzzyFilter | packages/tui/src/fuzzy.ts:99-137 | the loops and the sort give the specified list for any way of lowercasing, applied to each word and each text; a query without words keeps all items |

## Left out

- Agents.Agent.RunMessages: a run that throws is not one of its runs; `RunThatThrows` is the lifecycle around a run that broke off after any events, and such runs are no part of the lifetimes over which queues and transcripts are accounted for.
- `reset` and the clearing of queues: they take messages out of the conservation laws by design.
- What `transformContext` and `convertToLlm` make of a request: a request here holds the messages of the loop's context before them.
- Tool updates after a tool has returned, which the source drops: a script lists the updates before that.
- The caller's own array in `runAgentLoopContinue`, which the loop appends to: the context is a value that only the loop sees.
- Timestamps, usage accounting and the texts of messages: opaque values; the loop's own error texts are constructors.
- Wrong argument types, such as a chunk that is no `Uint8Array`: excluded by types.
- The check `maybeDispose` that the source makes in the same step as the change before it: here it is a step of its own, which only adds interleavings.
- The contents of session snapshots and events, and the `list` command: they change none of the modelled state.
- How an acquisition of a lease waits for attachments, detachments and cleanups of its session: a reserved token may be granted or given up at any time, which only adds runs.
- Credentials, the two phases of a refresh and what `createProvider` fetches: a refresh publishes what it likes, when it likes.
- The handshake timeout, failures of the service, oversized frames and listeners that reconnect at once: outside the composition of client and server.
- What commands do, beside being answered once: sessions are modelled apart from the connection.
- Getters, holes in arrays, proxies, symbol keys and invalid dates in object graphs: values are data.
- `allocateStackSizes`, rendering and scroll state: their results are part of the component that is laid out; `getScrollbarGeometry` and painting are not modelled.
- Parent links of boxes, and building a tree of boxes as objects: only moving and clipping work in place on objects, the rest is on values.
- What `toLowerCase` does: it is a function that is given; a match is stated on lowercased texts.
- Floating point in scores: they are counted in tenths.
- CBOR bodies, schema checks, sockets, timers, the command line, and the catalogues of models.
- Snapshots.EveryoneStoresNewest: says that what is on its way suffices, and not that sends complete in the end, which is up to the transport.
- ModelRefresher.ProviderModels.ReplaceProvider: what another provider's memory holds when it is registered is an input, and what reaches the memory of one that is no longer registered is not modelled.
- Repeated keys in one object: JavaScript has none; the models of object graphs do not exclude them, which only adds graphs.
