/**
 What either side of a connection does with any message at all, in order or not, and that
 nothing gets stuck: as long as neither side closes, every request can be answered.
 */
module HandshakeProgress {
  import opened Wrappers
  import opened Handshake

  // ---- any message ----

  /** The client may get this message now: the hello once it has sent its own, and then events and
      the responses to its open requests, with their commands or an error. */
  predicate Expected(c: Client, m: ServerMessage) {
    if c.life == Connected then
      || m == Event
      || (m.Response? && m.id in c.pending && (m.result == None || m.result == Some(c.pending[m.id])))
    else c.life == Connecting(true) && m == Hello
  }

  /** The client is connected after a message exactly if it could expect it, and then only the
      request that is answered is not open any more. Every other message ends the connection with
      all open requests, and is a violation of the protocol unless it refuses the hello. */
  lemma {:induction false} HandleExactly(c: Client, m: ServerMessage)
    ensures var after := Handle(c, m);
            if c.life == Disconnected then after == c
            else
              && after.sequence == c.sequence
              && after.life == (if Expected(c, m) then Connected else Disconnected)
              && (after.violated <==>
                    c.violated || (!Expected(c, m) && !(c.life.Connecting? && m == HelloError)))
              && (forall id :: id in after.pending ==> id in c.pending && after.pending[id] == c.pending[id])
              && (Expected(c, m) ==>
                    forall id | id in c.pending :: id in after.pending <==> !(m.Response? && m.id == id))
              && (!Expected(c, m) && (c.life == Connected || m != HelloError) ==> after.pending == map[])
  {
  }

  /** The server takes a hello exactly as the first message, and requests exactly after it; with any
      other message it sends an error and closes. Requests run at once if the connection is ready,
      and wait while the handshake goes on; once the server is done with the connection, nothing
      changes any more. */
  lemma {:induction false} TakenExactly(s: State)
    requires s.taken < |s.clientLog|
    ensures var m, v, after := s.clientLog[s.taken], s.server, Next(s, ServerReceives);
            var over := v.disconnected || v.stage == Closing || v.stage == Closed;
            var wrong := !over && (m == ClientHello <==> v.stage != AwaitingHello);
            && after.taken == s.taken + 1
            && after == s.(taken := after.taken, server := after.server, serverLog := after.serverLog)
            && (over ==> after.server == v)
            && after.serverLog == s.serverLog + (if wrong then [HelloError] else [])
            && (wrong ==> after.server == v.(violated := true, stage := Closing, closed := true))
            && (!over && !wrong && m == ClientHello ==> after.server == v.(stage := Handshaking, phase := Getting))
            && (!over && !wrong && m != ClientHello ==>
                  after.server == if v.stage == Ready then v.(running := v.running + {s.taken})
                                  else v.(waiting := v.waiting + {s.taken}))
  {
  }

  // ---- no request is lost ----

  /** The client has sent its hello, and neither side has closed so far. */
  predicate Open(s: State) {
    && (s.client.life == Connecting(true) || s.client.life == Connected)
    && (s.server.stage == AwaitingHello || s.server.stage == Handshaking || s.server.stage == Ready)
  }

  /** Until the server closes it is where its handshake is, and every request that it has taken
      waits, runs or has been answered. */
  predicate NoneLost(s: State) {
    && StagesMatch(s.server)
    && (s.server.stage in {AwaitingHello, Handshaking, Stage.Ready} ==>
          forall k | 0 < k < s.taken && k < |s.clientLog| :: HasPlace(s, k))
  }

  predicate StagesMatch(v: Server) {
    match v.stage
    case AwaitingHello => !v.disconnected && !v.closed
    case Handshaking => !v.disconnected && !v.closed && (v.phase == Getting || v.phase == Sending)
    case Ready => !v.disconnected && !v.closed && (v.phase == FollowingUp || v.phase == Over)
    case Closing => v.closed
    case Closed => v.disconnected
  }

  predicate HasPlace(s: State, k: nat)
    requires k < |s.clientLog|
  {
    s.clientLog[k].Request? ==>
      k in s.server.waiting || k in s.server.running || Answered(s.serverLog, |s.serverLog|, s.clientLog[k].id)
  }

  lemma {:induction false} StaysAnswered(log: seq<ServerMessage>, more: seq<ServerMessage>, id: nat)
    requires log <= more && Answered(log, |log|, id)
    ensures Answered(more, |more|, id)
  {
    var i :| 0 <= i < |log| && log[i].Response? && log[i].id == id;
    assert more[i] == log[i];
  }

  /** Whether a request waits or runs, it does so after a step, or is answered in it. */
  lemma {:induction false} KeepsPlace(s: State, step: Step, k: nat)
    requires NoneLost(s) && 0 < k < s.taken && k < |s.clientLog| && s.clientLog[k].Request? && HasPlace(s, k)
    requires Next(s, step).server.stage == Handshaking || Next(s, step).server.stage == Ready
    ensures k < |Next(s, step).clientLog| && Next(s, step).clientLog[k] == s.clientLog[k]
    ensures HasPlace(Next(s, step), k)
  {
    hide Handle, Answered;
    var after := Next(s, step);
    if Answered(s.serverLog, |s.serverLog|, s.clientLog[k].id) {
      LogGrows(s, step);
      StaysAnswered(s.serverLog, after.serverLog, s.clientLog[k].id);
    } else if step.RequestCompletes? && step.request == k && k in s.server.running {
      assert after.serverLog[|s.serverLog|].id == s.clientLog[k].id;
      LastAnswers(after.serverLog, s.clientLog[k].id);
    }
  }

  lemma {:induction false} FindsPlace(s: State)
    requires NoneLost(s) && s.taken < |s.clientLog| && s.clientLog[s.taken].Request?
    requires Next(s, ServerReceives).server.stage == Handshaking || Next(s, ServerReceives).server.stage == Ready
    ensures HasPlace(Next(s, ServerReceives), s.taken)
  {
    hide Answered;
  }

  lemma {:induction false} LogGrows(s: State, step: Step)
    ensures s.serverLog <= Next(s, step).serverLog
  {
    hide Handle, ServerStep;
  }

  lemma {:induction false} LastAnswers(log: seq<ServerMessage>, id: nat)
    requires log != [] && log[|log| - 1].Response? && log[|log| - 1].id == id
    ensures Answered(log, |log|, id)
  {
  }

  lemma {:induction false} TakenInOrder(s: State)
    requires Inv(s)
    ensures s.taken <= |s.clientLog| && forall k | 0 <= k < |s.clientLog| :: s.clientLog[k].ClientHello? <==> k == 0
  {
    hide Answers, Answered, Distinct, ClientInStep, ServerInOrder;
  }

  lemma {:induction false} NoneGetsLost(s: State, step: Step)
    requires Inv(s) && NoneLost(s)
    ensures NoneLost(Next(s, step))
  {
    var after := Next(s, step);
    TakenInOrder(s);
    ServerMoves(s, step);
    hide Next, Inv, HasPlace;
    if after.server.stage == Handshaking || after.server.stage == Ready {
      forall k | 0 < k < after.taken && k < |after.clientLog|
        ensures HasPlace(after, k)
      {
        PlaceAfter(s, step, k);
      }
    }
  }

  lemma {:induction false} PlaceAfter(s: State, step: Step, k: nat)
    requires NoneLost(s) && 0 < k < Next(s, step).taken && k < |Next(s, step).clientLog|
    requires s.taken <= |s.clientLog|
    requires Next(s, step).server.stage == Handshaking || Next(s, step).server.stage == Ready
    ensures HasPlace(Next(s, step), k)
  {
    hide Next;
    LogsGrow(s, step);
    if s.clientLog[k].Request? {
      if k == s.taken {
        FindsPlace(s);
      } else {
        StagesStay(s, step);
        KeepsPlace(s, step, k);
      }
    }
  }

  lemma {:induction false} LogsGrow(s: State, step: Step)
    requires s.taken <= |s.clientLog|
    ensures s.clientLog <= Next(s, step).clientLog && Next(s, step).taken <= |s.clientLog|
    ensures Next(s, step).taken > s.taken ==> step == ServerReceives && Next(s, step).taken == s.taken + 1
  {
    hide Handle, ServerStep;
  }

  /** A server that is open was open before or was waiting for the hello. */
  lemma {:induction false} StagesStay(s: State, step: Step)
    requires Next(s, step).server.stage == Handshaking || Next(s, step).server.stage == Ready
    ensures s.server.stage in {AwaitingHello, Handshaking, Ready}
  {
    hide Handle;
  }

  /** The stages of the server, whatever its requests. */
  lemma {:induction false} ServerMoves(s: State, step: Step)
    requires Inv(s) && NoneLost(s)
    ensures var v, after := Next(s, step).server, Next(s, step);
            && (v.stage == AwaitingHello ==> after.taken == 0)
            && after.taken <= |s.clientLog|
            && StagesMatch(v)
  {
    hide Answers, Answered, Distinct, ClientInStep, HasPlace, Handle;
  }

  lemma {:induction false} NoneIsLost(first: nat, steps: seq<Step>)
    ensures NoneLost(Reached(first, steps))
  {
    hide Next;
    if steps != [] {
      hide NoneLost;
      NoneIsLost(first, steps[..|steps| - 1]);
      ReachedKeeps(first, steps[..|steps| - 1]);
      NoneGetsLost(Reached(first, steps[..|steps| - 1]), steps[|steps| - 1]);
    }
  }

  lemma {:induction false} StaysConnected(s: State)
    requires Inv(s) && Open(s) && s.received < |s.serverLog|
    ensures Next(s, ClientReceives).client.life == Connected
  {
    hide Answers, Answered, Distinct;
    if s.client.life == Connected && s.serverLog[s.received].Response? {
      ResponseIsAwaited(s, s.serverLog[s.received]);
    }
  }

  // ---- closing ----

  /** A connection closes by the decision of either side only. */
  lemma {:induction false} OpenUntil(first: nat, steps: seq<Step>, step: Step)
    requires Open(Reached(first, steps))
    ensures Open(Next(Reached(first, steps), step))
            <==> step !in {ServerCloses, ServerDisconnects, ClientDisconnects}
  {
    hide Reached, Answers, Answered, Distinct, Awaits, HasPlace;
    var s := Reached(first, steps);
    ReachedKeeps(first, steps);
    NoneIsLost(first, steps);
    if step == ClientReceives && s.received < |s.serverLog| {
      StaysConnected(s);
    } else if step == SnapshotReady || step == ServerReceives {
      TakenInOrder(s);
      hide Handle;
    }
  }

  /** Once the server has closed or the connection is gone, it stays so and sends nothing any more;
      and a client that has disconnected has no open requests and sends nothing. */
  lemma {:induction false} NothingAfterClose(first: nat, steps: seq<Step>, step: Step)
    ensures var s, after := Reached(first, steps), Next(Reached(first, steps), step);
            && (s.server.stage in {Closing, Closed} ==>
                  && after.serverLog == s.serverLog && after.server.stage in {Closing, Closed}
                  && after.server.running <= s.server.running)
            && (s.client.life == Disconnected ==> s.client.pending == map[] && after.clientLog == s.clientLog)
            && (s.client.life == Disconnected && s.clientLog != [] ==> after.client.life == Disconnected)
  {
    hide Reached, Answers, Answered, Distinct, Awaits, HasPlace;
    var s := Reached(first, steps);
    ReachedKeeps(first, steps);
    NoneIsLost(first, steps);
  }

  /** How the handshake goes on: the hello is sent when its snapshot is there, the connection is
      ready when it has been sent, and the newest snapshot follows; unless the server closes. */
  lemma {:induction false} PhasesExactly(first: nat, steps: seq<Step>, step: Step)
    ensures var s, after := Reached(first, steps), Next(Reached(first, steps), step);
            var up := s.server.stage == Handshaking;
            && after.server.phase ==
               (match s.server.phase
                case NotBegun => if s.server.stage == AwaitingHello && after.server.stage == Handshaking
                                 then Getting else NotBegun
                case Getting => if step != SnapshotReady then Getting else if up then Sending else Over
                case Sending => if step != HelloSent then Sending else if up then FollowingUp else Over
                case FollowingUp => if step == HandshakeOver then Over else FollowingUp
                case Over => Over)
            && (s.server.phase == Getting && step == SnapshotReady && up ==> after.serverLog == [Hello])
            && (after.server.stage == Ready <==>
                  (s.server.stage == Ready && step !in {ServerCloses, ServerDisconnects})
                  || (s.server.phase == Sending && step == HelloSent && up))
  {
    hide Reached, Answers, Answered, Distinct, Awaits, HasPlace, Handle;
    var s := Reached(first, steps);
    ReachedKeeps(first, steps);
    NoneIsLost(first, steps);
    TakenInOrder(s);
  }

  // ---- every request can be answered ----

  lemma {:induction false} FirstOf(waiting: set<nat>) returns (k: nat)
    requires waiting != {}
    ensures IsFirst(waiting, k)
  {
    k :| k in waiting;
    if j: nat :| j in waiting && j < k {
      var above := k;
      assert j in waiting - {above};
      k := FirstOf(waiting - {above});
      assert forall i | i in waiting :: i in waiting - {above} || i == above;
    }
  }

  function Rank(phase: Phase): nat {
    match phase
    case NotBegun => 4
    case Getting => 3
    case Sending => 2
    case FollowingUp => 1
    case Over => 0
  }

  /** Nothing is on its way and no request waits or runs. */
  predicate AtRest(s: State) {
    && s.server.phase == Over && s.taken == |s.clientLog| && s.received == |s.serverLog|
    && s.server.waiting == {} && s.server.running == {}
  }

  /** An open connection has come nearer to rest: first the handshake, then what is to be taken,
      waits, runs and is to arrive. */
  ghost predicate Nearer(s: State, after: State)
    requires s.taken <= |s.clientLog| && s.received <= |s.serverLog|
  {
    && Open(after) && after.clientLog == s.clientLog
    && after.taken <= |s.clientLog| && after.received <= |after.serverLog|
    && (Rank(s.server.phase), |s.clientLog| - s.taken, |s.server.waiting|, |s.server.running|,
        |s.serverLog| - s.received
        decreases to
        Rank(after.server.phase), |s.clientLog| - after.taken, |after.server.waiting|, |after.server.running|,
        |after.serverLog| - after.received)
  }

  /** The handshake ends, a message is taken, a request that waits runs, one that runs is answered,
      or a message arrives. */
  lemma {:induction false} GoesOn(s: State) returns (step: Step)
    requires Inv(s) && NoneLost(s) && Open(s) && !AtRest(s)
    ensures s.taken <= |s.clientLog| && s.received <= |s.serverLog| && Nearer(s, Next(s, step))
  {
    hide Inv, HasPlace, Nearer, Next;
    TakenInOrder(s);
    ReceivedInOrder(s);
    if s.server.phase != Over {
      step := match s.server.phase
              case NotBegun => ServerReceives
              case Getting => SnapshotReady
              case Sending => HelloSent
              case _ => HandshakeOver;
      HandshakeGoesOn(s, step);
    } else if s.taken < |s.clientLog| {
      step := ServerReceives;
      TakingGoesOn(s);
    } else if s.server.waiting != {} {
      var k := FirstOf(s.server.waiting);
      step := RunWaiting(k);
      WaitingGoesOn(s, k);
    } else if s.server.running != {} {
      var k :| k in s.server.running;
      step := RequestCompletes(k, true);
      RunningIsTaken(s, k);
      RunningGoesOn(s, k);
    } else {
      step := ClientReceives;
      StaysConnected(s);
      ArrivingGoesOn(s);
    }
  }

  /** The hello of the client is in its log, and the server waits for it or has taken it. */
  lemma {:induction false} ReceivedInOrder(s: State)
    requires Inv(s) && NoneLost(s) && Open(s)
    ensures s.received <= |s.serverLog| && s.clientLog != []
    ensures s.server.phase == NotBegun <==> s.server.stage == AwaitingHello
    ensures s.server.phase == NotBegun <==> s.taken == 0
    ensures s.server.phase == Over ==> s.server.stage == Ready
  {
    hide Answers, Answered, Distinct, Awaits, HasPlace;
  }

  lemma {:induction false} RunningIsTaken(s: State, k: nat)
    requires Inv(s) && k in s.server.running
    ensures k < |s.clientLog| && s.clientLog[k].Request?
  {
    hide Answers, Answered, Distinct, ClientInStep;
  }

  lemma {:induction false} HandshakeGoesOn(s: State, step: Step)
    requires NoneLost(s) && Open(s) && s.taken <= |s.clientLog| && s.received <= |s.serverLog|
    requires match s.server.phase
             case NotBegun => step == ServerReceives && s.server.stage == AwaitingHello && s.taken < |s.clientLog|
                              && s.clientLog[s.taken] == ClientHello
             case Getting => step == SnapshotReady
             case Sending => step == HelloSent
             case FollowingUp => step == HandshakeOver
             case Over => false
    requires s.server.phase != NotBegun ==> s.server.stage != AwaitingHello
    ensures Nearer(s, Next(s, step))
  {
    hide HasPlace, Send, ClientStep, Handle, CompleteStep;
  }

  lemma {:induction false} TakingGoesOn(s: State)
    requires NoneLost(s) && Open(s) && s.taken < |s.clientLog| && s.received <= |s.serverLog|
    requires s.server.stage == Ready && s.clientLog[s.taken].Request?
    ensures Nearer(s, Next(s, ServerReceives))
  {
    hide HasPlace, Send, ClientStep, Handle, CompleteStep, SnapshotStep;
  }

  lemma {:induction false} WaitingGoesOn(s: State, k: nat)
    requires NoneLost(s) && Open(s) && s.taken <= |s.clientLog| && s.received <= |s.serverLog|
    requires s.server.phase == Over && IsFirst(s.server.waiting, k)
    ensures Nearer(s, Next(s, RunWaiting(k)))
  {
    hide HasPlace, Send, ClientStep, Handle, Dispatch, CompleteStep, SnapshotStep;
  }

  lemma {:induction false} RunningGoesOn(s: State, k: nat)
    requires NoneLost(s) && Open(s) && s.taken <= |s.clientLog| && s.received <= |s.serverLog|
    requires k in s.server.running && k < |s.clientLog| && s.clientLog[k].Request?
    ensures Nearer(s, Next(s, RequestCompletes(k, true)))
  {
    hide HasPlace, ClientStep, Handle, Dispatch, SnapshotStep;
  }

  lemma {:induction false} ArrivingGoesOn(s: State)
    requires Open(s) && s.taken <= |s.clientLog| && s.received < |s.serverLog|
    requires Next(s, ClientReceives).client.life == Connected
    ensures Nearer(s, Next(s, ClientReceives))
  {
    hide Handle;
  }

  /** At rest, all that was asked has been answered. */
  lemma {:induction false} RestAnswers(s: State)
    requires Inv(s) && NoneLost(s) && Open(s) && AtRest(s)
    ensures s.client.life == Connected && s.server.stage == Ready
    ensures s.client.pending == map[] && s.received == |s.serverLog|
    ensures forall k | 0 < k < |s.clientLog| && s.clientLog[k].Request? ::
              Answered(s.serverLog, s.received, s.clientLog[k].id)
  {
    hide Answers, Answered, Distinct;
    forall k | 0 < k < |s.clientLog| && s.clientLog[k].Request?
      ensures Answered(s.serverLog, s.received, s.clientLog[k].id)
    {
      assert HasPlace(s, k);
    }
    assert forall id :: id !in s.client.pending;
  }

  /** However a run has gone, as long as neither side has closed there is a way on after which the
      client is connected, every request ever sent has been answered, and it waits for nothing. */
  lemma {:induction false} EveryoneCanBeAnswered(first: nat, steps: seq<Step>) returns (more: seq<Step>)
    requires Open(Reached(first, steps))
    ensures var s, after := Reached(first, steps), Reached(first, steps + more);
            && after.client.life == Connected && after.server.stage == Ready
            && after.clientLog == s.clientLog && after.client.pending == map[]
            && after.received <= |after.serverLog|
            && forall k | 0 < k < |s.clientLog| && s.clientLog[k].Request? ::
                 Answered(after.serverLog, after.received, s.clientLog[k].id)
    decreases Rank(Reached(first, steps).server.phase),
              |Reached(first, steps).clientLog| - Reached(first, steps).taken,
              |Reached(first, steps).server.waiting|, |Reached(first, steps).server.running|,
              |Reached(first, steps).serverLog| - Reached(first, steps).received
  {
    hide Reached, Next, Inv, NoneLost, Open, AtRest, Answered, Rank;
    var s := Reached(first, steps);
    ReachedKeeps(first, steps);
    NoneIsLost(first, steps);
    if AtRest(s) {
      RestAnswers(s);
      more := [];
      assert steps + more == steps;
    } else {
      var step := GoesOn(s);
      StartedMore(first, steps, step);
      var later := EveryoneCanBeAnswered(first, steps + [step]);
      more := [step] + later;
      assert steps + more == steps + [step] + later;
    }
  }
}
