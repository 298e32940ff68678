/**
 One connection between packages/client (client.ts, connection.ts) and packages/server
 (server.ts) over two reliable FIFO channels: the handshake, requests and their responses,
 the order in which requests are handled, events, and either side closing at any time. A
 channel is the log of what was sent into it and how much of it has arrived. Out of reach are
 handshake timeouts, failures of the service, oversized frames, and listeners that reconnect
 at once.
 */
module Handshake {
  import opened Wrappers

  type Command = string

  datatype ClientMessage = ClientHello | Request(id: nat, command: Command)

  /** A response carries the command of its result, or an error. */
  datatype ServerMessage = Hello | HelloError | Response(id: nat, result: Option<Command>) | Event

  /** The client's connection; `transport` says whether its hello has been sent. */
  datatype Life = Disconnected | Connecting(transport: bool) | Connected

  datatype Stage = AwaitingHello | Handshaking | Ready | Closing | Closed

  /** How far finishHandshake is. */
  datatype Phase = NotBegun | Getting | Sending | FollowingUp | Over

  datatype Client = Client(life: Life, sequence: nat, pending: map<nat, Command>, violated: bool)

  /** Requests are known by their place in the client's log. `waiting` are those that the server
      keeps until the handshake is over, `running` those it executes. */
  datatype Server = Server(stage: Stage, phase: Phase, disconnected: bool, closed: bool,
                           waiting: set<nat>, running: set<nat>, violated: bool)

  datatype State = State(first: nat, client: Client, server: Server,
                         clientLog: seq<ClientMessage>, taken: nat, serverLog: seq<ServerMessage>, received: nat)

  /** Before the connection; the client may have used some request numbers before. */
  function Initial(first: nat): State {
    State(first, Client(Disconnected, first, map[], false),
          Server(AwaitingHello, NotBegun, false, false, {}, {}, false), [], 0, [], 0)
  }

  datatype Step =
    | Connect
    | OpenTransport
    | SendRequest(command: Command)
    | ClientReceives
    | ClientDisconnects
    | ServerReceives
    | SnapshotReady
    | HelloSent
    | HandshakeOver
    | RunWaiting(request: nat)
    | RequestCompletes(request: nat, ok: bool)
    | SendEvent
    | ServerCloses
    | ServerDisconnects

  /** sendMessage, which drops the message when the connection is gone. */
  function Send(s: State, m: ServerMessage): State {
    if s.server.disconnected || s.server.closed then s else s.(serverLog := s.serverLog + [m])
  }

  /** failProtocol: the error is the last message. */
  function FailProtocol(s: State): State {
    s.(server := s.server.(violated := true, stage := Closing, closed := true), serverLog := s.serverLog + [HelloError])
  }

  predicate Terminal(v: Server) { v.disconnected || v.stage == Closing || v.stage == Closed }

  /** dispatchMessage for message number `k`. */
  function Dispatch(s: State, k: nat, m: ClientMessage): State {
    var v := s.server;
    if v.stage == AwaitingHello then
      if m.ClientHello? then s.(server := v.(stage := Handshaking, phase := Getting)) else FailProtocol(s)
    else if m.ClientHello? then FailProtocol(s)
    else if v.stage == Ready then s.(server := v.(running := v.running + {k}))
    else if v.stage == Handshaking then s.(server := v.(waiting := v.waiting + {k}))
    else s
  }

  /** #failAndClose on the client for a message out of order. */
  function FailClient(c: Client): Client { c.(violated := true, life := Disconnected, pending := map[]) }

  /** #handleMessage of the connection, and of the client behind it. */
  function Handle(c: Client, m: ServerMessage): Client {
    match c.life
    case Disconnected => c
    case Connecting(transport) =>
      if m == HelloError then c.(life := Disconnected)
      else if m != Hello || !transport then FailClient(c)
      else c.(life := Connected)
    case Connected =>
      match m
      case Hello => FailClient(c)
      case HelloError => FailClient(c)
      case Event => c
      case Response(id, result) =>
        if id !in c.pending then FailClient(c)
        else if result.Some? && result.value != c.pending[id] then FailClient(c)
        else c.(pending := c.pending - {id})
  }

  /** What the client does of its own accord. */
  function ClientStep(s: State, step: Step): State {
    var c := s.client;
    match step
    case Connect =>
      if c.life == Disconnected && s.clientLog == [] then s.(client := c.(life := Connecting(false))) else s
    case OpenTransport =>
      if c.life == Connecting(false) then
        s.(client := c.(life := Connecting(true)), clientLog := s.clientLog + [ClientHello])
      else s
    case SendRequest(command) =>
      if c.life == Connected then
        var id := c.sequence + 1;
        s.(client := c.(sequence := id, pending := c.pending[id := command]),
           clientLog := s.clientLog + [Request(id, command)])
      else s
    case ClientDisconnects => s.(client := c.(life := Disconnected, pending := map[]))
    case _ => s
  }

  /** Requests that waited for the handshake go on in the order in which they came. */
  predicate IsFirst(waiting: set<nat>, k: nat) { k in waiting && forall j | j in waiting :: k <= j }

  /** What the server does without sending anything. */
  function ServerStep(s: State, v: Server, step: Step): Server {
    match step
    case HelloSent =>
      if v.phase == Sending then
        if !v.disconnected && v.stage == Handshaking then v.(stage := Ready, phase := FollowingUp)
        else v.(phase := Over)
      else v
    case HandshakeOver => if v.phase == FollowingUp then v.(phase := Over) else v
    case RunWaiting(k) =>
      if IsFirst(v.waiting, k) && v.phase == Over then
        v.(waiting := v.waiting - {k},
           running := if v.stage == Ready && !v.disconnected then v.running + {k} else v.running)
      else v
    case ServerCloses => if v.disconnected then v else v.(stage := Closing, closed := true)
    case ServerDisconnects => v.(disconnected := true, stage := Closed)
    case _ => v
  }

  function SnapshotStep(s: State): State {
    var v := s.server;
    if v.disconnected || v.stage != Handshaking || v.closed then s.(server := v.(phase := Over))
    else s.(server := v.(phase := Sending), serverLog := s.serverLog + [Hello])
  }

  /** The end of handleRequest. */
  function CompleteStep(s: State, k: nat, ok: bool): State
    requires k < |s.clientLog| && s.clientLog[k].Request?
  {
    Send(s.(server := s.server.(running := s.server.running - {k})),
         Response(s.clientLog[k].id, if ok then Some(s.clientLog[k].command) else None))
  }

  /** One step; a step that is not enabled changes nothing. */
  function Next(s: State, step: Step): State {
    match step
    case ClientReceives =>
      if s.received < |s.serverLog| then
        s.(received := s.received + 1, client := Handle(s.client, s.serverLog[s.received]))
      else s
    case ServerReceives =>
      if s.taken < |s.clientLog| then
        if Terminal(s.server) then s.(taken := s.taken + 1)
        else Dispatch(s.(taken := s.taken + 1), s.taken, s.clientLog[s.taken])
      else s
    case SnapshotReady => if s.server.phase == Getting then SnapshotStep(s) else s
    case RequestCompletes(k, ok) =>
      if k in s.server.running && k < |s.clientLog| && s.clientLog[k].Request? then CompleteStep(s, k, ok) else s
    case SendEvent =>
      if s.server.phase == FollowingUp || (s.server.phase == Over && s.server.stage == Ready) then Send(s, Event) else s
    case Connect => ClientStep(s, step)
    case OpenTransport => ClientStep(s, step)
    case SendRequest(_) => ClientStep(s, step)
    case ClientDisconnects => ClientStep(s, step)
    case _ => s.(server := ServerStep(s, s.server, step))
  }

  function Reached(first: nat, steps: seq<Step>): State {
    if steps == [] then Initial(first) else Next(Reached(first, steps[..|steps| - 1]), steps[|steps| - 1])
  }

  // ---- the invariant ----

  /** The client sends its hello first, and then requests with consecutive numbers. */
  predicate ClientInOrder(s: State) {
    && s.taken <= |s.clientLog|
    && (forall k | 0 <= k < |s.clientLog| ::
          (s.clientLog[k].ClientHello? <==> k == 0) && (k > 0 ==> s.clientLog[k].id == s.first + k))
    && s.client.sequence == s.first + (if s.clientLog == [] then 0 else |s.clientLog| - 1)
    && (|s.clientLog| > 1 ==> s.received > 0)
  }

  /** The stages of the server and what it has taken and sent by then. */
  predicate ServerInOrder(v: Server, taken: nat, log: seq<ServerMessage>) {
    && (forall i | 0 <= i < |log| :: log[i] != HelloError && (log[i] == Hello <==> i == 0))
    && (v.stage == AwaitingHello ==> taken == 0 && v.phase == NotBegun)
    && (v.phase != NotBegun ==> taken > 0)
    && (v.disconnected ==> v.stage == Closed)
    && (v.phase == NotBegun || v.phase == Getting ==> log == [])
    && (v.phase == Sending || v.phase == FollowingUp || v.stage == Ready ==> log != [])
    && (v.stage == Handshaking ==> v.phase == Getting || v.phase == Sending || v.phase == Over)
    && (forall k | k in v.waiting :: 0 < k < taken && k !in v.running)
    && (forall k | k in v.running :: 0 < k < taken)
  }

  /** A response answers a request that the server has taken and done with, with its command. */
  predicate Answers(s: State, m: ServerMessage) {
    m.Response? ==>
      var k := m.id - s.first;
      && 0 < k < s.taken && k < |s.clientLog| && k !in s.server.waiting && k !in s.server.running
      && s.clientLog[k].Request?
      && (m.result.Some? ==> m.result.value == s.clientLog[k].command)
  }

  /** No two responses in a log have the same number. */
  predicate Distinct(log: seq<ServerMessage>) {
    forall i, j | 0 <= i < j < |log| && log[i].Response? && log[j].Response? :: log[i].id != log[j].id
  }

  /** Whether a response with the number is among the first `n` messages. */
  predicate Answered(log: seq<ServerMessage>, n: nat, id: nat)
    requires n <= |log|
  {
    exists i | 0 <= i < n :: log[i].Response? && log[i].id == id
  }

  /** The open requests are exactly those sent and not seen answered among `n` messages. */
  predicate Awaits(pending: map<nat, Command>, first: nat, sent: seq<ClientMessage>, log: seq<ServerMessage>, n: nat)
    requires n <= |log|
  {
    && (forall id | id in pending ::
          && 0 < id - first < |sent| && !Answered(log, n, id)
          && sent[id - first] == Request(id, pending[id]))
    && (forall k | 0 < k < |sent| && sent[k].Request? :: Answered(log, n, sent[k].id) || sent[k].id in pending)
  }

  /** What the client waits for. */
  predicate ClientInStep(s: State)
    requires s.received <= |s.serverLog|
  {
    var c := s.client;
    match c.life
    case Disconnected => c.pending == map[]
    case Connecting(transport) =>
      s.received == 0 && c.pending == map[] && s.clientLog == if transport then [ClientHello] else []
    case Connected => s.received > 0 && Awaits(c.pending, s.first, s.clientLog, s.serverLog, s.received)
  }

  predicate Inv(s: State) {
    && s.received <= |s.serverLog|
    && ClientInOrder(s) && ServerInOrder(s.server, s.taken, s.serverLog)
    && (forall i | 0 <= i < |s.serverLog| :: Answers(s, s.serverLog[i]))
    && Distinct(s.serverLog) && ClientInStep(s)
    && !s.client.violated && !s.server.violated
  }

  // ---- it is kept ----

  lemma {:induction false} ClientKeeps(s: State, step: Step)
    requires Inv(s) && step in {Connect, OpenTransport, ClientDisconnects}
    ensures Inv(ClientStep(s, step))
  {
    hide Answered, Distinct, Awaits;
    var after := ClientStep(s, step);
    forall i | 0 <= i < |s.serverLog|
      ensures Answers(after, s.serverLog[i])
    {
      assert Answers(s, s.serverLog[i]);
    }
  }

  lemma {:induction false} SendRequestKeeps(s: State, command: Command)
    requires Inv(s)
    ensures Inv(ClientStep(s, SendRequest(command)))
  {
    if s.client.life == Connected {
      hide Answered, Answers, Awaits, ServerInOrder, ClientInOrder, Distinct;
      var after := ClientStep(s, SendRequest(command));
      LogsBegin(s);
      RequestInOrder(s, command);
      NoAnswerYet(s, after);
      AwaitsMore(s.client.pending, s.first, s.clientLog, s.serverLog, s.received, command);
    }
  }

  lemma {:induction false} RequestInOrder(s: State, command: Command)
    requires ClientInOrder(s) && s.client.life == Connected && s.clientLog != [] && s.received > 0
    ensures ClientInOrder(ClientStep(s, SendRequest(command))) && s.client.sequence + 1 == s.first + |s.clientLog|
  {
  }

  /** A request with the next number has not been answered, and changes no other answer. */
  lemma {:induction false} NoAnswerYet(s: State, after: State)
    requires ClientInOrder(s) && s.clientLog != [] && s.clientLog <= after.clientLog && s.received <= |s.serverLog|
    requires after.first == s.first && after.taken == s.taken && after.server == s.server
    requires forall i | 0 <= i < |s.serverLog| :: Answers(s, s.serverLog[i])
    ensures forall i | 0 <= i < |s.serverLog| :: Answers(after, s.serverLog[i])
    ensures !Answered(s.serverLog, s.received, s.client.sequence + 1)
  {
    hide Answered, Answers, ClientInOrder;
    forall i | 0 <= i < |s.serverLog|
      ensures Answers(after, s.serverLog[i])
      ensures s.serverLog[i].Response? ==> s.serverLog[i].id != s.client.sequence + 1
    {
      StillAnswers(s, after, s.serverLog[i]);
    }
    NotAnswered(s.serverLog, s.received, s.client.sequence + 1);
  }

  /** A connected client has received the hello, and sent its own. */
  lemma {:induction false} LogsBegin(s: State)
    requires Inv(s) && s.client.life == Connected
    ensures s.received > 0 && s.clientLog != []
  {
    hide Answered, Answers;
  }

  lemma {:induction false} StillAnswers(s: State, after: State, m: ServerMessage)
    requires Answers(s, m) && ClientInOrder(s) && s.clientLog != [] && s.clientLog <= after.clientLog
    requires after.first == s.first && after.taken == s.taken && after.server == s.server
    ensures Answers(after, m) && (m.Response? ==> m.id != s.client.sequence + 1)
  {
  }

  lemma {:induction false} AwaitsMore(pending: map<nat, Command>, first: nat, sent: seq<ClientMessage>,
                                      log: seq<ServerMessage>, n: nat, command: Command)
    requires n <= |log| && Awaits(pending, first, sent, log, n)
    requires sent != [] && !Answered(log, n, first + |sent|)
    ensures Awaits(pending[first + |sent| := command], first, sent + [Request(first + |sent|, command)], log, n)
  {
    hide Answered;
    var id, more := first + |sent|, sent + [Request(first + |sent|, command)];
    forall k | 0 < k < |more| && more[k].Request?
      ensures Answered(log, n, more[k].id) || more[k].id in pending[id := command]
    {
      if k < |sent| {
        assert more[k] == sent[k];
      }
    }
  }

  lemma {:induction false} NotAnswered(log: seq<ServerMessage>, n: nat, id: nat)
    requires n <= |log| && forall i | 0 <= i < |log| :: log[i].Response? ==> log[i].id != id
    ensures !Answered(log, n, id)
  {
  }

  /** What the client receives is always in order. */
  lemma {:induction false} ReceiveKeeps(s: State)
    requires Inv(s) && s.received < |s.serverLog|
    ensures Inv(Next(s, ClientReceives))
  {
    hide Answers, Answered;
    var m := s.serverLog[s.received];
    var after := Next(s, ClientReceives);
    forall i | 0 <= i < |s.serverLog|
      ensures Answers(after, s.serverLog[i])
    {
      SameAnswers(s, after, s.serverLog[i]);
    }
    OneMoreAnswered(s.serverLog, s.received);
    if s.client.life == Connected && m.Response? {
      ResponseIsAwaited(s, m);
    }
  }

  lemma {:induction false} SameAnswers(s: State, after: State, m: ServerMessage)
    requires Answers(s, m)
    requires after.first == s.first && after.taken == s.taken && after.clientLog == s.clientLog
    requires after.server.waiting <= s.server.waiting
    requires after.server.running <= s.server.running + s.server.waiting
    ensures Answers(after, m)
  {
  }

  lemma {:induction false} OneMoreAnswered(log: seq<ServerMessage>, n: nat)
    requires n < |log|
    ensures forall id :: Answered(log, n + 1, id) <==> Answered(log, n, id) || (log[n].Response? && log[n].id == id)
  {
    forall id
      ensures Answered(log, n + 1, id) <==> Answered(log, n, id) || (log[n].Response? && log[n].id == id)
    {
      if Answered(log, n, id) {
        var i :| 0 <= i < n && log[i].Response? && log[i].id == id;
        assert 0 <= i < n + 1;
      }
    }
  }

  lemma {:induction false} ResponseIsAwaited(s: State, m: ServerMessage)
    requires Inv(s) && s.client.life == Connected && s.received < |s.serverLog| && m == s.serverLog[s.received]
    requires m.Response?
    ensures m.id in s.client.pending && (m.result.Some? ==> m.result.value == s.client.pending[m.id])
  {
    assert Answers(s, m);
    var k := m.id - s.first;
    assert !Answered(s.serverLog, s.received, s.clientLog[k].id);
  }

  lemma {:induction false} ServerReceiveKeeps(s: State)
    requires Inv(s) && s.taken < |s.clientLog|
    ensures Inv(Next(s, ServerReceives))
  {
    hide Answered, ClientInStep, Answers;
    var after := Next(s, ServerReceives);
    assert s.clientLog[s.taken].ClientHello? <==> s.taken == 0;
    SameInStep(s, after);
    forall i | 0 <= i < |s.serverLog|
      ensures Answers(after, s.serverLog[i])
    {
      TakenAnswers(s, after, s.serverLog[i]);
    }
  }

  lemma {:induction false} SameInStep(s: State, after: State)
    requires s.received <= |s.serverLog| && ClientInStep(s)
    requires after == s.(taken := after.taken, server := after.server)
    ensures ClientInStep(after)
  {
    hide Answered;
  }

  lemma {:induction false} TakenAnswers(s: State, after: State, m: ServerMessage)
    requires Answers(s, m)
    requires after.first == s.first && after.taken == s.taken + 1 && after.clientLog == s.clientLog
    requires after.server.waiting <= s.server.waiting + {s.taken}
    requires after.server.running <= s.server.running + {s.taken}
    ensures Answers(after, m)
  {
  }

  /** The server's own steps that send nothing. */
  lemma {:induction false} QuietKeeps(s: State, v: Server)
    requires Inv(s) && ServerInOrder(v, s.taken, s.serverLog) && v.violated == s.server.violated
    requires v.waiting <= s.server.waiting && v.running <= s.server.running + s.server.waiting
    ensures Inv(s.(server := v))
  {
    hide Answered, Answers, ServerInOrder;
    var after := s.(server := v);
    forall i | 0 <= i < |s.serverLog|
      ensures Answers(after, s.serverLog[i])
    {
      SameAnswers(s, after, s.serverLog[i]);
    }
  }

  /** The server sends a message and moves on. */
  lemma {:induction false} SendKeeps(s: State, v: Server, m: ServerMessage)
    requires Inv(s) && Inv(s.(server := v)) && ServerInOrder(v, s.taken, s.serverLog + [m])
    requires Answers(s.(server := v), m)
    requires forall i | 0 <= i < |s.serverLog| && s.serverLog[i].Response? && m.Response? :: s.serverLog[i].id != m.id
    ensures Inv(s.(server := v, serverLog := s.serverLog + [m]))
  {
    hide Answered, Answers, ServerInOrder;
    var middle := s.(server := v);
    var after := s.(server := v, serverLog := s.serverLog + [m]);
    forall i | 0 <= i < |after.serverLog|
      ensures Answers(after, after.serverLog[i])
    {
      SameAnswers(middle, after, after.serverLog[i]);
    }
    SameAnswered(s.serverLog, m, s.received);
  }

  lemma {:induction false} SameAnswered(log: seq<ServerMessage>, m: ServerMessage, n: nat)
    requires n <= |log|
    ensures forall id :: Answered(log + [m], n, id) == Answered(log, n, id)
  {
    assert forall i | 0 <= i < n :: (log + [m])[i] == log[i];
  }

  lemma {:induction false} SnapshotKeeps(s: State)
    requires Inv(s) && s.server.phase == Getting
    ensures Inv(SnapshotStep(s))
  {
    hide Answered;
    var v := s.server;
    if v.disconnected || v.stage != Handshaking || v.closed {
      QuietKeeps(s, v.(phase := Over));
    } else {
      assert s.serverLog + [Hello] == [Hello];
      var after := SnapshotStep(s);
      NotAnswered(s.serverLog, 0, 0);
      SameAnswered(s.serverLog, Hello, 0);
      assert Distinct(after.serverLog);
    }
  }

  lemma {:induction false} ServerKeeps(s: State, step: Step)
    requires Inv(s)
    ensures Inv(s.(server := ServerStep(s, s.server, step)))
  {
    hide Answered, Answers, ClientInStep, ClientInOrder;
    QuietKeeps(s, ServerStep(s, s.server, step));
  }

  lemma {:induction false} CompleteKeeps(s: State, k: nat, ok: bool)
    requires Inv(s) && k in s.server.running && k < |s.clientLog| && s.clientLog[k].Request?
    ensures Inv(CompleteStep(s, k, ok))
  {
    hide Answered, ClientInStep;
    var m := Response(s.clientLog[k].id, if ok then Some(s.clientLog[k].command) else None);
    var v := s.server.(running := s.server.running - {k});
    QuietKeeps(s, v);
    forall i | 0 <= i < |s.serverLog| && s.serverLog[i].Response?
      ensures s.serverLog[i].id != m.id
    {
      assert Answers(s, s.serverLog[i]);
    }
    if !(v.disconnected || v.closed) {
      LogNotEmpty(s);
      SendKeeps(s, v, m);
    }
  }

  /** Requests only reach the server after its hello. */
  lemma {:induction false} LogNotEmpty(s: State)
    requires Inv(s) && s.server.waiting + s.server.running != {}
    ensures s.serverLog != [] && s.received > 0
  {
    hide Answers, Answered, ClientInStep;
    var k :| k in s.server.waiting + s.server.running;
    assert 0 < k < s.taken;
  }

  lemma {:induction false} EventKeeps(s: State)
    requires Inv(s) && (s.server.phase == FollowingUp || (s.server.phase == Over && s.server.stage == Ready))
    ensures Inv(Send(s, Event))
  {
    hide Answered, ClientInStep;
    assert s.(server := s.server) == s;
    SendKeeps(s, s.server, Event);
  }

  lemma {:induction false} NextKeeps(s: State, step: Step)
    requires Inv(s)
    ensures Inv(Next(s, step))
  {
    hide Inv, ServerStep, ClientStep, CompleteStep, SnapshotStep, Send, Handle, Dispatch;
    match step
    case ClientReceives =>
      if s.received < |s.serverLog| { ReceiveKeeps(s); }
    case ServerReceives =>
      if s.taken < |s.clientLog| { ServerReceiveKeeps(s); }
    case SnapshotReady =>
      if s.server.phase == Getting { SnapshotKeeps(s); }
    case RequestCompletes(k, ok) =>
      if k in s.server.running && k < |s.clientLog| && s.clientLog[k].Request? { CompleteKeeps(s, k, ok); }
    case SendEvent =>
      if s.server.phase == FollowingUp || (s.server.phase == Over && s.server.stage == Ready) { EventKeeps(s); }
    case Connect => ClientKeeps(s, step);
    case OpenTransport => ClientKeeps(s, step);
    case SendRequest(command) => SendRequestKeeps(s, command);
    case ClientDisconnects => ClientKeeps(s, step);
    case _ => ServerKeeps(s, step);
  }

  lemma {:induction false} ReachedKeeps(first: nat, steps: seq<Step>)
    ensures Inv(Reached(first, steps))
  {
    hide Next;
    if steps != [] {
      hide Inv;
      ReachedKeeps(first, steps[..|steps| - 1]);
      NextKeeps(Reached(first, steps[..|steps| - 1]), steps[|steps| - 1]);
    } else {
      InitialHolds(first);
    }
  }

  lemma {:induction false} InitialHolds(first: nat)
    ensures Inv(Initial(first))
  {
  }

  // ---- what every run keeps ----

  /** Neither side ever finds the other out of order. */
  lemma {:induction false} NeverOutOfOrder(first: nat, steps: seq<Step>)
    ensures !Reached(first, steps).client.violated && !Reached(first, steps).server.violated
  {
    hide Reached;
    ReachedKeeps(first, steps);
  }

  /** The hello is the first message of the server and the only one, and no request reaches the
      server before it has been sent and has arrived. */
  lemma {:induction false} HelloFirst(first: nat, steps: seq<Step>, i: nat)
    requires i < |Reached(first, steps).serverLog|
    ensures var s := Reached(first, steps);
            && (s.serverLog[i] == Hello <==> i == 0) && s.serverLog[i] != HelloError
            && (s.server.waiting + s.server.running != {} ==> s.received > 0)
  {
    hide Reached, Answers, Answered, ClientInStep;
    var s := Reached(first, steps);
    ReachedKeeps(first, steps);
    if s.server.waiting + s.server.running != {} {
      LogNotEmpty(s);
    }
  }

  /** Every response the server sends answers one request of the client, once, with its id and
      its command; and while the client is connected, it finds it among its open requests. */
  lemma {:induction false} ResponsesMatch(first: nat, steps: seq<Step>, i: nat)
    requires i < |Reached(first, steps).serverLog| && Reached(first, steps).serverLog[i].Response?
    ensures var s := Reached(first, steps);
            var m := s.serverLog[i];
            var k := m.id - first;
            && 0 < k < |s.clientLog| && s.clientLog[k].Request? && s.clientLog[k].id == m.id
            && (m.result.Some? ==> m.result.value == s.clientLog[k].command)
            && (forall j | 0 <= j < |s.serverLog| && j != i && s.serverLog[j].Response? :: s.serverLog[j].id != m.id)
            && (s.client.life == Connected && i >= s.received ==>
                  m.id in s.client.pending && s.client.pending[m.id] == s.clientLog[k].command)
  {
    hide Reached, Answered;
    var s := Reached(first, steps);
    ReachedKeeps(first, steps);
    FirstStays(first, steps);
    assert Answers(s, s.serverLog[i]);
    if s.client.life == Connected && i >= s.received {
      NotYetAnswered(s, i);
    }
  }

  lemma {:induction false} NotYetAnswered(s: State, i: nat)
    requires Inv(s) && s.client.life == Connected && s.received <= i < |s.serverLog| && s.serverLog[i].Response?
    ensures s.serverLog[i].id in s.client.pending
  {
    assert Answers(s, s.serverLog[i]);
    assert !Answered(s.serverLog, s.received, s.serverLog[i].id);
  }

  lemma {:induction false} FirstStays(first: nat, steps: seq<Step>)
    ensures Reached(first, steps).first == first
  {
    if steps != [] {
      hide Next;
      FirstStays(first, steps[..|steps| - 1]);
      FirstStep(Reached(first, steps[..|steps| - 1]), steps[|steps| - 1]);
    }
  }

  lemma {:induction false} FirstStep(s: State, step: Step)
    ensures Next(s, step).first == s.first
  {
    hide Handle, ServerStep;
  }

  /** A request that is running is answered once it completes, with its own number, and with its
      command if it succeeded and an error if not; a connection that is gone gets nothing. */
  lemma {:induction false} CompletesExactly(s: State, k: nat, ok: bool)
    requires k in s.server.running && k < |s.clientLog| && s.clientLog[k].Request?
    ensures var after := Next(s, RequestCompletes(k, ok));
            && after.server == s.server.(running := s.server.running - {k})
            && after == s.(server := after.server, serverLog := after.serverLog)
            && if s.server.disconnected || s.server.closed then after.serverLog == s.serverLog
               else
                 && |after.serverLog| == |s.serverLog| + 1 && s.serverLog <= after.serverLog
                 && var m := after.serverLog[|s.serverLog|];
                    && m.Response? && m.id == s.clientLog[k].id
                    && (ok ==> m.result == Some(s.clientLog[k].command)) && (!ok ==> m.result == None)
  {
  }

  // ---- the order in which requests are handled ----

  /** The requests a step starts. */
  function Begins(s: State, step: Step): seq<nat> {
    match step
    case ServerReceives =>
      if s.taken < |s.clientLog| && s.clientLog[s.taken].Request?
         && s.server.stage == Ready && !Terminal(s.server) then
        [s.taken]
      else []
    case RunWaiting(k) =>
      if IsFirst(s.server.waiting, k) && s.server.phase == Over
         && s.server.stage == Ready && !s.server.disconnected then
        [k]
      else []
    case _ => []
  }

  lemma {:induction false} BegunIsRunning(s: State, step: Step)
    requires Inv(s)
    ensures forall k :: k in Next(s, step).server.running && k !in s.server.running <==> k in Begins(s, step)
  {
    hide Answers, Answered, ClientInStep, Distinct, Handle;
  }

  /** The requests a run has started, in the order of their starts. */
  function Started(first: nat, steps: seq<Step>): seq<nat> {
    if steps == [] then []
    else
      var before := steps[..|steps| - 1];
      Started(first, before) + Begins(Reached(first, before), steps[|steps| - 1])
  }

  /** A request is started on its arrival while older ones wait for the end of the handshake: the
      hello has been sent and the connection is ready, but they have not run yet. */
  predicate Overtakes(s: State, step: Step) {
    && step == ServerReceives && s.taken < |s.clientLog| && s.clientLog[s.taken].Request?
    && s.server.stage == Ready && !s.server.disconnected && s.server.waiting != {}
  }

  /** A request starts while an older one waits exactly when it overtakes. */
  lemma {:induction false} OvertakenExactly(s: State, step: Step)
    requires Inv(s)
    ensures (exists j, k :: j in Begins(s, step) && k in s.server.waiting && k < j) <==> Overtakes(s, step)
    ensures Overtakes(s, step) ==> s.serverLog != [] && s.serverLog[0] == Hello && s.received > 0
  {
    hide Answers, Answered, Distinct, ClientInStep;
    if Overtakes(s, step) {
      var k :| k in s.server.waiting;
      assert s.taken in Begins(s, step) && k < s.taken;
    }
  }

  /** No request was or will be handled before an older one. */
  predicate InOrder(started: seq<nat>, waiting: set<nat>) {
    && (forall i, j | 0 <= i < j < |started| :: started[i] < started[j])
    && (forall i, k | 0 <= i < |started| && k in waiting :: started[i] < k)
  }

  lemma {:induction false} StartedWereTaken(first: nat, steps: seq<Step>)
    ensures forall i | 0 <= i < |Started(first, steps)| :: Started(first, steps)[i] < Reached(first, steps).taken
  {
    if steps != [] {
      hide Inv, Next;
      var before := steps[..|steps| - 1];
      StartedWereTaken(first, before);
      ReachedKeeps(first, before);
      BegunWereTaken(Reached(first, before), steps[|steps| - 1]);
    }
  }

  lemma {:induction false} BegunWereTaken(s: State, step: Step)
    requires Inv(s)
    ensures s.taken <= Next(s, step).taken
    ensures forall k | k in Begins(s, step) :: k < Next(s, step).taken
  {
    hide Answers, Answered, ClientInStep, Distinct, Handle;
  }

  /** A run that has kept the order of requests keeps it in a step exactly when the step does not
      overtake. */
  lemma {:induction false} InOrderExactly(s: State, step: Step, started: seq<nat>)
    requires Inv(s) && InOrder(started, s.server.waiting)
    requires forall i | 0 <= i < |started| :: started[i] < s.taken
    ensures InOrder(started + Begins(s, step), Next(s, step).server.waiting) <==> !Overtakes(s, step)
  {
    hide Answers, Answered, Distinct, ClientInStep, Handle;
    var after := Next(s, step);
    var more := started + Begins(s, step);
    if Overtakes(s, step) {
      var k :| k in s.server.waiting;
      assert more[|started|] == s.taken && k in after.server.waiting;
    } else if step == ServerReceives {
      assert forall i | 0 <= i < |more| :: more[i] <= s.taken;
    }
  }

  /** Whether a run has kept the order of requests all the time. */
  predicate InOrderThroughout(first: nat, steps: seq<Step>) {
    && InOrder(Started(first, steps), Reached(first, steps).server.waiting)
    && (steps == [] || InOrderThroughout(first, steps[..|steps| - 1]))
  }

  predicate NeverOvertakes(first: nat, steps: seq<Step>) {
    steps == []
    || (!Overtakes(Reached(first, steps[..|steps| - 1]), steps[|steps| - 1])
        && NeverOvertakes(first, steps[..|steps| - 1]))
  }

  /** Over whole runs: requests are handled in the order in which they were sent, and none waits
      behind a younger one, exactly when none arrives between the sent hello and the end of the
      handshake while others wait for it. */
  lemma {:induction false} RequestsInOrder(first: nat, steps: seq<Step>)
    ensures InOrderThroughout(first, steps) <==> NeverOvertakes(first, steps)
  {
    if steps != [] {
      hide Inv, Next, InOrder, Overtakes;
      var before := steps[..|steps| - 1];
      RequestsInOrder(first, before);
      ReachedKeeps(first, before);
      StartedWereTaken(first, before);
      if InOrderThroughout(first, before) {
        InOrderExactly(Reached(first, before), steps[|steps| - 1], Started(first, before));
      }
    }
  }

  lemma {:induction false} StartedMore(first: nat, steps: seq<Step>, step: Step)
    ensures Reached(first, steps + [step]) == Next(Reached(first, steps), step)
    ensures Started(first, steps + [step]) == Started(first, steps) + Begins(Reached(first, steps), step)
  {
    hide Next, Begins;
    assert (steps + [step])[..|steps|] == steps;
  }

  /** A run in which the second request is handled before the first: the first arrives before the
      server has seen its own hello off, the second while the newest snapshot still follows. */
  lemma {:induction false} SecondRequestFirst(c: Command, d: Command) returns (steps: seq<Step>)
    ensures Started(0, steps) == [2, 1]
  {
    hide Reached, Started;
    steps := WithFirstWaiting(c);
    var client := Client(Connected, 1, map[1 := c], false);
    var log := [ClientHello, Request(1, c)];
    assert map[1 := c][2 := d] == map[1 := c, 2 := d];
    assert {1} - {1} == {};
    steps := Going(steps, HelloSent, [],
                   State(0, client, Server(Ready, FollowingUp, false, false, {1}, {}, false), log, 2, [Hello], 1));
    steps := Going(steps, SendRequest(d), [],
                   State(0, Client(Connected, 2, map[1 := c][2 := d], false),
                         Server(Ready, FollowingUp, false, false, {1}, {}, false),
                         log + [Request(2, d)], 2, [Hello], 1));
    steps := Going(steps, ServerReceives, [2],
                   State(0, Client(Connected, 2, map[1 := c][2 := d], false),
                         Server(Ready, FollowingUp, false, false, {1}, {} + {2}, false),
                         log + [Request(2, d)], 3, [Hello], 1));
    steps := Going(steps, HandshakeOver, [],
                   State(0, Client(Connected, 2, map[1 := c][2 := d], false),
                         Server(Ready, Over, false, false, {1}, {} + {2}, false),
                         log + [Request(2, d)], 3, [Hello], 1));
    steps := Going(steps, RunWaiting(1), [1],
                   State(0, Client(Connected, 2, map[1 := c][2 := d], false),
                         Server(Ready, Over, false, false, {1} - {1}, {} + {2} + {1}, false),
                         log + [Request(2, d)], 3, [Hello], 1));
  }

  lemma {:induction false} WithFirstWaiting(c: Command) returns (steps: seq<Step>)
    ensures Started(0, steps) == []
    ensures Reached(0, steps) ==
            State(0, Client(Connected, 1, map[1 := c], false),
                  Server(Handshaking, Sending, false, false, {1}, {}, false),
                  [ClientHello, Request(1, c)], 2, [Hello], 1)
  {
    hide Reached, Started;
    steps := WithHelloReceived();
    var server := Server(Handshaking, Sending, false, false, {}, {}, false);
    var client := Client(Connected, 1, map[1 := c], false);
    var open: map<nat, Command> := map[];
    var none: set<nat> := {};
    assert open[1 := c] == map[1 := c] && none + {1} == {1};
    assert [ClientHello] + [Request(1, c)] == [ClientHello, Request(1, c)];
    steps := Going(steps, SendRequest(c), [], State(0, client, server, [ClientHello, Request(1, c)], 1, [Hello], 1));
    steps := Going(steps, ServerReceives, [],
                   State(0, client, server.(waiting := {1}), [ClientHello, Request(1, c)], 2, [Hello], 1));
  }

  lemma {:induction false} WithHelloReceived() returns (steps: seq<Step>)
    ensures Started(0, steps) == []
    ensures Reached(0, steps) ==
            State(0, Client(Connected, 0, map[], false), Server(Handshaking, Sending, false, false, {}, {}, false),
                  [ClientHello], 1, [Hello], 1)
  {
    hide Reached, Started, ServerStep, ClientStep, CompleteStep;
    steps := WithTransport();
    var server := Server(Handshaking, Getting, false, false, {}, {}, false);
    var connecting := Client(Connecting(true), 0, map[], false);
    var nothing: seq<ServerMessage> := [];
    assert nothing + [Hello] == [Hello];
    steps := Going(steps, ServerReceives, [], State(0, connecting, server, [ClientHello], 1, [], 0));
    steps := Going(steps, SnapshotReady, [],
                   State(0, connecting, server.(phase := Sending), [ClientHello], 1, [Hello], 0));
    steps := Going(steps, ClientReceives, [],
                   State(0, connecting.(life := Connected), server.(phase := Sending), [ClientHello], 1, [Hello], 1));
  }

  lemma {:induction false} WithTransport() returns (steps: seq<Step>)
    ensures Started(0, steps) == []
    ensures Reached(0, steps) ==
            State(0, Client(Connecting(true), 0, map[], false),
                  Server(AwaitingHello, NotBegun, false, false, {}, {}, false),
                  [ClientHello], 0, [], 0)
  {
    assert Reached(0, []) == Initial(0) && Started(0, []) == [];
    hide Reached, Started, ServerStep, Handle, Dispatch, CompleteStep, SnapshotStep;
    var idle := Server(AwaitingHello, NotBegun, false, false, {}, {}, false);
    var nothing: seq<ClientMessage> := [];
    assert nothing + [ClientHello] == [ClientHello];
    steps := Going([], Connect, [], State(0, Client(Connecting(false), 0, map[], false), idle, [], 0, [], 0));
    steps := Going(steps, OpenTransport, [],
                   State(0, Client(Connecting(true), 0, map[], false), idle, [ClientHello], 0, [], 0));
  }

  lemma {:induction false} Going(before: seq<Step>, step: Step, begun: seq<nat>, after: State)
    returns (steps: seq<Step>)
    requires Next(Reached(0, before), step) == after && Begins(Reached(0, before), step) == begun
    ensures Reached(0, steps) == after && Started(0, steps) == Started(0, before) + begun
  {
    steps := before + [step];
    StartedMore(0, before, step);
  }
}
