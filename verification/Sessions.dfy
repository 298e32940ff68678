/**
 Live sessions of packages/server/src/sessions.ts. A step is what runs between two awaits;
 service calls, snapshots and disposals settle in any order. The check `maybeDispose` makes
 after another step is a step of its own, and so may also come at any later time.
 */
module Sessions {
  import opened Wrappers

  type Id = string
  type Conn = nat

  /** The record of a session in use; its `ready` flag is false only within one step. */
  datatype LiveSession = LiveSession(connections: set<Conn>, operationCount: nat, terminal: bool, disposing: bool)

  /** How far a runtime is: its service call is in flight or was refused, its first snapshot is
      awaited, it is in use, `dispose()` was called, or `dispose()` has settled. */
  datatype Stage = Requested | Refused | Snapshotting | InUse | BeingDisposed | Gone

  datatype Runtime = Runtime(id: Id, stage: Stage, live: Option<LiveSession>, disposeCalls: nat)

  /** Where a connection's call stands. */
  datatype Task =
    | Acquiring(conn: Conn, id: Id)
    | AwaitingDisposal(conn: Conn, id: Id, runtime: nat)
    | AwaitingOpening(conn: Conn, runtime: nat)
    | Attaching(conn: Conn, runtime: nat)
    | Operating(conn: Conn, runtime: nat)
    | Finished

  datatype Closing = NotClosing | Began | Waiting(openings: set<nat>) | Closed

  /** Runtimes are numbered by their service calls. */
  datatype State = State(runtimes: seq<Runtime>, liveSessions: map<Id, nat>, openingSessions: map<Id, nat>,
                         attached: set<(Conn, Id)>, tasks: seq<Task>, closing: Closing)

  const INITIAL := State([], map[], map[], {}, [], NotClosing)

  datatype Step =
    | Call(conn: Conn, id: Id)
    | Acquire(task: nat)
    | ServiceReturns(runtime: nat, ok: bool)
    | SnapshotReturns(runtime: nat, ok: bool, failsAtOnce: bool)
    | OpeningSettles(id: Id)
    | DisposalAwaited(task: nat, ok: bool)
    | OpeningAwaited(task: nat)
    | Attach(task: nat, usable: bool)
    | StartOperation(conn: Conn, id: Id)
    | FinishOperation(task: nat)
    | Detach(conn: Conn, id: Id)
    | Disconnect(conn: Conn)
    | Terminate(runtime: nat)
    | MaybeDispose(runtime: nat, idle: bool)
    | DisposeSettles(runtime: nat)
    | BeginClosing
    | StartClose
    | FinishClose

  /** Whether the promise of `create` has settled. */
  predicate Settled(r: Runtime) { r.stage == Refused || r.live.Some? || r.stage == Gone }

  function Dispose(r: Runtime): Runtime {
    r.(stage := BeingDisposed, disposeCalls := r.disposeCalls + 1)
  }

  function WithTask(s: State, k: nat, task: Task): State
    requires k < |s.tasks|
  {
    s.(tasks := s.tasks[k := task])
  }

  function WithRuntime(s: State, r: nat, runtime: Runtime): State
    requires r < |s.runtimes|
  {
    s.(runtimes := s.runtimes[r := runtime])
  }

  /** The acquire loop, from its head to the next await. */
  function AcquireStep(s: State, k: nat, conn: Conn, id: Id): State
    requires k < |s.tasks|
  {
    if id in s.liveSessions then
      var r := s.liveSessions[id];
      if r >= |s.runtimes| || s.runtimes[r].live.None? then s
      else if s.runtimes[r].live.value.terminal then WithTask(s, k, Finished)
      else if s.runtimes[r].live.value.disposing then WithTask(s, k, AwaitingDisposal(conn, id, r))
      else WithTask(s, k, Attaching(conn, r))
    else if id in s.openingSessions then WithTask(s, k, AwaitingOpening(conn, s.openingSessions[id]))
    else
      var r := |s.runtimes|;
      WithTask(s.(runtimes := s.runtimes + [Runtime(id, Requested, None, 0)],
                  openingSessions := s.openingSessions[id := r]),
               k, AwaitingOpening(conn, r))
  }

  /** create, once the service has answered. */
  function ServiceStep(s: State, r: nat, ok: bool): State
    requires r < |s.runtimes|
  {
    var runtime := s.runtimes[r];
    if !ok then WithRuntime(s, r, runtime.(stage := Refused))
    else if s.closing != NotClosing then WithRuntime(s, r, Dispose(runtime))
    else WithRuntime(s, r, runtime.(stage := Snapshotting))
  }

  /** create, once the first snapshot is there or has failed. */
  function SnapshotStep(s: State, r: nat, ok: bool, failsAtOnce: bool): State
    requires r < |s.runtimes|
  {
    var runtime := s.runtimes[r];
    if !ok then WithRuntime(s, r, Dispose(runtime))
    else
      WithRuntime(s, r, runtime.(stage := InUse, live := Some(LiveSession({}, 0, failsAtOnce, false))))
      .(liveSessions := s.liveSessions[runtime.id := r])
  }

  function AttachStep(s: State, k: nat, conn: Conn, r: nat, usable: bool): State
    requires k < |s.tasks|
  {
    if !usable || r >= |s.runtimes| || s.runtimes[r].live.None? then WithTask(s, k, Finished)
    else
      var live := s.runtimes[r].live.value;
      WithRuntime(WithTask(s, k, Finished), r,
                  s.runtimes[r].(live := Some(live.(connections := live.connections + {conn}))))
      .(attached := s.attached + {(conn, s.runtimes[r].id)})
  }

  /** requireAttached, and the start of runOperation. */
  function OperateStep(s: State, conn: Conn, id: Id): State {
    if (conn, id) !in s.attached || id !in s.liveSessions then s
    else
      var r := s.liveSessions[id];
      if r >= |s.runtimes| || s.runtimes[r].live.None? then s
      else
        var live := s.runtimes[r].live.value;
        if live.terminal || live.disposing then s
        else
          WithRuntime(s, r, s.runtimes[r].(live := Some(live.(operationCount := live.operationCount + 1))))
          .(tasks := s.tasks + [Operating(conn, r)])
  }

  function FinishStep(s: State, k: nat, r: nat): State
    requires k < |s.tasks|
  {
    if r >= |s.runtimes| || s.runtimes[r].live.None? || s.runtimes[r].live.value.operationCount == 0 then s
    else
      var live := s.runtimes[r].live.value;
      WithTask(WithRuntime(s, r, s.runtimes[r].(live := Some(live.(operationCount := live.operationCount - 1)))),
               k, Finished)
  }

  function LeaveOne(s: State, conn: Conn, r: nat): Runtime
    requires r < |s.runtimes|
  {
    var runtime := s.runtimes[r];
    if runtime.live.Some? && runtime.id in s.liveSessions && s.liveSessions[runtime.id] == r
       && (conn, runtime.id) in s.attached then
      runtime.(live := Some(runtime.live.value.(connections := runtime.live.value.connections - {conn})))
    else runtime
  }

  function DetachStep(s: State, conn: Conn, id: Id): State {
    if (conn, id) !in s.attached then s
    else
      var left := s.(attached := s.attached - {(conn, id)});
      if id in s.liveSessions && s.liveSessions[id] < |s.runtimes| then
        WithRuntime(left, s.liveSessions[id], LeaveOne(s, conn, s.liveSessions[id]))
      else left
  }

  /** Every session the connection was attached to loses it. */
  function LeaveAll(s: State, conn: Conn, n: nat): (rs: seq<Runtime>)
    requires n <= |s.runtimes|
    ensures |rs| == n && forall r | 0 <= r < n :: rs[r] == LeaveOne(s, conn, r)
  {
    if n == 0 then [] else LeaveAll(s, conn, n - 1) + [LeaveOne(s, conn, n - 1)]
  }

  /** The guard of maybeDispose: what must not be the case for a disposal. */
  predicate Kept(s: State, live: LiveSession, idle: bool) {
    || s.closing != NotClosing
    || live.disposing
    || live.connections != {}
    || live.operationCount > 0
    || (!live.terminal && !idle)
  }

  function DisposeStep(s: State, r: nat, idle: bool): State
    requires r < |s.runtimes|
  {
    var runtime := s.runtimes[r];
    if runtime.live.None? || Kept(s, runtime.live.value, idle) then s
    else WithRuntime(s, r, Dispose(runtime.(live := Some(runtime.live.value.(disposing := true)))))
  }

  function GoneStep(s: State, r: nat): State
    requires r < |s.runtimes|
  {
    var runtime := s.runtimes[r];
    var gone := WithRuntime(s, r, runtime.(stage := Gone));
    if runtime.live.Some? && runtime.live.value.disposing
       && runtime.id in s.liveSessions && s.liveSessions[runtime.id] == r then
      gone.(liveSessions := s.liveSessions - {runtime.id})
    else gone
  }

  /** What close does with one runtime: it disposes those in the map that are not being
      disposed. */
  function CloseOne(s: State, r: nat): Runtime
    requires r < |s.runtimes|
  {
    var runtime := s.runtimes[r];
    if runtime.id in s.liveSessions && s.liveSessions[runtime.id] == r
       && runtime.live.Some? && !runtime.live.value.disposing then Dispose(runtime)
    else runtime
  }

  function CloseAll(s: State, n: nat): (rs: seq<Runtime>)
    requires n <= |s.runtimes|
    ensures |rs| == n && forall r | 0 <= r < n :: rs[r] == CloseOne(s, r)
  {
    if n == 0 then [] else CloseAll(s, n - 1) + [CloseOne(s, n - 1)]
  }

  predicate AllSettled(s: State, openings: set<nat>) {
    forall r | r in openings && r < |s.runtimes| :: Settled(s.runtimes[r])
  }

  /** One step; a step that is not enabled changes nothing. */
  function Next(s: State, step: Step): State {
    match step
    case Call(conn, id) => s.(tasks := s.tasks + [Acquiring(conn, id)])
    case Acquire(k) =>
      if k < |s.tasks| && s.tasks[k].Acquiring? then AcquireStep(s, k, s.tasks[k].conn, s.tasks[k].id) else s
    case ServiceReturns(r, ok) =>
      if r < |s.runtimes| && s.runtimes[r].stage == Requested then ServiceStep(s, r, ok) else s
    case SnapshotReturns(r, ok, fails) =>
      if r < |s.runtimes| && s.runtimes[r].stage == Snapshotting then SnapshotStep(s, r, ok, fails) else s
    case OpeningSettles(id) =>
      if id in s.openingSessions && AllSettled(s, {s.openingSessions[id]}) then
        s.(openingSessions := s.openingSessions - {id})
      else s
    case DisposalAwaited(k, ok) =>
      if k < |s.tasks| && s.tasks[k].AwaitingDisposal? && s.tasks[k].runtime < |s.runtimes|
         && s.runtimes[s.tasks[k].runtime].stage == Gone then
        WithTask(s, k, if ok then Acquiring(s.tasks[k].conn, s.tasks[k].id) else Finished)
      else s
    case OpeningAwaited(k) =>
      if k < |s.tasks| && s.tasks[k].AwaitingOpening? && s.tasks[k].runtime < |s.runtimes|
         && Settled(s.runtimes[s.tasks[k].runtime]) then
        WithTask(s, k, if s.runtimes[s.tasks[k].runtime].live.Some?
                       then Attaching(s.tasks[k].conn, s.tasks[k].runtime) else Finished)
      else s
    case Attach(k, usable) =>
      if k < |s.tasks| && s.tasks[k].Attaching? then AttachStep(s, k, s.tasks[k].conn, s.tasks[k].runtime, usable)
      else s
    case StartOperation(conn, id) => OperateStep(s, conn, id)
    case FinishOperation(k) =>
      if k < |s.tasks| && s.tasks[k].Operating? then FinishStep(s, k, s.tasks[k].runtime) else s
    case Detach(conn, id) => DetachStep(s, conn, id)
    case Disconnect(conn) =>
      s.(runtimes := LeaveAll(s, conn, |s.runtimes|), attached := set a | a in s.attached && a.0 != conn)
    case Terminate(r) =>
      if r < |s.runtimes| && s.runtimes[r].live.Some? then
        WithRuntime(s, r, s.runtimes[r].(live := Some(s.runtimes[r].live.value.(terminal := true))))
      else s
    case MaybeDispose(r, idle) => if r < |s.runtimes| then DisposeStep(s, r, idle) else s
    case DisposeSettles(r) =>
      if r < |s.runtimes| && s.runtimes[r].stage == BeingDisposed then GoneStep(s, r) else s
    case BeginClosing => if s.closing == NotClosing then s.(closing := Began) else s
    case StartClose => if s.closing == Began then s.(closing := Waiting(s.openingSessions.Values)) else s
    case FinishClose =>
      if s.closing.Waiting? && AllSettled(s, s.closing.openings) then
        s.(runtimes := CloseAll(s, |s.runtimes|), liveSessions := map[], closing := Closed)
      else s
  }

  function Reached(steps: seq<Step>): State {
    if steps == [] then INITIAL else Next(Reached(steps[..|steps| - 1]), steps[|steps| - 1])
  }

  // ---- the invariant ----

  /** How many calls are operating on a runtime. */
  function Operations(tasks: seq<Task>, r: nat): nat {
    if tasks == [] then 0
    else
      var last := tasks[|tasks| - 1];
      Operations(tasks[..|tasks| - 1], r) + if last.Operating? && last.runtime == r then 1 else 0
  }

  predicate Counted(r: Runtime) {
    match r.stage
    case Requested => r.live.None? && r.disposeCalls == 0
    case Refused => r.live.None? && r.disposeCalls == 0
    case Snapshotting => r.live.None? && r.disposeCalls == 0
    case InUse => r.live.Some? && !r.live.value.disposing && r.disposeCalls == 0
    case BeingDisposed => r.disposeCalls == 1
    case Gone => r.disposeCalls == 1
  }

  predicate IsLive(s: State, r: nat)
    requires r < |s.runtimes|
  {
    s.runtimes[r].id in s.liveSessions && s.liveSessions[s.runtimes[r].id] == r
  }

  predicate IsOpening(s: State, r: nat)
    requires r < |s.runtimes|
  {
    s.runtimes[r].id in s.openingSessions && s.openingSessions[s.runtimes[r].id] == r
  }

  /** What the maps and the closing state say about one runtime. */
  predicate Placed(s: State, r: nat)
    requires r < |s.runtimes|
  {
    var runtime := s.runtimes[r];
    && Counted(runtime)
    && (!Settled(runtime) ==> IsOpening(s, r) && runtime.id !in s.liveSessions)
    && (runtime.stage == InUse ==> IsLive(s, r))
    && (IsLive(s, r) ==> runtime.stage == InUse || (runtime.stage == BeingDisposed && runtime.live.Some?))
    && (runtime.stage == BeingDisposed && runtime.live.Some? && s.closing != Closed ==> IsLive(s, r))
    && (runtime.live.Some? && runtime.stage != InUse ==> runtime.live.value.disposing || s.closing == Closed)
    && (runtime.stage == BeingDisposed && IsLive(s, r) ==> runtime.live.value.disposing)
    && (runtime.stage == Snapshotting && s.closing.Waiting? ==> r in s.closing.openings)
    && (s.closing == Closed ==> runtime.stage != Snapshotting && runtime.stage != InUse)
    && (runtime.live.Some? ==> runtime.live.value.operationCount == Operations(s.tasks, r))
    && (runtime.live.Some? && s.closing != Closed && runtime.stage != InUse ==>
          runtime.live.value.operationCount == 0)
  }

  predicate MapsPoint(s: State) {
    && (forall id | id in s.liveSessions ::
          s.liveSessions[id] < |s.runtimes| && s.runtimes[s.liveSessions[id]].id == id)
    && (forall id | id in s.openingSessions ::
          s.openingSessions[id] < |s.runtimes| && s.runtimes[s.openingSessions[id]].id == id)
  }

  predicate TaskPoints(s: State, task: Task) {
    match task
    case AwaitingDisposal(_, _, r) => r < |s.runtimes|
    case AwaitingOpening(_, r) => r < |s.runtimes|
    case Attaching(_, r) => r < |s.runtimes| && s.runtimes[r].live.Some?
    case Operating(_, r) => r < |s.runtimes| && s.runtimes[r].live.Some?
    case _ => true
  }

  predicate Inv(s: State) {
    && MapsPoint(s)
    && (forall r | 0 <= r < |s.runtimes| :: Placed(s, r))
    && (forall k | 0 <= k < |s.tasks| :: TaskPoints(s, s.tasks[k]))
  }
}
