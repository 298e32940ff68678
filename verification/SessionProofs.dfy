/**
 What every run of the session manager keeps, over all interleavings of acquiring, attaching,
 detaching, operating, failing and closing: at most one outstanding runtime per session, no
 disposal under a running operation, and every runtime disposed at most once.
 */
module SessionProofs {
  import opened Wrappers
  import opened Sessions

  // ---- counting operations ----

  function Bit(task: Task, r: nat): nat { if task.Operating? && task.runtime == r then 1 else 0 }

  lemma {:induction false} OperationsAppend(tasks: seq<Task>, task: Task, r: nat)
    ensures Operations(tasks + [task], r) == Operations(tasks, r) + Bit(task, r)
  {
    assert (tasks + [task])[..|tasks|] == tasks;
  }

  lemma {:induction false} OperationsUpdate(tasks: seq<Task>, k: nat, task: Task, r: nat)
    requires k < |tasks|
    ensures Operations(tasks[k := task], r) + Bit(tasks[k], r) == Operations(tasks, r) + Bit(task, r)
  {
    var n := |tasks| - 1;
    if k == n {
      assert tasks[k := task][..n] == tasks[..n];
    } else {
      OperationsUpdate(tasks[..n], k, task, r);
      assert tasks[k := task][..n] == tasks[..n][k := task];
    }
  }

  lemma {:induction false} OperatingIsCounted(tasks: seq<Task>, k: nat, r: nat)
    requires k < |tasks| && tasks[k].Operating? && tasks[k].runtime == r
    ensures Operations(tasks, r) > 0
  {
    OperationsUpdate(tasks, k, Finished, r);
  }

  // ---- the invariant is kept, kind of step by kind of step ----

  /** Tasks change without touching the runtimes or their operations. */
  lemma {:induction false} TasksStep(s: State, tasks: seq<Task>)
    requires Inv(s)
    requires forall r | 0 <= r < |s.runtimes| :: Operations(tasks, r) == Operations(s.tasks, r)
    requires forall k | 0 <= k < |tasks| :: TaskPoints(s, tasks[k])
    ensures Inv(s.(tasks := tasks))
  {
    hide Operations, Settled, Counted;
    var after := s.(tasks := tasks);
    assert MapsPoint(after);
    forall r | 0 <= r < |s.runtimes|
      ensures Placed(after, r)
    {
      assert Placed(s, r);
    }
  }

  lemma {:induction false} TaskStep(s: State, k: nat, task: Task)
    requires Inv(s) && k < |s.tasks|
    requires !s.tasks[k].Operating? && !task.Operating? && TaskPoints(s, task)
    ensures Inv(WithTask(s, k, task))
  {
    hide Inv, Operations, Placed, MapsPoint;
    forall r | 0 <= r < |s.runtimes|
      ensures Operations(s.tasks[k := task], r) == Operations(s.tasks, r)
    {
      OperationsUpdate(s.tasks, k, task, r);
    }
    InvParts(s);
    TasksStep(s, s.tasks[k := task]);
  }

  lemma {:induction false} InvParts(s: State)
    requires Inv(s)
    ensures MapsPoint(s)
    ensures forall r | 0 <= r < |s.runtimes| :: Placed(s, r)
    ensures forall k | 0 <= k < |s.tasks| :: TaskPoints(s, s.tasks[k])
  {
    hide MapsPoint, Placed, TaskPoints;
  }

  lemma {:induction false} CallStep(s: State, task: Task)
    requires Inv(s) && !task.Operating? && TaskPoints(s, task)
    ensures Inv(s.(tasks := s.tasks + [task]))
  {
    hide Inv, Operations, Placed, MapsPoint;
    forall r | 0 <= r < |s.runtimes|
      ensures Operations(s.tasks + [task], r) == Operations(s.tasks, r)
    {
      OperationsAppend(s.tasks, task, r);
    }
    InvParts(s);
    TasksStep(s, s.tasks + [task]);
  }

  lemma {:induction false} CreateStep(s: State, id: Id)
    requires Inv(s) && id !in s.liveSessions && id !in s.openingSessions
    ensures Inv(s.(runtimes := s.runtimes + [Runtime(id, Requested, None, 0)],
                   openingSessions := s.openingSessions[id := |s.runtimes|]))
  {
    hide Operations;
    var r := |s.runtimes|;
    var after := s.(runtimes := s.runtimes + [Runtime(id, Requested, None, 0)],
                    openingSessions := s.openingSessions[id := r]);
    forall q | 0 <= q < |after.runtimes|
      ensures Placed(after, q)
    {
      if q < r {
        assert Placed(s, q);
      }
    }
    forall k | 0 <= k < |after.tasks|
      ensures TaskPoints(after, after.tasks[k])
    {
      assert TaskPoints(s, s.tasks[k]);
    }
  }

  /** One runtime changes and keeps its identity and its operations; the maps stay. */
  lemma {:induction false} RuntimeStep(s: State, r: nat, runtime: Runtime)
    requires Inv(s) && r < |s.runtimes|
    requires runtime.id == s.runtimes[r].id && (s.runtimes[r].live.Some? ==> runtime.live.Some?)
    requires Placed(WithRuntime(s, r, runtime), r)
    ensures Inv(WithRuntime(s, r, runtime))
  {
    hide Operations, Counted, Settled;
    var after := WithRuntime(s, r, runtime);
    assert MapsPoint(after);
    forall q | 0 <= q < |s.runtimes|
      ensures Placed(after, q)
    {
      assert Placed(s, q);
    }
    forall k | 0 <= k < |after.tasks|
      ensures TaskPoints(after, after.tasks[k])
    {
      assert TaskPoints(s, s.tasks[k]);
    }
  }

  lemma {:induction false} AcquireKeeps(s: State, k: nat, conn: Conn, id: Id)
    requires Inv(s) && k < |s.tasks| && !s.tasks[k].Operating?
    ensures Inv(AcquireStep(s, k, conn, id))
  {
    hide Placed, Operations;
    InvParts(s);
    if id in s.liveSessions {
      var r := s.liveSessions[id];
      TaskStep(s, k, Finished);
      TaskStep(s, k, AwaitingDisposal(conn, id, r));
      if s.runtimes[r].live.Some? {
        TaskStep(s, k, Attaching(conn, r));
      }
    } else if id in s.openingSessions {
      TaskStep(s, k, AwaitingOpening(conn, s.openingSessions[id]));
    } else {
      var r := |s.runtimes|;
      CreateStep(s, id);
      TaskStep(s.(runtimes := s.runtimes + [Runtime(id, Requested, None, 0)],
                  openingSessions := s.openingSessions[id := r]), k, AwaitingOpening(conn, r));
    }
  }

  lemma {:induction false} ServiceKeeps(s: State, r: nat, ok: bool)
    requires Inv(s) && r < |s.runtimes| && s.runtimes[r].stage == Requested
    ensures Inv(ServiceStep(s, r, ok))
  {
    hide Inv, Operations;
    InvParts(s);
    assert Placed(s, r);
    var runtime := s.runtimes[r];
    if !ok {
      RuntimeStep(s, r, runtime.(stage := Refused));
    } else if s.closing != NotClosing {
      RuntimeStep(s, r, Dispose(runtime));
    } else {
      RuntimeStep(s, r, runtime.(stage := Snapshotting));
    }
  }

  lemma {:induction false} SnapshotKeeps(s: State, r: nat, ok: bool, fails: bool)
    requires Inv(s) && r < |s.runtimes| && s.runtimes[r].stage == Snapshotting
    ensures Inv(SnapshotStep(s, r, ok, fails))
  {
    hide Operations;
    assert Placed(s, r);
    if !ok {
      RuntimeStep(s, r, Dispose(s.runtimes[r]));
    } else {
      var after := SnapshotStep(s, r, ok, fails);
      NothingOperates(s, r);
      forall q | 0 <= q < |s.runtimes|
        ensures Placed(after, q)
      {
        assert Placed(s, q);
      }
      forall k | 0 <= k < |after.tasks|
        ensures TaskPoints(after, after.tasks[k])
      {
        assert TaskPoints(s, s.tasks[k]);
      }
    }
  }

  /** A runtime that is not live yet has no operations. */
  lemma {:induction false} NothingOperates(s: State, r: nat)
    requires r < |s.runtimes| && s.runtimes[r].live.None?
    requires forall k | 0 <= k < |s.tasks| :: TaskPoints(s, s.tasks[k])
    ensures Operations(s.tasks, r) == 0
  {
    NothingCounted(s, r, |s.tasks|);
    assert s.tasks[..|s.tasks|] == s.tasks;
  }

  lemma {:induction false} NothingCounted(s: State, r: nat, n: nat)
    requires r < |s.runtimes| && s.runtimes[r].live.None? && n <= |s.tasks|
    requires forall k | 0 <= k < n :: TaskPoints(s, s.tasks[k])
    ensures Operations(s.tasks[..n], r) == 0
  {
    if n > 0 {
      NothingCounted(s, r, n - 1);
      assert s.tasks[..n][..n - 1] == s.tasks[..n - 1];
      assert TaskPoints(s, s.tasks[n - 1]);
    }
  }

  lemma {:induction false} OpeningSettlesKeeps(s: State, id: Id)
    requires Inv(s) && id in s.openingSessions && AllSettled(s, {s.openingSessions[id]})
    ensures Inv(s.(openingSessions := s.openingSessions - {id}))
  {
    hide Operations, Counted;
    var after := s.(openingSessions := s.openingSessions - {id});
    assert s.openingSessions[id] in {s.openingSessions[id]};
    forall q | 0 <= q < |s.runtimes|
      ensures Placed(after, q)
    {
      assert Placed(s, q);
    }
    forall k | 0 <= k < |after.tasks|
      ensures TaskPoints(after, after.tasks[k])
    {
      assert TaskPoints(s, s.tasks[k]);
    }
  }

  lemma {:induction false} AttachedKeeps(s: State, attached: set<(Conn, Id)>)
    requires Inv(s)
    ensures Inv(s.(attached := attached))
  {
    hide Operations, Counted, Settled;
    var after := s.(attached := attached);
    forall q | 0 <= q < |s.runtimes|
      ensures Placed(after, q)
    {
      assert Placed(s, q);
    }
    forall k | 0 <= k < |after.tasks|
      ensures TaskPoints(after, after.tasks[k])
    {
      assert TaskPoints(s, s.tasks[k]);
    }
  }

  lemma {:induction false} AttachKeeps(s: State, k: nat, conn: Conn, r: nat, usable: bool)
    requires Inv(s) && k < |s.tasks| && !s.tasks[k].Operating?
    ensures Inv(AttachStep(s, k, conn, r, usable))
  {
    hide Inv, Operations;
    TaskStep(s, k, Finished);
    if usable && r < |s.runtimes| && s.runtimes[r].live.Some? {
      var live := s.runtimes[r].live.value;
      var t := WithTask(s, k, Finished);
      InvParts(t);
      assert Placed(t, r);
      var runtime := s.runtimes[r].(live := Some(live.(connections := live.connections + {conn})));
      RuntimeStep(t, r, runtime);
      AttachedKeeps(WithRuntime(t, r, runtime), s.attached + {(conn, s.runtimes[r].id)});
    }
  }

  /** An operation starts or ends: the count of one runtime moves with its tasks. */
  lemma {:induction false} OperationStep(s: State, r: nat, runtime: Runtime, tasks: seq<Task>)
    requires Inv(s) && r < |s.runtimes|
    requires runtime.id == s.runtimes[r].id && (s.runtimes[r].live.Some? ==> runtime.live.Some?)
    requires forall q | 0 <= q < |s.runtimes| && q != r :: Operations(tasks, q) == Operations(s.tasks, q)
    requires forall k | 0 <= k < |tasks| :: TaskPoints(s, tasks[k])
    requires Placed(WithRuntime(s, r, runtime).(tasks := tasks), r)
    ensures Inv(WithRuntime(s, r, runtime).(tasks := tasks))
  {
    hide Operations, Counted, Settled;
    var after := WithRuntime(s, r, runtime).(tasks := tasks);
    assert MapsPoint(after);
    forall q | 0 <= q < |s.runtimes|
      ensures Placed(after, q)
    {
      if q != r {
        assert Placed(s, q);
      }
    }
    forall k | 0 <= k < |tasks|
      ensures TaskPoints(after, after.tasks[k])
    {
      assert TaskPoints(s, tasks[k]);
    }
  }

  lemma {:induction false} OperateKeeps(s: State, conn: Conn, id: Id)
    requires Inv(s)
    ensures Inv(OperateStep(s, conn, id))
  {
    hide Operations, Inv;
    InvParts(s);
    if (conn, id) in s.attached && id in s.liveSessions {
      var r := s.liveSessions[id];
      assert Placed(s, r);
      if s.runtimes[r].live.Some? && !s.runtimes[r].live.value.terminal && !s.runtimes[r].live.value.disposing {
        var live := s.runtimes[r].live.value;
        forall q | 0 <= q < |s.runtimes|
          ensures Operations(s.tasks + [Operating(conn, r)], q) ==
                  Operations(s.tasks, q) + Bit(Operating(conn, r), q)
        {
          OperationsAppend(s.tasks, Operating(conn, r), q);
        }
        OperationStep(s, r, s.runtimes[r].(live := Some(live.(operationCount := live.operationCount + 1))),
                      s.tasks + [Operating(conn, r)]);
      }
    }
  }

  lemma {:induction false} FinishKeeps(s: State, k: nat)
    requires Inv(s) && k < |s.tasks| && s.tasks[k].Operating?
    ensures Inv(FinishStep(s, k, s.tasks[k].runtime))
  {
    hide Operations, Inv;
    InvParts(s);
    var r := s.tasks[k].runtime;
    assert TaskPoints(s, s.tasks[k]);
    assert Placed(s, r);
    OperatingIsCounted(s.tasks, k, r);
    var live := s.runtimes[r].live.value;
    forall q | 0 <= q < |s.runtimes|
      ensures Operations(s.tasks[k := Finished], q) + Bit(s.tasks[k], q) == Operations(s.tasks, q)
    {
      OperationsUpdate(s.tasks, k, Finished, q);
    }
    OperationStep(s, r, s.runtimes[r].(live := Some(live.(operationCount := live.operationCount - 1))),
                  s.tasks[k := Finished]);
  }

  /** Connections leave any number of runtimes. */
  lemma {:induction false} LeaveKeeps(s: State, runtimes: seq<Runtime>)
    requires Inv(s) && |runtimes| == |s.runtimes|
    requires forall r | 0 <= r < |runtimes| ::
               runtimes[r] == s.runtimes[r]
               || (s.runtimes[r].live.Some?
                   && exists connections ::
                        runtimes[r] == s.runtimes[r].(live :=
                          Some(s.runtimes[r].live.value.(connections := connections))))
    ensures Inv(s.(runtimes := runtimes))
  {
    hide Operations;
    var after := s.(runtimes := runtimes);
    assert forall r | 0 <= r < |runtimes| :: runtimes[r].id == s.runtimes[r].id;
    assert MapsPoint(after);
    forall q | 0 <= q < |s.runtimes|
      ensures Placed(after, q)
    {
      assert Placed(s, q);
    }
    forall k | 0 <= k < |after.tasks|
      ensures TaskPoints(after, after.tasks[k])
    {
      assert TaskPoints(s, s.tasks[k]);
    }
  }

  lemma {:induction false} DetachKeeps(s: State, conn: Conn, id: Id)
    requires Inv(s)
    ensures Inv(DetachStep(s, conn, id))
  {
    hide Inv, Operations, Placed, TaskPoints;
    if (conn, id) in s.attached {
      AttachedKeeps(s, s.attached - {(conn, id)});
      if id in s.liveSessions && s.liveSessions[id] < |s.runtimes| {
        var r := s.liveSessions[id];
        LeaveKeeps(s, s.runtimes[r := LeaveOne(s, conn, r)]);
        AttachedKeeps(s.(runtimes := s.runtimes[r := LeaveOne(s, conn, r)]), s.attached - {(conn, id)});
      }
    }
  }

  lemma {:induction false} DisconnectKeeps(s: State, conn: Conn, attached: set<(Conn, Id)>)
    requires Inv(s)
    ensures Inv(s.(runtimes := LeaveAll(s, conn, |s.runtimes|), attached := attached))
  {
    hide Inv, Operations, Placed, TaskPoints;
    LeaveKeeps(s, LeaveAll(s, conn, |s.runtimes|));
    AttachedKeeps(s.(runtimes := LeaveAll(s, conn, |s.runtimes|)), attached);
  }

  lemma {:induction false} TerminateKeeps(s: State, r: nat)
    requires Inv(s) && r < |s.runtimes| && s.runtimes[r].live.Some?
    ensures Inv(WithRuntime(s, r, s.runtimes[r].(live := Some(s.runtimes[r].live.value.(terminal := true)))))
  {
    hide Inv, Operations;
    InvParts(s);
    assert Placed(s, r);
    RuntimeStep(s, r, s.runtimes[r].(live := Some(s.runtimes[r].live.value.(terminal := true))));
  }

  lemma {:induction false} DisposeKeeps(s: State, r: nat, idle: bool)
    requires Inv(s) && r < |s.runtimes|
    ensures Inv(DisposeStep(s, r, idle))
  {
    hide Inv, Operations;
    InvParts(s);
    assert Placed(s, r);
    var runtime := s.runtimes[r];
    if runtime.live.Some? && !Kept(s, runtime.live.value, idle) {
      RuntimeStep(s, r, Dispose(runtime.(live := Some(runtime.live.value.(disposing := true)))));
    }
  }

  lemma {:induction false} GoneKeeps(s: State, r: nat)
    requires Inv(s) && r < |s.runtimes| && s.runtimes[r].stage == BeingDisposed
    ensures Inv(GoneStep(s, r))
  {
    hide Operations;
    var after := GoneStep(s, r);
    assert Placed(s, r);
    assert MapsPoint(after);
    forall q | 0 <= q < |s.runtimes|
      ensures Placed(after, q)
    {
      assert Placed(s, q);
    }
    forall k | 0 <= k < |after.tasks|
      ensures TaskPoints(after, after.tasks[k])
    {
      assert TaskPoints(s, s.tasks[k]);
    }
  }

  lemma {:induction false} ClosingKeeps(s: State, closing: Closing)
    requires Inv(s)
    requires (s.closing == NotClosing && closing == Began)
             || (s.closing == Began && closing == Waiting(s.openingSessions.Values))
    ensures Inv(s.(closing := closing))
  {
    hide Operations;
    var after := s.(closing := closing);
    forall q | 0 <= q < |s.runtimes|
      ensures Placed(after, q)
    {
      assert Placed(s, q);
      if s.runtimes[q].stage == Snapshotting {
        assert s.runtimes[q].id in s.openingSessions && s.openingSessions[s.runtimes[q].id] == q;
      }
    }
    forall k | 0 <= k < |after.tasks|
      ensures TaskPoints(after, after.tasks[k])
    {
      assert TaskPoints(s, s.tasks[k]);
    }
  }

  lemma {:induction false} CloseKeeps(s: State)
    requires Inv(s) && s.closing.Waiting? && AllSettled(s, s.closing.openings)
    ensures Inv(s.(runtimes := CloseAll(s, |s.runtimes|), liveSessions := map[], closing := Closed))
  {
    hide Operations;
    var after := s.(runtimes := CloseAll(s, |s.runtimes|), liveSessions := map[], closing := Closed);
    assert forall r | 0 <= r < |s.runtimes| :: after.runtimes[r] == CloseOne(s, r);
    assert MapsPoint(after);
    forall q | 0 <= q < |s.runtimes|
      ensures Placed(after, q)
    {
      assert Placed(s, q);
    }
    forall k | 0 <= k < |after.tasks|
      ensures TaskPoints(after, after.tasks[k])
    {
      assert TaskPoints(s, s.tasks[k]);
    }
  }

  lemma {:induction false} TaskMoves(s: State, step: Step)
    requires Inv(s) && (step.DisposalAwaited? || step.OpeningAwaited?)
    ensures Inv(Next(s, step))
  {
    hide Inv, Operations, Placed;
    InvParts(s);
    var k := step.task;
    if k < |s.tasks| && !s.tasks[k].Operating? {
      TaskStep(s, k, Finished);
      if s.tasks[k].AwaitingDisposal? {
        TaskStep(s, k, Acquiring(s.tasks[k].conn, s.tasks[k].id));
      }
      if s.tasks[k].AwaitingOpening? && s.tasks[k].runtime < |s.runtimes|
         && s.runtimes[s.tasks[k].runtime].live.Some? {
        TaskStep(s, k, Attaching(s.tasks[k].conn, s.tasks[k].runtime));
      }
    }
  }

  lemma {:induction false} NextKeeps(s: State, step: Step)
    requires Inv(s)
    ensures Inv(Next(s, step))
  {
    hide Inv, AcquireStep, ServiceStep, SnapshotStep, AttachStep, OperateStep, FinishStep, DetachStep, DisposeStep,
      GoneStep, AllSettled, Settled, WithTask;
    match step
    case Call(conn, id) => CallStep(s, Acquiring(conn, id));
    case Acquire(k) =>
      if k < |s.tasks| && s.tasks[k].Acquiring? { AcquireKeeps(s, k, s.tasks[k].conn, s.tasks[k].id); }
    case ServiceReturns(r, ok) =>
      if r < |s.runtimes| && s.runtimes[r].stage == Requested { ServiceKeeps(s, r, ok); }
    case SnapshotReturns(r, ok, fails) =>
      if r < |s.runtimes| && s.runtimes[r].stage == Snapshotting { SnapshotKeeps(s, r, ok, fails); }
    case OpeningSettles(id) =>
      if id in s.openingSessions && AllSettled(s, {s.openingSessions[id]}) { OpeningSettlesKeeps(s, id); }
    case DisposalAwaited(_, _) => TaskMoves(s, step);
    case OpeningAwaited(_) => TaskMoves(s, step);
    case Attach(k, usable) =>
      if k < |s.tasks| && s.tasks[k].Attaching? { AttachKeeps(s, k, s.tasks[k].conn, s.tasks[k].runtime, usable); }
    case StartOperation(conn, id) => OperateKeeps(s, conn, id);
    case FinishOperation(k) =>
      if k < |s.tasks| && s.tasks[k].Operating? { FinishKeeps(s, k); }
    case Detach(conn, id) => DetachKeeps(s, conn, id);
    case Disconnect(conn) => DisconnectKeeps(s, conn, set a | a in s.attached && a.0 != conn);
    case Terminate(r) =>
      if r < |s.runtimes| && s.runtimes[r].live.Some? { TerminateKeeps(s, r); }
    case MaybeDispose(r, idle) =>
      if r < |s.runtimes| { DisposeKeeps(s, r, idle); }
    case DisposeSettles(r) =>
      if r < |s.runtimes| && s.runtimes[r].stage == BeingDisposed { GoneKeeps(s, r); }
    case BeginClosing =>
      if s.closing == NotClosing { ClosingKeeps(s, Began); }
    case StartClose =>
      if s.closing == Began { ClosingKeeps(s, Waiting(s.openingSessions.Values)); }
    case FinishClose =>
      if s.closing.Waiting? && AllSettled(s, s.closing.openings) { CloseKeeps(s); }
  }

  lemma {:induction false} ReachedKeeps(steps: seq<Step>)
    ensures Inv(Reached(steps))
  {
    hide Next;
    if steps != [] {
      hide Inv;
      ReachedKeeps(steps[..|steps| - 1]);
      NextKeeps(Reached(steps[..|steps| - 1]), steps[|steps| - 1]);
    }
  }

  // ---- what every run keeps ----

  /** From the service call until `dispose()` has settled. */
  predicate Outstanding(r: Runtime) { r.stage != Refused && r.stage != Gone }

  /** Until close has cleared the map, a session has at most one outstanding runtime, whatever the
      connections do. */
  lemma {:induction false} OneRuntimePerSession(steps: seq<Step>, a: nat, b: nat)
    requires var s := Reached(steps);
             && s.closing != Closed && a < |s.runtimes| && b < |s.runtimes|
             && Outstanding(s.runtimes[a]) && Outstanding(s.runtimes[b])
             && s.runtimes[a].id == s.runtimes[b].id
    ensures a == b
  {
    hide Reached, Operations;
    var s := Reached(steps);
    ReachedKeeps(steps);
    assert Placed(s, a) && Placed(s, b);
  }

  predicate OneOutstanding(s: State) {
    forall a, b | 0 <= a < |s.runtimes| && 0 <= b < |s.runtimes| ::
      Outstanding(s.runtimes[a]) && Outstanding(s.runtimes[b]) && s.runtimes[a].id == s.runtimes[b].id ==> a == b
  }

  predicate HasOutstanding(s: State, id: Id) {
    exists r | 0 <= r < |s.runtimes| :: s.runtimes[r].id == id && Outstanding(s.runtimes[r])
  }

  /** An acquisition that finds its session in neither map and calls the service while a runtime
      of that session is outstanding. */
  predicate Reopens(s: State, step: Step) {
    && step.Acquire? && step.task < |s.tasks| && s.tasks[step.task].Acquiring?
    && var id := s.tasks[step.task].id;
       id !in s.liveSessions && id !in s.openingSessions && HasOutstanding(s, id)
  }

  predicate HasConnections(r: Runtime) { r.live.Some? && r.live.value.connections != {} }

  predicate MovesStage(step: Step) {
    step.ServiceReturns? || step.SnapshotReturns? || step.MaybeDispose? || step.DisposeSettles? || step.FinishClose?
  }

  /** All other steps leave a runtime in its stage, and only attaching adds connections. */
  lemma {:induction false} StageStays(s: State, step: Step, r: nat)
    requires r < |Next(s, step).runtimes| && !MovesStage(step)
    requires step.Acquire? ==> r < |s.runtimes|
    ensures var after := Next(s, step).runtimes[r];
            && r < |s.runtimes| && after.stage == s.runtimes[r].stage && after.id == s.runtimes[r].id
            && (HasConnections(after) && !step.Attach? ==> HasConnections(s.runtimes[r]))
  {
    hide AllSettled, Settled;
  }

  /** No step but an acquisition calls the service, and no runtime becomes outstanding again. */
  lemma {:induction false} OutstandingStays(s: State, step: Step, r: nat)
    requires Inv(s) && r < |Next(s, step).runtimes| && Outstanding(Next(s, step).runtimes[r])
    requires step.Acquire? ==> r < |s.runtimes|
    ensures r < |s.runtimes| && Outstanding(s.runtimes[r]) && Next(s, step).runtimes[r].id == s.runtimes[r].id
  {
    if MovesStage(step) {
      hide Inv, AllSettled, Operations;
      InvParts(s);
      assert r < |s.runtimes| ==> Placed(s, r);
    } else {
      hide Next, Inv;
      StageStays(s, step, r);
    }
  }

  /** In every state, also after close, a step keeps one outstanding runtime a session exactly
      when it does not open a session that still has one. */
  lemma {:induction false} OneOutstandingExactly(s: State, step: Step)
    requires Inv(s) && OneOutstanding(s)
    ensures OneOutstanding(Next(s, step)) <==> !Reopens(s, step)
  {
    hide Next, Inv;
    var after := Next(s, step);
    if step.Acquire? {
      AcquireOpens(s, step.task);
    }
    if Reopens(s, step) {
      var id := s.tasks[step.task].id;
      var r :| 0 <= r < |s.runtimes| && s.runtimes[r].id == id && Outstanding(s.runtimes[r]);
      assert after.runtimes[r] == s.runtimes[r] && after.runtimes[|s.runtimes|].id == id;
    } else {
      forall a, b | 0 <= a < |after.runtimes| && 0 <= b < |after.runtimes|
                    && Outstanding(after.runtimes[a]) && Outstanding(after.runtimes[b])
                    && after.runtimes[a].id == after.runtimes[b].id
        ensures a == b
      {
        if !step.Acquire? || (a < |s.runtimes| && b < |s.runtimes|) {
          OutstandingStays(s, step, a);
          OutstandingStays(s, step, b);
        }
      }
    }
  }

  /** An acquisition opens a session that is in neither map, and otherwise leaves the runtimes. */
  lemma {:induction false} AcquireOpens(s: State, k: nat)
    ensures var after := Next(s, Acquire(k));
            after.runtimes ==
            if k < |s.tasks| && s.tasks[k].Acquiring?
               && s.tasks[k].id !in s.liveSessions && s.tasks[k].id !in s.openingSessions then
              s.runtimes + [Runtime(s.tasks[k].id, Requested, None, 0)]
            else s.runtimes
  {
  }

  /** A property holds in every state of a run. */
  predicate Throughout(steps: seq<Step>, holds: State -> bool) {
    holds(Reached(steps)) && (steps == [] || Throughout(steps[..|steps| - 1], holds))
  }

  /** No step of a run breaks a property. */
  predicate Unbroken(steps: seq<Step>, breaks: (State, Step) -> bool) {
    steps == []
    || (!breaks(Reached(steps[..|steps| - 1]), steps[|steps| - 1]) && Unbroken(steps[..|steps| - 1], breaks))
  }

  /** What a step keeps exactly when it does not break it holds throughout a run exactly when no
      step of the run breaks it. */
  lemma {:induction false} ThroughoutRuns(steps: seq<Step>, holds: State -> bool, breaks: (State, Step) -> bool)
    requires holds(INITIAL)
    requires forall s, step | Inv(s) && holds(s) :: holds(Next(s, step)) <==> !breaks(s, step)
    ensures Throughout(steps, holds) <==> Unbroken(steps, breaks)
  {
    hide Next, Inv;
    if steps != [] {
      var before := steps[..|steps| - 1];
      ThroughoutRuns(before, holds, breaks);
      ReachedKeeps(before);
      assert Reached(steps) == Next(Reached(before), steps[|steps| - 1]);
    }
  }

  /** Over whole runs: every session has at most one outstanding runtime all the time exactly when
      no step of the run reopens one. */
  lemma {:induction false} OneOutstandingRuns(steps: seq<Step>)
    ensures Throughout(steps, OneOutstanding) <==> Unbroken(steps, Reopens)
  {
    hide Reopens, Next, Inv;
    forall s, step | Inv(s) && OneOutstanding(s)
      ensures OneOutstanding(Next(s, step)) <==> !Reopens(s, step)
    {
      OneOutstandingExactly(s, step);
    }
    ThroughoutRuns(steps, OneOutstanding, Reopens);
  }

  /** Until close has cleared the map, no call is operating on a runtime that is being or has been
      disposed. */
  lemma {:induction false} NoDisposalUnderOperation(steps: seq<Step>, k: nat)
    requires var s := Reached(steps);
             s.closing != Closed && k < |s.tasks| && s.tasks[k].Operating?
    ensures var s := Reached(steps);
            s.tasks[k].runtime < |s.runtimes| && s.runtimes[s.tasks[k].runtime].stage == InUse
  {
    hide Reached, Operations;
    var s := Reached(steps);
    ReachedKeeps(steps);
    assert TaskPoints(s, s.tasks[k]);
    assert Placed(s, s.tasks[k].runtime);
    OperatingIsCounted(s.tasks, k, s.tasks[k].runtime);
  }

  predicate OperationsInUse(s: State) {
    forall k | 0 <= k < |s.tasks| && s.tasks[k].Operating? ::
      s.tasks[k].runtime < |s.runtimes| && s.runtimes[s.tasks[k].runtime].stage == InUse
  }

  /** Close disposes while a call is operating. */
  predicate ClosesOverOperation(s: State, step: Step) {
    && step == FinishClose && s.closing.Waiting? && AllSettled(s, s.closing.openings)
    && exists k | 0 <= k < |s.tasks| :: s.tasks[k].Operating?
  }

  /** After close no call is admitted any more. */
  lemma {:induction false} NoneAdmittedAfterClose(s: State, step: Step, k: nat)
    requires Inv(s) && s.closing == Closed && (forall q | 0 <= q < |s.tasks| :: !s.tasks[q].Operating?)
    requires k < |Next(s, step).tasks|
    ensures !Next(s, step).tasks[k].Operating?
  {
    if step.StartOperation? {
      hide Operations;
      if step.id in s.liveSessions {
        assert Placed(s, s.liveSessions[step.id]);
      }
    } else {
      hide Inv, AllSettled, Settled, WithRuntime, Kept;
    }
  }

  /** No step but close takes a runtime out of use under an operation. */
  lemma {:induction false} OperationStays(s: State, step: Step, k: nat)
    requires Inv(s) && OperationsInUse(s) && step != FinishClose
    requires k < |Next(s, step).tasks| && Next(s, step).tasks[k].Operating?
    ensures var after := Next(s, step);
            after.tasks[k].runtime < |after.runtimes| && after.runtimes[after.tasks[k].runtime].stage == InUse
  {
    var after := Next(s, step);
    NextKeeps(s, step);
    ClosedOnlyByClose(s, step);
    if s.closing == Closed {
      hide Next, Operations;
      forall r | 0 <= r < |s.runtimes|
        ensures s.runtimes[r].stage != InUse
      {
        assert Placed(s, r);
      }
      NoneAdmittedAfterClose(s, step, k);
    } else {
      hide Next, Operations;
      assert TaskPoints(after, after.tasks[k]);
      assert Placed(after, after.tasks[k].runtime);
      OperatingIsCounted(after.tasks, k, after.tasks[k].runtime);
    }
  }

  lemma {:induction false} ClosedOnlyByClose(s: State, step: Step)
    requires step != FinishClose
    ensures Next(s, step).closing == Closed <==> s.closing == Closed
  {
    hide Kept, AllSettled, Settled;
  }

  /** In every state, also after close, a step keeps every operation on a runtime in use exactly
      when it is not a close over a running operation. */
  lemma {:induction false} OperationsInUseExactly(s: State, step: Step)
    requires Inv(s) && OperationsInUse(s)
    ensures OperationsInUse(Next(s, step)) <==> !ClosesOverOperation(s, step)
  {
    var after := Next(s, step);
    if step == FinishClose {
      if s.closing.Waiting? && AllSettled(s, s.closing.openings) {
        CloseEndsUse(s);
      }
    } else {
      hide Next, Inv, Operations;
      forall k | 0 <= k < |after.tasks| && after.tasks[k].Operating?
        ensures after.tasks[k].runtime < |after.runtimes| && after.runtimes[after.tasks[k].runtime].stage == InUse
      {
        OperationStays(s, step, k);
      }
    }
  }

  lemma {:induction false} CloseEndsUse(s: State)
    requires Inv(s) && s.closing.Waiting? && AllSettled(s, s.closing.openings)
    ensures var after := Next(s, FinishClose);
            && after.tasks == s.tasks && after.attached == s.attached && |after.runtimes| == |s.runtimes|
            && forall r | 0 <= r < |s.runtimes| ::
                 after.runtimes[r].stage != InUse && after.runtimes[r].live == s.runtimes[r].live
  {
    hide Operations;
    var after := Next(s, FinishClose);
    forall r | 0 <= r < |s.runtimes|
      ensures after.runtimes[r].stage != InUse && after.runtimes[r].live == s.runtimes[r].live
    {
      assert Placed(s, r);
      assert after.runtimes[r] == CloseOne(s, r);
    }
  }

  lemma {:induction false} OperationsInUseRuns(steps: seq<Step>)
    ensures Throughout(steps, OperationsInUse) <==> Unbroken(steps, ClosesOverOperation)
  {
    hide ClosesOverOperation, Next, Inv;
    forall s, step | Inv(s) && OperationsInUse(s)
      ensures OperationsInUse(Next(s, step)) <==> !ClosesOverOperation(s, step)
    {
      OperationsInUseExactly(s, step);
    }
    ThroughoutRuns(steps, OperationsInUse, ClosesOverOperation);
  }

  /** Whoever is attached to a runtime is attached to one in use. */
  predicate AttachedInUse(s: State) {
    forall r | 0 <= r < |s.runtimes| :: HasConnections(s.runtimes[r]) ==> s.runtimes[r].stage == InUse
  }

  /** A connection is attached to a session whose disposal has begun, which `attach` does not look
      at again, or close disposes a session under its connections. */
  predicate Strays(s: State, step: Step) {
    match step
    case Attach(k, usable) =>
      && usable && k < |s.tasks| && s.tasks[k].Attaching?
      && var r := s.tasks[k].runtime;
         && r < |s.runtimes| && s.runtimes[r].live.Some?
         && (s.runtimes[r].live.value.disposing || s.closing == Closed)
    case FinishClose =>
      && s.closing.Waiting? && AllSettled(s, s.closing.openings)
      && exists r | 0 <= r < |s.runtimes| :: HasConnections(s.runtimes[r])
    case _ => false
  }

  /** The connections a step leaves were there before, unless it attaches one, and a runtime with
      connections is disposed by nothing but close. */
  lemma {:induction false} UseStays(s: State, step: Step, r: nat)
    requires Inv(s) && AttachedInUse(s) && !step.Attach? && step != FinishClose
    requires r < |Next(s, step).runtimes| && HasConnections(Next(s, step).runtimes[r])
    ensures Next(s, step).runtimes[r].stage == InUse
  {
    if MovesStage(step) {
      hide Inv, AllSettled, Operations;
      InvParts(s);
      assert r < |s.runtimes| ==> Placed(s, r);
    } else {
      hide Next, Inv;
      StageStays(s, step, r);
    }
  }

  /** In every state, a step keeps whoever is attached on runtimes in use exactly when it does not
      stray: the guard that `attach` lacks is the exact condition. */
  lemma {:induction false} AttachedExactly(s: State, step: Step)
    requires Inv(s) && AttachedInUse(s)
    ensures AttachedInUse(Next(s, step)) <==> !Strays(s, step)
  {
    if step == FinishClose {
      if s.closing.Waiting? && AllSettled(s, s.closing.openings) {
        CloseEndsUse(s);
        hide Next;
        var after := Next(s, step);
        assert forall r | 0 <= r < |s.runtimes| :: HasConnections(after.runtimes[r]) == HasConnections(s.runtimes[r]);
      }
    } else if step.Attach? {
      AttachStrays(s, step.task, step.usable);
    } else {
      hide Next, Inv;
      forall r | 0 <= r < |Next(s, step).runtimes| && HasConnections(Next(s, step).runtimes[r])
        ensures Next(s, step).runtimes[r].stage == InUse
      {
        UseStays(s, step, r);
      }
    }
  }

  lemma {:induction false} AttachStrays(s: State, k: nat, usable: bool)
    requires Inv(s) && AttachedInUse(s)
    ensures AttachedInUse(Next(s, Attach(k, usable))) <==> !Strays(s, Attach(k, usable))
  {
    hide Operations;
    if usable && k < |s.tasks| && s.tasks[k].Attaching? {
      var conn, r := s.tasks[k].conn, s.tasks[k].runtime;
      assert TaskPoints(s, s.tasks[k]) && Placed(s, r);
      var after := Next(s, Attach(k, usable));
      assert conn in after.runtimes[r].live.value.connections;
      assert forall q | 0 <= q < |s.runtimes| && q != r :: after.runtimes[q] == s.runtimes[q];
    }
  }

  /** Over whole runs: whoever is attached stays on a runtime in use exactly when no step strays. */
  lemma {:induction false} AttachedRuns(steps: seq<Step>)
    ensures Throughout(steps, AttachedInUse) <==> Unbroken(steps, Strays)
  {
    hide Strays, Next, Inv;
    forall s, step | Inv(s) && AttachedInUse(s)
      ensures AttachedInUse(Next(s, step)) <==> !Strays(s, step)
    {
      AttachedExactly(s, step);
    }
    ThroughoutRuns(steps, AttachedInUse, Strays);
  }

  predicate Holds(r: Runtime, conn: Conn) { r.live.Some? && conn in r.live.value.connections }

  predicate Counts(s: State, conn: Conn, id: Id) {
    id in s.liveSessions && s.liveSessions[id] < |s.runtimes| && Holds(s.runtimes[s.liveSessions[id]], conn)
  }

  /** A connection's own record names a session exactly when the session that is live under that
      name counts it among its connections. */
  ghost predicate SidesAgree(s: State) {
    forall conn: Conn, id: Id :: (conn, id) in s.attached <==> Counts(s, conn, id)
  }

  /** The two sides of an attachment agree as long as no step strays. */
  lemma {:induction false} SidesStayAgreed(s: State, step: Step)
    requires Inv(s) && AttachedInUse(s) && SidesAgree(s) && !Strays(s, step)
    ensures SidesAgree(Next(s, step))
  {
    hide Next;
    var after := Next(s, step);
    forall conn: Conn, id: Id
      ensures (conn, id) in after.attached <==> Counts(after, conn, id)
    {
      SideStaysAgreed(s, step, conn, id);
    }
  }

  lemma {:induction false} SideStaysAgreed(s: State, step: Step, conn: Conn, id: Id)
    requires Inv(s) && AttachedInUse(s) && SidesAgree(s) && !Strays(s, step)
    ensures (conn, id) in Next(s, step).attached <==> Counts(Next(s, step), conn, id)
  {
    hide Operations, AllSettled, Settled;
    assert (conn, id) in s.attached <==> Counts(s, conn, id);
    if step.Attach? {
      SideOfAttaching(s, step.task, step.usable, conn, id);
    } else if step.Detach? || step.Disconnect? {
      hide AttachedInUse;
      SideOfLeaving(s, step, conn, id);
    } else if step == FinishClose {
      if Counts(s, conn, id) {
        assert HasConnections(s.runtimes[s.liveSessions[id]]);
      }
    } else if step.SnapshotReturns? {
      SideOfOpening(s, step, conn, id);
    } else if step.DisposeSettles? {
      SideOfDisposed(s, step.runtime, conn, id);
    } else {
      SideOfOthers(s, step, conn, id);
    }
  }

  lemma {:induction false} SideOfAttaching(s: State, k: nat, usable: bool, conn: Conn, id: Id)
    requires Inv(s) && !Strays(s, Attach(k, usable))
    requires (conn, id) in s.attached <==> Counts(s, conn, id)
    ensures var after := Next(s, Attach(k, usable)); (conn, id) in after.attached <==> Counts(after, conn, id)
  {
    hide Operations;
    if k < |s.tasks| && s.tasks[k].Attaching? {
      assert TaskPoints(s, s.tasks[k]) && Placed(s, s.tasks[k].runtime);
    }
  }

  lemma {:induction false} SideOfLeaving(s: State, step: Step, conn: Conn, id: Id)
    requires MapsPoint(s) && (step.Detach? || step.Disconnect?)
    requires forall c: Conn, i: Id :: (c, i) in s.attached <==> Counts(s, c, i)
    ensures (conn, id) in Next(s, step).attached <==> Counts(Next(s, step), conn, id)
  {
    assert (conn, id) in s.attached <==> Counts(s, conn, id);
    hide Operations;
  }

  lemma {:induction false} SideOfOpening(s: State, step: Step, conn: Conn, id: Id)
    requires Inv(s) && step.SnapshotReturns?
    requires (conn, id) in s.attached <==> Counts(s, conn, id)
    ensures (conn, id) in Next(s, step).attached <==> Counts(Next(s, step), conn, id)
  {
    hide Operations;
    if step.runtime < |s.runtimes| {
      assert Placed(s, step.runtime);
    }
  }

  lemma {:induction false} SideOfDisposed(s: State, r: nat, conn: Conn, id: Id)
    requires Inv(s) && AttachedInUse(s)
    requires (conn, id) in s.attached <==> Counts(s, conn, id)
    ensures var after := Next(s, DisposeSettles(r)); (conn, id) in after.attached <==> Counts(after, conn, id)
  {
    hide Operations;
  }

  /** The other steps touch neither the map nor any connection. */
  lemma {:induction false} SideOfOthers(s: State, step: Step, conn: Conn, id: Id)
    requires Inv(s) && step != FinishClose && !step.SnapshotReturns? && !step.DisposeSettles?
    requires !step.Attach? && !step.Detach? && !step.Disconnect?
    requires (conn, id) in s.attached <==> Counts(s, conn, id)
    ensures (conn, id) in Next(s, step).attached <==> Counts(Next(s, step), conn, id)
  {
    hide Inv, Kept, AllSettled, Settled;
    InvParts(s);
    hide Placed, TaskPoints;
    if id in s.liveSessions {
      ConnectionsStay(s, step, s.liveSessions[id]);
    }
    MapStays(s, step);
  }

  lemma {:induction false} MapStays(s: State, step: Step)
    requires step != FinishClose && !step.SnapshotReturns? && !step.DisposeSettles?
    requires !step.Attach? && !step.Detach? && !step.Disconnect?
    ensures Next(s, step).liveSessions == s.liveSessions && Next(s, step).attached == s.attached
  {
    hide Kept, AllSettled, Settled;
  }

  lemma {:induction false} ConnectionsStay(s: State, step: Step, r: nat)
    requires Inv(s) && r < |s.runtimes| && step != FinishClose && !step.SnapshotReturns?
    requires !step.Attach? && !step.Detach? && !step.Disconnect?
    ensures var after := Next(s, step);
            r < |after.runtimes| && forall conn: Conn :: Holds(after.runtimes[r], conn) <==> Holds(s.runtimes[r], conn)
  {
    hide Operations, AllSettled;
    assert Placed(s, r);
  }

  /** Over whole runs without a stray step, a connection has a session on record exactly when that
      session is live, in use, and counts the connection. */
  lemma {:induction false} SidesAgreeInRuns(steps: seq<Step>, conn: Conn, id: Id)
    requires Unbroken(steps, Strays)
    ensures var s := Reached(steps);
            (conn, id) in s.attached
            <==> Counts(s, conn, id) && s.runtimes[s.liveSessions[id]].stage == InUse
  {
    AttachedRuns(steps);
    SidesAgreeAtEnd(steps);
    hide Reached, Unbroken, Strays, Inv;
    assert Throughout(steps, AttachedInUse);
  }

  lemma {:induction false} SidesAgreeAtEnd(steps: seq<Step>)
    requires Unbroken(steps, Strays)
    ensures SidesAgree(Reached(steps))
  {
    if steps != [] {
      hide Next, Strays, SidesAgree, Inv, AttachedInUse;
      var before := steps[..|steps| - 1];
      SidesAgreeAtEnd(before);
      ReachedKeeps(before);
      AttachedRuns(before);
      SidesStayAgreed(Reached(before), steps[|steps| - 1]);
    }
  }

  /** No step but the last one of close starts a disposal while an operation is running. */
  lemma {:induction false} DisposalWaitsForOperations(steps: seq<Step>, step: Step, k: nat, r: nat)
    requires var s := Reached(steps);
             && step != FinishClose && r < |s.runtimes|
             && k < |s.tasks| && s.tasks[k].Operating? && s.tasks[k].runtime == r
    ensures r < |Next(Reached(steps), step).runtimes|
    ensures Next(Reached(steps), step).runtimes[r].disposeCalls == Reached(steps).runtimes[r].disposeCalls
  {
    hide Reached, Operations;
    var s := Reached(steps);
    ReachedKeeps(steps);
    assert TaskPoints(s, s.tasks[k]);
    assert Placed(s, r);
    OperatingIsCounted(s.tasks, k, r);
  }

  /** In every run, `dispose()` is called at most once on each runtime, exactly when it is being
      or has been disposed. */
  lemma {:induction false} DisposedOnce(steps: seq<Step>, r: nat)
    requires r < |Reached(steps).runtimes|
    ensures var runtime := Reached(steps).runtimes[r];
            runtime.disposeCalls == if runtime.stage == BeingDisposed || runtime.stage == Gone then 1 else 0
  {
    hide Reached, Operations;
    ReachedKeeps(steps);
    assert Placed(Reached(steps), r);
  }

  /** When close has waited for the openings, it disposes every runtime in use and no other, and
      from then on none is in use any more. */
  lemma {:induction false} CloseDisposesAll(steps: seq<Step>, r: nat)
    requires var s := Reached(steps);
             s.closing.Waiting? && AllSettled(s, s.closing.openings) && r < |s.runtimes|
    ensures var before := Reached(steps).runtimes[r];
            var after := Next(Reached(steps), FinishClose);
            && r < |after.runtimes| && after.closing == Closed
            && after.runtimes[r] == if before.stage == InUse then Dispose(before) else before
  {
    hide Reached, Operations;
    var s := Reached(steps);
    ReachedKeeps(steps);
    assert Placed(s, r);
    assert CloseAll(s, |s.runtimes|)[r] == CloseOne(s, r);
  }

  lemma {:induction false} NoneInUseAfterClose(steps: seq<Step>, r: nat)
    requires Reached(steps).closing == Closed && r < |Reached(steps).runtimes|
    ensures Reached(steps).runtimes[r].stage in {Requested, Refused, BeingDisposed, Gone}
  {
    hide Reached, Operations;
    ReachedKeeps(steps);
    assert Placed(Reached(steps), r);
  }

  // ---- nothing gets stuck ----

  /** The answer that settles the opening of a runtime. */
  function Answer(s: State, r: nat): Step
    requires r < |s.runtimes|
  {
    match s.runtimes[r].stage
    case Requested => ServiceReturns(r, false)
    case Snapshotting => SnapshotReturns(r, true, false)
    case _ => DisposeSettles(r)
  }

  /** An opening that has not settled lacks one answer; the others stay as they are. */
  lemma {:induction false} AnswerSettles(s: State, r: nat)
    requires Inv(s) && r < |s.runtimes| && !Settled(s.runtimes[r])
    ensures var after := Next(s, Answer(s, r));
            && |after.runtimes| == |s.runtimes| && Settled(after.runtimes[r])
            && (forall q | 0 <= q < |s.runtimes| && q != r :: after.runtimes[q] == s.runtimes[q])
            && after.openingSessions == s.openingSessions && after.closing == s.closing
  {
    hide Operations;
    assert Placed(s, r);
  }

  predicate SettledBelow(s: State, n: nat) { forall r | 0 <= r < n && r < |s.runtimes| :: Settled(s.runtimes[r]) }

  /** From every state that is reached, answers alone let all openings settle. */
  lemma {:induction false} OpeningsCanSettle(steps: seq<Step>, n: nat) returns (more: seq<Step>)
    requires n <= |Reached(steps).runtimes|
    ensures var s, after := Reached(steps), Reached(steps + more);
            && |after.runtimes| == |s.runtimes| && SettledBelow(after, n)
            && after.openingSessions == s.openingSessions && after.closing == s.closing
  {
    hide Reached, Next, Answer, Settled;
    if n == 0 {
      more := [];
      assert steps + more == steps;
    } else {
      more := OpeningsCanSettle(steps, n - 1);
      var s := Reached(steps + more);
      if !Settled(s.runtimes[n - 1]) {
        ReachedKeeps(steps + more);
        AnswerSettles(s, n - 1);
        OneMoreStep(steps + more, Answer(s, n - 1));
        assert steps + (more + [Answer(s, n - 1)]) == steps + more + [Answer(s, n - 1)];
        more := more + [Answer(s, n - 1)];
      }
    }
  }

  lemma {:induction false} OneMoreStep(steps: seq<Step>, step: Step)
    ensures Reached(steps + [step]) == Next(Reached(steps), step)
  {
    hide Next;
    assert (steps + [step])[..|steps|] == steps;
  }

  /** Once begun, close can always finish: there are answers after which it has disposed all. */
  lemma {:induction false} CloseCanFinish(steps: seq<Step>) returns (more: seq<Step>)
    requires Reached(steps).closing == Began || Reached(steps).closing.Waiting?
    ensures Reached(steps + more).closing == Closed
    ensures forall r | 0 <= r < |Reached(steps + more).runtimes| :: Reached(steps + more).runtimes[r].stage != InUse
  {
    hide Reached, Settled;
    var waiting := if Reached(steps).closing == Began then [StartClose] else [];
    if Reached(steps).closing == Began {
      OneMoreStep(steps, StartClose);
    } else {
      assert steps + waiting == steps;
    }
    var answers := OpeningsCanSettle(steps + waiting, |Reached(steps + waiting).runtimes|);
    OneMoreStep(steps + waiting + answers, FinishClose);
    more := waiting + answers + [FinishClose];
    assert steps + more == steps + waiting + answers + [FinishClose];
    forall r | 0 <= r < |Reached(steps + more).runtimes|
      ensures Reached(steps + more).runtimes[r].stage != InUse
    {
      NoneInUseAfterClose(steps + more, r);
    }
  }

  // ---- who may operate ----

  /** A connection may operate on a session that it is attached to and that is live, has not failed
      and is not being disposed. */
  predicate MayOperate(s: State, conn: Conn, id: Id) {
    && (conn, id) in s.attached && id in s.liveSessions && s.liveSessions[id] < |s.runtimes|
    && var live := s.runtimes[s.liveSessions[id]].live;
       live.Some? && !live.value.terminal && !live.value.disposing
  }

  predicate BeginsOperating(s: State, step: Step, conn: Conn, r: nat) {
    step.StartOperation? && step.conn == conn && MayOperate(s, conn, step.id) && s.liveSessions[step.id] == r
  }

  /** In every step, a call that begins to operate is one that may, on the runtime of its session;
      and a call that may is admitted. */
  lemma {:induction false} OperatesExactly(s: State, step: Step, conn: Conn, r: nat)
    ensures (exists k :: 0 <= k < |Next(s, step).tasks| && Next(s, step).tasks[k] == Operating(conn, r)
                         && (k < |s.tasks| ==> s.tasks[k] != Operating(conn, r)))
            <==> BeginsOperating(s, step, conn, r)
    ensures step.StartOperation? && MayOperate(s, step.conn, step.id) ==>
              var q := s.liveSessions[step.id];
              var live := s.runtimes[q].live.value;
              Next(s, step) == s.(tasks := s.tasks + [Operating(step.conn, q)],
                                  runtimes := s.runtimes[q := s.runtimes[q].(live :=
                                    Some(live.(operationCount := live.operationCount + 1)))])
    ensures step.StartOperation? && !MayOperate(s, step.conn, step.id) ==> Next(s, step) == s
  {
    hide Kept, AllSettled, Settled;
    var after := Next(s, step);
    if step.StartOperation? && MayOperate(s, step.conn, step.id) {
      assert after.tasks[|s.tasks|] == Operating(step.conn, s.liveSessions[step.id]);
    }
  }

  /** Over runs: whoever operates was attached to the session when the operation began. */
  lemma {:induction false} OperatorsWereAttached(steps: seq<Step>, k: nat)
    requires k < |Reached(steps).tasks| && Reached(steps).tasks[k].Operating?
    ensures var task := Reached(steps).tasks[k];
            exists n :: 0 <= n < |steps| && BeginsOperating(Reached(steps[..n]), steps[n], task.conn, task.runtime)
  {
    hide Next, BeginsOperating;
    var m := |steps| - 1;
    var before := steps[..m];
    var task := Reached(steps).tasks[k];
    OperatesExactly(Reached(before), steps[m], task.conn, task.runtime);
    if k < |Reached(before).tasks| && Reached(before).tasks[k] == task {
      OperatorsWereAttached(before, k);
      var n :| 0 <= n < |before| && BeginsOperating(Reached(before[..n]), before[n], task.conn, task.runtime);
      assert before[..n] == steps[..n] && before[n] == steps[n];
    }
  }

  // ---- what the source does not keep ----

  lemma {:induction false} Take(before: seq<Step>, step: Step, after: State) returns (steps: seq<Step>)
    requires Next(Reached(before), step) == after
    ensures Reached(steps) == after
  {
    hide Next;
    steps := before + [step];
    assert steps[..|before|] == before;
  }

  /** The state with one runtime and one call. */
  function Single(runtime: Runtime, live: map<Id, nat>, attached: set<(Conn, Id)>, task: Task,
                  closing: Closing): State {
    State([runtime], live, map[runtime.id := 0], attached, [task], closing)
  }

  const UNUSED := LiveSession({}, 0, false, false)

  lemma {:induction false} OpenedOnce(id: Id) returns (steps: seq<Step>)
    ensures Reached(steps) ==
            Single(Runtime(id, InUse, Some(UNUSED), 0), map[id := 0], {}, AwaitingOpening(0, 0), NotClosing)
  {
    hide AttachStep, OperateStep, DetachStep, GoneStep;
    var task := AwaitingOpening(0, 0);
    assert Reached([]) == INITIAL;
    hide Reached;
    steps := Take([], Call(0, id), State([], map[], map[], {}, [Acquiring(0, id)], NotClosing));
    steps := Take(steps, Acquire(0), Single(Runtime(id, Requested, None, 0), map[], {}, task, NotClosing));
    steps := Take(steps, ServiceReturns(0, true),
                  Single(Runtime(id, Snapshotting, None, 0), map[], {}, task, NotClosing));
    steps := Take(steps, SnapshotReturns(0, true, false),
                  Single(Runtime(id, InUse, Some(UNUSED), 0), map[id := 0], {}, task, NotClosing));
  }

  /** Attaching does not look at a disposal again that began after the session was acquired: a
      connection may end attached to a runtime that is gone. */
  lemma {:induction false} AttachedToDisposed(id: Id) returns (steps: seq<Step>)
    ensures var s := Reached(steps);
            && |s.runtimes| == 1 && s.runtimes[0].stage == Gone && s.runtimes[0].live.Some?
            && s.runtimes[0].live.value.connections == {0} && (0, id) in s.attached
  {
    hide Reached, OperateStep, DetachStep, AcquireStep;
    steps := OpenedOnce(id);
    var task := Attaching(0, 0);
    steps := Take(steps, OpeningAwaited(0),
                  Single(Runtime(id, InUse, Some(UNUSED), 0), map[id := 0], {}, task, NotClosing));
    steps := Take(steps, MaybeDispose(0, true),
                  Single(Runtime(id, BeingDisposed, Some(UNUSED.(disposing := true)), 1), map[id := 0], {}, task,
                         NotClosing));
    assert map[id := 0] - {id} == map[];
    steps := Take(steps, DisposeSettles(0),
                  Single(Runtime(id, Gone, Some(UNUSED.(disposing := true)), 1), map[], {}, task, NotClosing));
    var someone: set<(Conn, Id)> := {};
    assert someone + {(0, id)} == {(0, id)} && UNUSED.connections + {0} == {0};
    assert [task][0 := Finished] == [Finished];
    steps := Take(steps, Attach(0, true),
                  Single(Runtime(id, Gone, Some(LiveSession({0}, 0, false, true)), 1), map[], {(0, id)}, Finished,
                         NotClosing));
  }

  lemma {:induction false} NoOpenings()
    ensures var openings: map<Id, nat> := map[]; openings.Values == {}
  {
  }

  lemma {:induction false} DisposingAndForgotten(id: Id) returns (steps: seq<Step>)
    ensures Reached(steps) ==
            State([Runtime(id, BeingDisposed, Some(UNUSED.(disposing := true)), 1)], map[id := 0], map[], {},
                  [AwaitingOpening(0, 0)], NotClosing)
  {
    hide Reached, OperateStep, DetachStep, GoneStep, AttachStep, AcquireStep, ServiceStep, SnapshotStep;
    steps := OpenedOnce(id);
    var disposed := Runtime(id, BeingDisposed, Some(UNUSED.(disposing := true)), 1);
    var task := AwaitingOpening(0, 0);
    steps := Take(steps, MaybeDispose(0, true), Single(disposed, map[id := 0], {}, task, NotClosing));
    assert map[id := 0] - {id} == map[];
    steps := Take(steps, OpeningSettles(id), State([disposed], map[id := 0], map[], {}, [task], NotClosing));
  }

  lemma {:induction false} ClosedOverDisposal(id: Id) returns (steps: seq<Step>)
    ensures Reached(steps) ==
            State([Runtime(id, BeingDisposed, Some(UNUSED.(disposing := true)), 1)], map[], map[], {},
                  [AwaitingOpening(0, 0)], Closed)
  {
    hide Reached, OperateStep, DetachStep, GoneStep, AttachStep, AcquireStep, ServiceStep, SnapshotStep, DisposeStep;
    steps := DisposingAndForgotten(id);
    var disposed := Runtime(id, BeingDisposed, Some(UNUSED.(disposing := true)), 1);
    var task := AwaitingOpening(0, 0);
    steps := Take(steps, BeginClosing, State([disposed], map[id := 0], map[], {}, [task], Began));
    NoOpenings();
    steps := Take(steps, StartClose, State([disposed], map[id := 0], map[], {}, [task], Waiting({})));
    assert CloseAll(Reached(steps), 1) == [disposed];
    steps := Take(steps, FinishClose, State([disposed], map[], map[], {}, [task], Closed));
  }

  /** Once close has cleared the map, a session that is still being disposed may be opened
      again: the guarantee of one runtime ends with close. */
  lemma {:induction false} TwoRuntimesAfterClose(id: Id) returns (steps: seq<Step>)
    ensures var s := Reached(steps);
            && |s.runtimes| == 2 && s.runtimes[0].id == s.runtimes[1].id
            && Outstanding(s.runtimes[0]) && Outstanding(s.runtimes[1])
  {
    hide Reached, OperateStep, DetachStep, GoneStep, AttachStep;
    steps := ClosedOverDisposal(id);
    var disposed := Runtime(id, BeingDisposed, Some(UNUSED.(disposing := true)), 1);
    var task := AwaitingOpening(0, 0);
    steps := Take(steps, Call(1, id), State([disposed], map[], map[], {}, [task, Acquiring(1, id)], Closed));
    steps := Take(steps, Acquire(1),
                  State([disposed, Runtime(id, Requested, None, 0)], map[], map[id := 1], {},
                        [task, AwaitingOpening(1, 1)], Closed));
  }
}
