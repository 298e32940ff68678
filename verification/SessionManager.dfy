/**
 The session manager as it runs: every method is what one of the source's functions does
 between two awaits, proved to be the step of Sessions with that name.
 */
module SessionManager {
  import opened Wrappers
  import opened Sessions
  import opened SessionProofs

  class LiveSessionManager {
    var runtimes: seq<Runtime>
    var liveSessions: map<Id, nat>
    var openingSessions: map<Id, nat>
    var attached: set<(Conn, Id)>
    var tasks: seq<Task>
    var closing: Closing
    ghost var Steps: seq<Step>

    constructor ()
      ensures Valid() && Steps == []
    {
      runtimes, liveSessions, openingSessions, attached, tasks, closing := [], map[], map[], {}, [], NotClosing;
      Steps := [];
    }

    ghost function Model(): State
      reads this
    {
      State(runtimes, liveSessions, openingSessions, attached, tasks, closing)
    }

    /** The manager is where its steps have led. */
    ghost predicate Valid()
      reads this
    {
      Model() == Reached(Steps)
    }

    /** Notes a step that has led from `before` to the present state. */
    ghost method Note(before: State, step: Step)
      requires before == Reached(Steps) && Model() == Next(before, step)
      modifies this`Steps
      ensures Valid() && Steps == old(Steps) + [step]
    {
      hide Next;
      Steps := Steps + [step];
      assert Steps[..|Steps| - 1] == old(Steps);
    }

    /** Until close has cleared the map, each session has one outstanding runtime at most. */
    lemma {:induction false} OneRuntimeEach(a: nat, b: nat)
      requires Valid() && closing != Closed && a < |runtimes| && b < |runtimes|
      requires Outstanding(runtimes[a]) && Outstanding(runtimes[b]) && runtimes[a].id == runtimes[b].id
      ensures a == b
    {
      hide Reached;
      OneRuntimePerSession(Steps, a, b);
    }

    /** Until then, a call that is operating is operating on a runtime in use. */
    lemma {:induction false} OperatingInUse(task: nat)
      requires Valid() && closing != Closed && task < |tasks| && tasks[task].Operating?
      ensures tasks[task].runtime < |runtimes| && runtimes[tasks[task].runtime].stage == InUse
    {
      hide Reached;
      NoDisposalUnderOperation(Steps, task);
    }

    /** As long as no step has strayed, a connection has a session on record exactly when that
        session is live, in use, and counts the connection. */
    lemma {:induction false} AttachmentsAgree(conn: Conn, id: Id)
      requires Valid() && Unbroken(Steps, Strays)
      ensures (conn, id) in attached <==>
              && id in liveSessions && liveSessions[id] < |runtimes| && Holds(runtimes[liveSessions[id]], conn)
              && runtimes[liveSessions[id]].stage == InUse
    {
      hide Reached, Strays, Unbroken;
      SidesAgreeInRuns(Steps, conn, id);
    }

    /** In every run each runtime has been disposed once if at all. */
    lemma {:induction false} DisposedAtMostOnce(r: nat)
      requires Valid() && r < |runtimes|
      ensures runtimes[r].disposeCalls == if runtimes[r].stage in {BeingDisposed, Stage.Gone} then 1 else 0
    {
      hide Reached;
      DisposedOnce(Steps, r);
    }

    /** A connection calls for a session, to create or to attach to it. */
    method BeginAcquire(conn: Conn, id: Id) returns (task: nat)
      requires Valid()
      modifies this
      ensures Valid() && Steps == old(Steps) + [Call(conn, id)] && task == old(|tasks|)
      ensures tasks == old(tasks) + [Acquiring(conn, id)]
      ensures unchanged(`runtimes, `liveSessions, `openingSessions, `attached, `closing)
    {
      hide Reached;
      ghost var before := Model();
      task := |tasks|;
      tasks := tasks + [Acquiring(conn, id)];
      Note(before, Call(conn, id));
    }

    /** acquire, from the head of its loop to the next await. */
    method AcquireOnce(task: nat)
      requires Valid() && task < |tasks| && tasks[task].Acquiring?
      modifies this
      ensures Valid() && Steps == old(Steps) + [Acquire(task)]
      ensures var before, conn, id := old(Model()), old(tasks[task].conn), old(tasks[task].id);
              if id in before.liveSessions then
                var r := before.liveSessions[id];
                && r < |runtimes| && runtimes[r].live.Some?
                && tasks == before.tasks[task := if runtimes[r].live.value.terminal then Finished
                                                 else if runtimes[r].live.value.disposing
                                                 then AwaitingDisposal(conn, id, r) else Attaching(conn, r)]
                && runtimes == before.runtimes && openingSessions == before.openingSessions
              else if id in before.openingSessions then
                && tasks == before.tasks[task := AwaitingOpening(conn, before.openingSessions[id])]
                && runtimes == before.runtimes && openingSessions == before.openingSessions
              else
                && tasks == before.tasks[task := AwaitingOpening(conn, |before.runtimes|)]
                && runtimes == before.runtimes + [Runtime(id, Requested, None, 0)]
                && openingSessions == before.openingSessions[id := |before.runtimes|]
      ensures unchanged(`liveSessions, `attached, `closing)
      ensures closing != Closed && |runtimes| > old(|runtimes|) ==>
                forall r | 0 <= r < old(|runtimes|) && runtimes[r].id == old(tasks[task].id) ::
                  !Outstanding(runtimes[r])
    {
      hide Reached;
      ghost var before := Model();
      ReachedKeeps(Steps);
      var conn, id := tasks[task].conn, tasks[task].id;
      if id in liveSessions {
        var existing := liveSessions[id];
        LiveIsThere(before, id);
        if runtimes[existing].live.value.terminal {
          tasks := tasks[task := Finished];
        } else if runtimes[existing].live.value.disposing {
          tasks := tasks[task := AwaitingDisposal(conn, id, existing)];
        } else {
          tasks := tasks[task := Attaching(conn, existing)];
        }
      } else if id in openingSessions {
        tasks := tasks[task := AwaitingOpening(conn, openingSessions[id])];
      } else {
        var pending := |runtimes|;
        runtimes := runtimes + [Runtime(id, Requested, None, 0)];
        openingSessions := openingSessions[id := pending];
        tasks := tasks[task := AwaitingOpening(conn, pending)];
      }
      Note(before, Acquire(task));
      if closing != Closed && |runtimes| > |before.runtimes| {
        forall r | 0 <= r < |before.runtimes| && runtimes[r].id == id && Outstanding(runtimes[r])
          ensures false
        {
          OneRuntimeEach(r, |runtimes| - 1);
        }
      }
    }

    /** create, when the service has answered. */
    method ReceiveRuntime(r: nat, ok: bool)
      requires Valid() && r < |runtimes| && runtimes[r].stage == Requested
      modifies this
      ensures Valid() && Steps == old(Steps) + [ServiceReturns(r, ok)]
      ensures runtimes == old(runtimes)[r := old(runtimes[r]).(
                stage := if !ok then Refused else if closing == NotClosing then Snapshotting else BeingDisposed,
                disposeCalls := old(runtimes[r].disposeCalls) + if ok && closing != NotClosing then 1 else 0)]
      ensures unchanged(`liveSessions, `openingSessions, `attached, `tasks, `closing)
    {
      hide Reached;
      ghost var before := Model();
      var runtime := runtimes[r];
      if !ok {
        runtimes := runtimes[r := runtime.(stage := Refused)];
      } else if closing != NotClosing {
        runtimes := runtimes[r := Dispose(runtime)];
      } else {
        runtimes := runtimes[r := runtime.(stage := Snapshotting)];
      }
      Note(before, ServiceReturns(r, ok));
    }

    /** create, when the first snapshot is there or has failed. */
    method ReceiveSnapshot(r: nat, ok: bool, failsAtOnce: bool)
      requires Valid() && r < |runtimes| && runtimes[r].stage == Snapshotting
      modifies this
      ensures Valid() && Steps == old(Steps) + [SnapshotReturns(r, ok, failsAtOnce)]
      ensures runtimes == old(runtimes)[r :=
                if ok then old(runtimes[r]).(stage := InUse, live := Some(LiveSession({}, 0, failsAtOnce, false)))
                else old(runtimes[r]).(stage := BeingDisposed, disposeCalls := old(runtimes[r].disposeCalls) + 1)]
      ensures liveSessions == if ok then old(liveSessions)[runtimes[r].id := r] else old(liveSessions)
      ensures unchanged(`openingSessions, `attached, `tasks, `closing)
    {
      hide Reached;
      ghost var before := Model();
      var runtime := runtimes[r];
      if ok {
        var live := LiveSession({}, 0, failsAtOnce, false);
        runtimes := runtimes[r := runtime.(stage := InUse, live := Some(live))];
        liveSessions := liveSessions[runtime.id := r];
      } else {
        runtimes := runtimes[r := Dispose(runtime)];
      }
      Note(before, SnapshotReturns(r, ok, failsAtOnce));
    }

    /** The end of acquire by the call that opened the session. */
    method ForgetOpening(id: Id)
      requires Valid() && id in openingSessions
      requires openingSessions[id] < |runtimes| ==> Settled(runtimes[openingSessions[id]])
      modifies this
      ensures Valid() && Steps == old(Steps) + [OpeningSettles(id)]
      ensures openingSessions == old(openingSessions) - {id}
      ensures unchanged(`runtimes, `liveSessions, `attached, `tasks, `closing)
    {
      hide Reached;
      ghost var before := Model();
      openingSessions := openingSessions - {id};
      Note(before, OpeningSettles(id));
    }

    /** acquire, after the await of a disposal: back to the head of the loop, or out with the error. */
    method ResumeAfterDisposal(task: nat, ok: bool)
      requires Valid() && task < |tasks| && tasks[task].AwaitingDisposal?
      requires tasks[task].runtime < |runtimes| && runtimes[tasks[task].runtime].stage == Stage.Gone
      modifies this
      ensures Valid() && Steps == old(Steps) + [DisposalAwaited(task, ok)]
      ensures var call := old(tasks[task]);
              tasks == old(tasks)[task := if ok then Acquiring(call.conn, call.id) else Finished]
      ensures unchanged(`runtimes, `liveSessions, `openingSessions, `attached, `closing)
    {
      hide Reached;
      ghost var before := Model();
      tasks := tasks[task := if ok then Acquiring(tasks[task].conn, tasks[task].id) else Finished];
      Note(before, DisposalAwaited(task, ok));
    }

    /** acquire, when the opening it awaits has settled. */
    method ResumeAfterOpening(task: nat)
      requires Valid() && task < |tasks| && tasks[task].AwaitingOpening?
      requires tasks[task].runtime < |runtimes| && Settled(runtimes[tasks[task].runtime])
      modifies this
      ensures Valid() && Steps == old(Steps) + [OpeningAwaited(task)]
      ensures var conn, r := old(tasks[task].conn), old(tasks[task].runtime);
              && r < |runtimes|
              && tasks == old(tasks)[task := if runtimes[r].live.Some? then Attaching(conn, r) else Finished]
      ensures unchanged(`runtimes, `liveSessions, `openingSessions, `attached, `closing)
    {
      hide Reached;
      ghost var before := Model();
      var conn, r := tasks[task].conn, tasks[task].runtime;
      tasks := tasks[task := if runtimes[r].live.Some? then Attaching(conn, r) else Finished];
      Note(before, OpeningAwaited(task));
    }

    method AttachConnection(task: nat, usable: bool)
      requires Valid() && task < |tasks| && tasks[task].Attaching?
      modifies this
      ensures Valid() && Steps == old(Steps) + [Attach(task, usable)]
      ensures tasks == old(tasks)[task := Finished]
      ensures var conn, r := old(tasks[task].conn), old(tasks[task].runtime);
              && r < old(|runtimes|) && old(runtimes)[r].live.Some?
              && var was, live := old(runtimes)[r], old(runtimes)[r].live.value;
                 if usable then
                   && attached == old(attached) + {(conn, was.id)}
                   && runtimes == old(runtimes)[r :=
                        was.(live := Some(live.(connections := live.connections + {conn})))]
                 else attached == old(attached) && runtimes == old(runtimes)
      ensures unchanged(`liveSessions, `openingSessions, `closing)
    {
      hide Reached;
      ghost var before := Model();
      ReachedKeeps(Steps);
      AttachingIsThere(before, task);
      var conn, r := tasks[task].conn, tasks[task].runtime;
      tasks := tasks[task := Finished];
      if usable {
        var live := runtimes[r].live.value;
        attached := attached + {(conn, runtimes[r].id)};
        runtimes := runtimes[r := runtimes[r].(live := Some(live.(connections := live.connections + {conn})))];
      }
      Note(before, Attach(task, usable));
    }

    /** requireAttached, and the start of runOperation. */
    method BeginOperation(conn: Conn, id: Id) returns (admitted: bool)
      requires Valid()
      modifies this
      ensures Valid() && Steps == old(Steps) + [StartOperation(conn, id)]
      ensures admitted <==>
              old((conn, id) in attached && id in liveSessions && liveSessions[id] < |runtimes|
                  && var live := runtimes[liveSessions[id]].live;
                     live.Some? && !live.value.terminal && !live.value.disposing)
      ensures tasks == old(tasks) + if admitted then [Operating(conn, old(liveSessions)[id])] else []
      ensures |runtimes| == old(|runtimes|) && forall r | 0 <= r < |runtimes| ::
                runtimes[r] == if admitted && r == old(liveSessions)[id] then OneMoreOperation(old(runtimes)[r])
                               else old(runtimes)[r]
      ensures unchanged(`liveSessions, `openingSessions, `attached, `closing)
      ensures admitted && closing != Closed ==>
                var r := tasks[old(|tasks|)].runtime; r < |runtimes| && runtimes[r].stage == InUse
    {
      hide Reached;
      ghost var before := Model();
      ReachedKeeps(Steps);
      admitted := false;
      if (conn, id) in attached && id in liveSessions {
        var r := liveSessions[id];
        LiveIsThere(before, id);
        var live := runtimes[r].live.value;
        if !live.terminal && !live.disposing {
          admitted := true;
          runtimes := runtimes[r := runtimes[r].(live := Some(live.(operationCount := live.operationCount + 1)))];
          tasks := tasks + [Operating(conn, r)];
        }
      }
      Note(before, StartOperation(conn, id));
      if admitted && closing != Closed {
        OperatingInUse(|tasks| - 1);
      }
    }

    /** The end of runOperation. */
    method EndOperation(task: nat)
      requires Valid() && task < |tasks| && tasks[task].Operating?
      modifies this
      ensures Valid() && Steps == old(Steps) + [FinishOperation(task)] && tasks == old(tasks)[task := Finished]
      ensures var r := old(tasks[task].runtime);
              && r < |runtimes| && runtimes[r].live.Some?
              && old(runtimes) == runtimes[r := OneMoreOperation(runtimes[r])]
      ensures unchanged(`liveSessions, `openingSessions, `attached, `closing)
    {
      hide Reached;
      ghost var before := Model();
      ReachedKeeps(Steps);
      OperatingIsThere(before, task);
      var r := tasks[task].runtime;
      var live := runtimes[r].live.value;
      runtimes := runtimes[r := runtimes[r].(live := Some(live.(operationCount := live.operationCount - 1)))];
      tasks := tasks[task := Finished];
      Note(before, FinishOperation(task));
    }

    /** Every session the connection is attached to loses it. */
    method DisconnectAll(conn: Conn)
      requires Valid()
      modifies this
      ensures Valid() && Steps == old(Steps) + [Step.Disconnect(conn)]
      ensures forall c: Conn, id: Id :: (c, id) in attached <==> c != conn && (c, id) in old(attached)
      ensures |runtimes| == old(|runtimes|) && forall r | 0 <= r < |runtimes| ::
                runtimes[r] == if old(IsLive(Model(), r) && (conn, runtimes[r].id) in attached)
                               then Without(old(runtimes)[r], conn) else old(runtimes)[r]
      ensures unchanged(`liveSessions, `openingSessions, `tasks, `closing)
    {
      hide Reached, LeaveOne;
      ghost var before := Model();
      for r := 0 to |runtimes|
        modifies this`runtimes
        invariant |runtimes| == |before.runtimes|
        invariant forall q | 0 <= q < r :: runtimes[q] == LeaveOne(before, conn, q)
        invariant forall q | r <= q < |runtimes| :: runtimes[q] == before.runtimes[q]
      {
        Leave(conn, r, before);
      }
      forall r | 0 <= r < |runtimes|
        ensures runtimes[r] == if IsLive(before, r) && (conn, before.runtimes[r].id) in before.attached
                               then Without(before.runtimes[r], conn) else before.runtimes[r]
      {
        LeftExactly(before, conn, r);
      }
      attached := set a | a in attached && a.0 != conn;
      assert runtimes == LeaveAll(before, conn, |before.runtimes|);
      Note(before, Step.Disconnect(conn));
    }

    method Leave(conn: Conn, r: nat, ghost before: State)
      requires r < |runtimes| && r < |before.runtimes| && runtimes[r] == before.runtimes[r]
      requires attached == before.attached && liveSessions == before.liveSessions
      modifies this`runtimes
      ensures runtimes == old(runtimes)[r := LeaveOne(before, conn, r)]
    {
      var runtime := runtimes[r];
      if runtime.live.Some? && runtime.id in liveSessions && liveSessions[runtime.id] == r
         && (conn, runtime.id) in attached {
        var live := runtime.live.value;
        runtimes := runtimes[r := runtime.(live := Some(live.(connections := live.connections - {conn})))];
      }
    }

    /** The part of detach before its await. */
    method DetachSession(conn: Conn, id: Id)
      requires Valid()
      modifies this
      ensures Valid() && Steps == old(Steps) + [Step.Detach(conn, id)]
      ensures attached == old(attached) - {(conn, id)}
      ensures |runtimes| == old(|runtimes|) && forall r | 0 <= r < |runtimes| ::
                runtimes[r] == if (conn, id) in old(attached) && id in liveSessions && liveSessions[id] == r
                               then Without(old(runtimes)[r], conn) else old(runtimes)[r]
      ensures unchanged(`liveSessions, `openingSessions, `tasks, `closing)
    {
      hide Reached, LeaveOne;
      ghost var before := Model();
      ReachedKeeps(Steps);
      if (conn, id) in attached {
        if id in liveSessions {
          LiveIsThere(before, id);
          LeftExactly(before, conn, liveSessions[id]);
          LiveIsNamed(before, id);
          Leave(conn, liveSessions[id], before);
        }
        attached := attached - {(conn, id)};
      }
      Note(before, Step.Detach(conn, id));
    }

    /** terminate, up to its first await. */
    method TerminateSession(r: nat)
      requires Valid() && r < |runtimes| && runtimes[r].live.Some?
      modifies this
      ensures Valid() && Steps == old(Steps) + [Terminate(r)]
      ensures runtimes == old(runtimes)[r :=
                old(runtimes[r]).(live := Some(old(runtimes[r].live.value).(terminal := true)))]
      ensures unchanged(`liveSessions, `openingSessions, `attached, `tasks, `closing)
    {
      hide Reached;
      ghost var before := Model();
      var live := runtimes[r].live.value;
      if !live.terminal {
        runtimes := runtimes[r := runtimes[r].(live := Some(live.(terminal := true)))];
      }
      Note(before, Terminate(r));
    }

    /** maybeDispose, up to the await of `dispose()`. It disposes exactly when nothing keeps the
        session. */
    method DisposeIfUnused(r: nat, idle: bool)
      requires Valid() && r < |runtimes| && runtimes[r].live.Some?
      modifies this
      ensures Valid() && Steps == old(Steps) + [MaybeDispose(r, idle)]
      ensures var was := old(runtimes[r]);
              runtimes == old(runtimes)[r :=
                if closing == NotClosing && !was.live.value.disposing && was.live.value.connections == {}
                   && was.live.value.operationCount == 0 && (was.live.value.terminal || idle)
                then Runtime(was.id, BeingDisposed, Some(was.live.value.(disposing := true)), was.disposeCalls + 1)
                else was]
      ensures unchanged(`liveSessions, `openingSessions, `attached, `tasks, `closing)
    {
      hide Reached;
      ghost var before := Model();
      var live := runtimes[r].live.value;
      if closing != NotClosing || live.disposing || live.connections != {} || live.operationCount > 0
         || (!live.terminal && !idle) {
        Note(before, MaybeDispose(r, idle));
        return;
      }
      runtimes := runtimes[r := Dispose(runtimes[r].(live := Some(live.(disposing := true))))];
      Note(before, MaybeDispose(r, idle));
    }

    /** What follows when `dispose()` has settled. */
    method AfterDispose(r: nat)
      requires Valid() && r < |runtimes| && runtimes[r].stage == BeingDisposed
      modifies this
      ensures Valid() && Steps == old(Steps) + [DisposeSettles(r)]
      ensures runtimes == old(runtimes)[r := old(runtimes[r]).(stage := Stage.Gone)]
      ensures var was := old(runtimes[r]);
              liveSessions == old(liveSessions) -
                              if was.live.Some? && was.live.value.disposing && was.id in old(liveSessions)
                                 && old(liveSessions)[was.id] == r then {was.id} else {}
      ensures unchanged(`openingSessions, `attached, `tasks, `closing)
    {
      hide Reached;
      ghost var before := Model();
      var runtime := runtimes[r];
      runtimes := runtimes[r := runtime.(stage := Gone)];
      if runtime.live.Some? && runtime.live.value.disposing
         && runtime.id in liveSessions && liveSessions[runtime.id] == r {
        liveSessions := liveSessions - {runtime.id};
      }
      Note(before, DisposeSettles(r));
    }

    /** The server is closing from here on. */
    method BeginClose()
      requires Valid() && closing == NotClosing
      modifies this
      ensures Valid() && Steps == old(Steps) + [BeginClosing] && closing == Began
      ensures unchanged(`runtimes, `liveSessions, `openingSessions, `attached, `tasks)
    {
      hide Reached;
      ghost var before := Model();
      closing := Began;
      Note(before, BeginClosing);
    }

    /** close, up to its await of all openings. */
    method AwaitOpenings()
      requires Valid() && closing == Began
      modifies this
      ensures Valid() && Steps == old(Steps) + [StartClose] && closing == Waiting(openingSessions.Values)
      ensures unchanged(`runtimes, `liveSessions, `openingSessions, `attached, `tasks)
    {
      hide Reached;
      ghost var before := Model();
      closing := Waiting(openingSessions.Values);
      Note(before, StartClose);
    }

    /** The end of close: what is still in use is disposed. */
    method CloseSessions()
      requires Valid() && closing.Waiting? && AllSettled(Model(), closing.openings)
      modifies this
      ensures Valid() && Steps == old(Steps) + [FinishClose] && liveSessions == map[] && closing == Closed
      ensures |runtimes| == old(|runtimes|) && forall r | 0 <= r < |runtimes| ::
                runtimes[r] == if old(runtimes)[r].stage != InUse then old(runtimes)[r]
                               else old(runtimes)[r].(stage := BeingDisposed, disposeCalls := 1)
      ensures unchanged(`openingSessions, `attached, `tasks)
    {
      hide Reached, CloseOne, AllSettled;
      ghost var before := Model();
      ReachedKeeps(Steps);
      for r := 0 to |runtimes|
        modifies this`runtimes
        invariant |runtimes| == |before.runtimes|
        invariant forall q | 0 <= q < r :: runtimes[q] == CloseOne(before, q)
        invariant forall q | r <= q < |runtimes| :: runtimes[q] == before.runtimes[q]
      {
        CloseSession(r, before);
      }
      liveSessions, closing := map[], Closed;
      assert runtimes == CloseAll(before, |before.runtimes|);
      Note(before, FinishClose);
      forall r | 0 <= r < |runtimes|
        ensures runtimes[r] == if before.runtimes[r].stage != InUse then before.runtimes[r]
                               else before.runtimes[r].(stage := BeingDisposed, disposeCalls := 1)
      {
        ClosedExactly(before, r);
      }
    }

    method CloseSession(r: nat, ghost before: State)
      requires r < |runtimes| && r < |before.runtimes| && runtimes[r] == before.runtimes[r]
      requires liveSessions == before.liveSessions
      modifies this`runtimes
      ensures runtimes == old(runtimes)[r := CloseOne(before, r)]
    {
      var runtime := runtimes[r];
      if runtime.id in liveSessions && liveSessions[runtime.id] == r
         && runtime.live.Some? && !runtime.live.value.disposing {
        runtimes := runtimes[r := Dispose(runtime)];
      }
    }
  }

  /** Close disposes exactly what is in use. */
  lemma {:induction false} ClosedExactly(s: State, r: nat)
    requires Inv(s) && r < |s.runtimes|
    ensures CloseOne(s, r) == if s.runtimes[r].stage != InUse then s.runtimes[r]
                              else s.runtimes[r].(stage := BeingDisposed, disposeCalls := 1)
  {
    hide Operations;
    assert Placed(s, r);
  }

  function OneMoreOperation(r: Runtime): Runtime
    requires r.live.Some?
  {
    r.(live := Some(r.live.value.(operationCount := r.live.value.operationCount + 1)))
  }

  /** The runtime without the connection, if it is live. */
  function Without(r: Runtime, conn: Conn): Runtime {
    if r.live.None? then r else r.(live := Some(r.live.value.(connections := r.live.value.connections - {conn})))
  }

  lemma {:induction false} LiveIsNamed(s: State, id: Id)
    requires Inv(s) && id in s.liveSessions
    ensures s.liveSessions[id] < |s.runtimes| && s.runtimes[s.liveSessions[id]].id == id
  {
    hide Placed;
  }

  lemma {:induction false} LiveIsThere(s: State, id: Id)
    requires Inv(s) && id in s.liveSessions
    ensures s.liveSessions[id] < |s.runtimes| && s.runtimes[s.liveSessions[id]].live.Some?
  {
    hide Operations;
    assert Placed(s, s.liveSessions[id]);
  }

  lemma {:induction false} LeftExactly(s: State, conn: Conn, r: nat)
    requires r < |s.runtimes|
    ensures LeaveOne(s, conn, r) ==
            if IsLive(s, r) && (conn, s.runtimes[r].id) in s.attached then Without(s.runtimes[r], conn)
            else s.runtimes[r]
  {
  }

  lemma {:induction false} AttachingIsThere(s: State, k: nat)
    requires Inv(s) && k < |s.tasks| && s.tasks[k].Attaching?
    ensures s.tasks[k].runtime < |s.runtimes| && s.runtimes[s.tasks[k].runtime].live.Some?
  {
    hide Placed;
    assert TaskPoints(s, s.tasks[k]);
  }

  lemma {:induction false} OperatingIsThere(s: State, k: nat)
    requires Inv(s) && k < |s.tasks| && s.tasks[k].Operating?
    ensures s.tasks[k].runtime < |s.runtimes| && s.runtimes[s.tasks[k].runtime].live.Some?
    ensures s.runtimes[s.tasks[k].runtime].live.value.operationCount > 0
  {
    hide Operations;
    assert TaskPoints(s, s.tasks[k]);
    assert Placed(s, s.tasks[k].runtime);
    OperatingIsCounted(s.tasks, k, s.tasks[k].runtime);
  }
}
