/**
 Session leases of packages/client/src/client.ts: how tokens are reserved, granted, released
 and invalidated, and what the lease counts say about them. Whether a lease may be released
 now (connected, attached, not disposed) is an input of each attempt.
 */
module Leases {
  import opened Wrappers

  type Id = string

  datatype Mode = Shared | Exclusive

  /** A token's life: reserved by a call that is still attaching, active, waiting for the
      response to its detach request, or done. A lease is granted in a generation. */
  datatype Stage =
    | Reserved
    | Active(generation: nat)
    | Detaching(generation: nat, relinquishOnFailure: bool)
    | Released
    | Invalidated

  datatype Token = Token(id: Id, mode: Mode, stage: Stage, releases: nat)

  /** Tokens are numbered in the order of their reservations. */
  datatype State = State(tokens: seq<Token>, counts: map<Id, nat>, exclusive: map<Id, nat>,
                         generations: map<Id, nat>, cleanupRequired: set<Id>)

  const INITIAL := State([], map[], map[], map[], {})

  datatype Step =
    | Reserve(id: Id, mode: Mode)
    | Grant(token: nat)
    | GiveUp(token: nat)
    | Release(token: nat, relinquishOnFailure: bool, ready: bool)
    | DetachSucceeds(token: nat)
    | DetachFails(token: nat)
    | Invalidate(id: Id)

  function Get(m: map<Id, nat>, id: Id): nat { if id in m then m[id] else 0 }

  predicate MayReserve(s: State, id: Id, mode: Mode) {
    if mode == Exclusive then Get(s.counts, id) == 0 else id !in s.exclusive
  }

  /** #reserveSessionLease; a refusal throws and changes nothing. */
  function ReserveStep(s: State, id: Id, mode: Mode): State {
    if !MayReserve(s, id, mode) then s
    else
      s.(tokens := s.tokens + [Token(id, mode, Reserved, 0)],
         counts := s.counts[id := Get(s.counts, id) + 1],
         exclusive := if mode == Exclusive then s.exclusive[id := |s.tokens|] else s.exclusive)
  }

  function WithStage(s: State, t: nat, stage: Stage): State
    requires t < |s.tokens|
  {
    s.(tokens := s.tokens[t := s.tokens[t].(stage := stage)])
  }

  /** #releaseSessionLease for the token, which has the new stage afterwards. */
  function ReleaseToken(s: State, t: nat, stage: Stage): State
    requires t < |s.tokens|
  {
    var token := s.tokens[t];
    var count := Get(s.counts, token.id);
    s.(tokens := s.tokens[t := token.(stage := stage, releases := token.releases + 1)],
       counts := if count <= 1 then s.counts - {token.id} else s.counts[token.id := count - 1],
       exclusive := if token.id in s.exclusive && s.exclusive[token.id] == t then s.exclusive - {token.id}
                    else s.exclusive)
  }

  predicate Current(s: State, id: Id, generation: nat) { Get(s.generations, id) == generation }

  /** release, up to its first await: only the last holder asks the server to detach. */
  function ReleaseStep(s: State, t: nat, relinquish: bool, ready: bool): State
    requires t < |s.tokens| && s.tokens[t].stage.Active?
  {
    var token := s.tokens[t];
    if !Current(s, token.id, token.stage.generation) then WithStage(s, t, Invalidated)
    else if !ready then s
    else if Get(s.counts, token.id) <= 1 then WithStage(s, t, Detaching(token.stage.generation, relinquish))
    else ReleaseToken(s, t, Released)
  }

  /** What follows a failed detach request. */
  function FailStep(s: State, t: nat): State
    requires t < |s.tokens| && s.tokens[t].stage.Detaching?
  {
    var token := s.tokens[t];
    if !Current(s, token.id, token.stage.generation) then WithStage(s, t, Invalidated)
    else if token.stage.relinquishOnFailure then
      ReleaseToken(s, t, Released).(cleanupRequired := s.cleanupRequired + {token.id})
    else WithStage(s, t, Active(token.stage.generation))
  }

  function InvalidateStep(s: State, id: Id): State {
    s.(counts := s.counts - {id}, exclusive := s.exclusive - {id}, cleanupRequired := s.cleanupRequired - {id},
       generations := s.generations[id := Get(s.generations, id) + 1])
  }

  /** One step; a step that is not enabled changes nothing. */
  function Next(s: State, step: Step): State {
    match step
    case Reserve(id, mode) => ReserveStep(s, id, mode)
    case Grant(t) =>
      if t < |s.tokens| && s.tokens[t].stage == Reserved then
        WithStage(s, t, Active(Get(s.generations, s.tokens[t].id)))
      else s
    case GiveUp(t) => if t < |s.tokens| && s.tokens[t].stage == Reserved then ReleaseToken(s, t, Released) else s
    case Release(t, relinquish, ready) =>
      if t < |s.tokens| && s.tokens[t].stage.Active? then ReleaseStep(s, t, relinquish, ready) else s
    case DetachSucceeds(t) =>
      // The generation is not looked at again.
      if t < |s.tokens| && s.tokens[t].stage.Detaching? then ReleaseToken(s, t, Released) else s
    case DetachFails(t) => if t < |s.tokens| && s.tokens[t].stage.Detaching? then FailStep(s, t) else s
    case Invalidate(id) => InvalidateStep(s, id)
  }

  function Reached(steps: seq<Step>): State {
    if steps == [] then INITIAL else Next(Reached(steps[..|steps| - 1]), steps[|steps| - 1])
  }

  // ---- what holds ----

  /** The token counts as a holder of its session. */
  predicate Holds(s: State, token: Token) {
    match token.stage
    case Reserved => true
    case Active(g) => Current(s, token.id, g)
    case Detaching(g, _) => Current(s, token.id, g)
    case _ => false
  }

  /** How many of the first `n` tokens hold the session. */
  function Holders(s: State, id: Id, n: nat): nat
    requires n <= |s.tokens|
  {
    if n == 0 then 0
    else Holders(s, id, n - 1) + if s.tokens[n - 1].id == id && Holds(s, s.tokens[n - 1]) then 1 else 0
  }

  function AllHolders(s: State, id: Id): nat { Holders(s, id, |s.tokens|) }

  predicate Sound(s: State, t: nat)
    requires t < |s.tokens|
  {
    var token := s.tokens[t];
    && token.releases == (if token.stage == Released then 1 else 0)
    && (token.mode == Exclusive && Holds(s, token) <==> token.id in s.exclusive && s.exclusive[token.id] == t)
  }

  ghost predicate Counts(s: State, id: Id) {
    && Get(s.counts, id) == AllHolders(s, id)
    && (id in s.exclusive ==> s.exclusive[id] < |s.tokens| && s.tokens[s.exclusive[id]].id == id
                              && AllHolders(s, id) == 1)
  }

  /** Counts and records are right: of every session and of every token. */
  ghost predicate Inv(s: State) {
    && (forall t | 0 <= t < |s.tokens| :: Sound(s, t))
    && (forall id :: Counts(s, id))
  }

  /** An invalidation finds no call of the session still attaching, and the response to a detach
      request finds its lease still current, or nobody holding the session. */
  predicate Orderly(s: State, step: Step) {
    match step
    case Invalidate(id) => forall t | 0 <= t < |s.tokens| && s.tokens[t].id == id :: s.tokens[t].stage != Reserved
    case DetachSucceeds(t) =>
      t < |s.tokens| && s.tokens[t].stage.Detaching? ==>
        Current(s, s.tokens[t].id, s.tokens[t].stage.generation) || Get(s.counts, s.tokens[t].id) == 0
    case _ => true
  }

  ghost predicate AllOrderly(steps: seq<Step>) {
    forall k | 0 <= k < |steps| :: Orderly(Reached(steps[..k]), steps[k])
  }

  // ---- counting ----

  /** Holders depend only on the tokens and the session's generation. */
  lemma {:induction false} HoldersFrame(s: State, s': State, id: Id, n: nat)
    requires n <= |s.tokens| && n <= |s'.tokens|
    requires forall t | 0 <= t < n ::
               (s.tokens[t].id == id && Holds(s, s.tokens[t])) <==> (s'.tokens[t].id == id && Holds(s', s'.tokens[t]))
    ensures Holders(s', id, n) == Holders(s, id, n)
  {
    hide Holds;
    if n > 0 {
      HoldersFrame(s, s', id, n - 1);
    }
  }

  function Bit(s: State, token: Token, id: Id): nat { if token.id == id && Holds(s, token) then 1 else 0 }

  /** One token changes. */
  lemma {:induction false} HoldersUpdate(s: State, t: nat, token: Token, id: Id, n: nat)
    requires t < n <= |s.tokens|
    ensures Holders(s.(tokens := s.tokens[t := token]), id, n) + Bit(s, s.tokens[t], id) ==
            Holders(s, id, n) + Bit(s, token, id)
  {
    hide Holds;
    var s' := s.(tokens := s.tokens[t := token]);
    assert Holds(s', token) == Holds(s, token) && Holds(s', s'.tokens[n - 1]) == Holds(s, s'.tokens[n - 1]) by {
      SameHolds(s, s', token);
      SameHolds(s, s', s'.tokens[n - 1]);
    }
    if t == n - 1 {
      forall q | 0 <= q < n - 1
        ensures Holds(s', s'.tokens[q]) == Holds(s, s.tokens[q])
      {
        SameHolds(s, s', s.tokens[q]);
      }
      HoldersFrame(s, s', id, n - 1);
    } else {
      HoldersUpdate(s, t, token, id, n - 1);
    }
  }

  lemma {:induction false} SameHolds(s: State, s': State, token: Token)
    requires s.generations == s'.generations
    ensures Holds(s', token) == Holds(s, token)
  {
  }

  lemma {:induction false} HolderIsCounted(s: State, t: nat, id: Id, n: nat)
    requires t < n <= |s.tokens| && s.tokens[t].id == id && Holds(s, s.tokens[t])
    ensures Holders(s, id, n) > 0
  {
    hide Holds;
    if t < n - 1 {
      HolderIsCounted(s, t, id, n - 1);
    }
  }

  lemma {:induction false} TwoHoldersCount(s: State, t: nat, u: nat, id: Id, n: nat)
    requires t < u < n <= |s.tokens|
    requires s.tokens[t].id == id && Holds(s, s.tokens[t]) && s.tokens[u].id == id && Holds(s, s.tokens[u])
    ensures Holders(s, id, n) > 1
  {
    hide Holds;
    if u < n - 1 {
      TwoHoldersCount(s, t, u, id, n - 1);
    } else {
      HolderIsCounted(s, t, id, n - 1);
    }
  }

  // ---- the invariant is kept ----

  lemma {:induction false} ReserveKeeps(s: State, id: Id, mode: Mode)
    requires Inv(s)
    ensures Inv(ReserveStep(s, id, mode))
  {
    hide Holders;
    if MayReserve(s, id, mode) {
      var after := ReserveStep(s, id, mode);
      var n := |s.tokens|;
      assert Counts(s, id);
      forall t | 0 <= t < |after.tokens|
        ensures Sound(after, t)
      {
        if t < n {
          assert Sound(s, t);
          if mode == Exclusive && s.tokens[t].id == id && Holds(s, s.tokens[t]) {
            HolderIsCounted(s, t, id, n);
          }
        }
      }
      forall i
        ensures Counts(after, i)
      {
        assert Counts(s, i);
        HoldersFrame(s, after, i, n);
        OneMore(after, i);
      }
    }
  }

  lemma {:induction false} OneMore(s: State, id: Id)
    requires s.tokens != []
    ensures AllHolders(s, id) ==
            Holders(s, id, |s.tokens| - 1) + Bit(s, s.tokens[|s.tokens| - 1], id)
  {
  }

  /** A token moves on and keeps holding, or not holding, its session. */
  lemma {:induction false} StageKeeps(s: State, t: nat, stage: Stage)
    requires Inv(s) && t < |s.tokens| && stage != Released && s.tokens[t].stage != Released
    requires Holds(s, s.tokens[t].(stage := stage)) == Holds(s, s.tokens[t])
    ensures Inv(WithStage(s, t, stage))
  {
    hide Holders;
    var after := WithStage(s, t, stage);
    forall u | 0 <= u < |after.tokens|
      ensures Sound(after, u)
    {
      assert Sound(s, u);
      SameHolds(s, after, after.tokens[u]);
    }
    forall id
      ensures Counts(after, id)
    {
      assert Counts(s, id);
      HoldersUpdate(s, t, s.tokens[t].(stage := stage), id, |s.tokens|);
    }
  }

  /** A holder is released: the count goes down by one and its record goes. */
  lemma {:induction false} ReleaseKeeps(s: State, t: nat)
    requires Inv(s) && t < |s.tokens| && Holds(s, s.tokens[t])
    ensures Inv(ReleaseToken(s, t, Released))
  {
    hide Holders;
    var token := s.tokens[t];
    var after := ReleaseToken(s, t, Released);
    assert Sound(s, t);
    forall u | 0 <= u < |after.tokens|
      ensures Sound(after, u)
    {
      assert Sound(s, u);
      SameHolds(s, after, after.tokens[u]);
    }
    forall id
      ensures Counts(after, id)
    {
      assert Counts(s, id);
      ReleasedCounts(s, t, id);
    }
  }

  /** A lease of an earlier generation is released where nobody holds the session. */
  lemma {:induction false} StaleReleaseKeeps(s: State, t: nat)
    requires Inv(s) && t < |s.tokens| && s.tokens[t].stage.Detaching? && !Holds(s, s.tokens[t])
    requires Get(s.counts, s.tokens[t].id) == 0
    ensures Inv(ReleaseToken(s, t, Released))
  {
    hide Holders;
    var token := s.tokens[t];
    var after := ReleaseToken(s, t, Released);
    assert Sound(s, t) && Counts(s, token.id);
    forall u | 0 <= u < |after.tokens|
      ensures Sound(after, u)
    {
      assert Sound(s, u);
      SameHolds(s, after, after.tokens[u]);
    }
    forall id
      ensures Counts(after, id)
    {
      assert Counts(s, id);
      HoldersFrame(s, after, id, |s.tokens|);
    }
  }

  lemma {:induction false} ReleasedCounts(s: State, t: nat, id: Id)
    requires t < |s.tokens| && Holds(s, s.tokens[t]) && Counts(s, id) && Counts(s, s.tokens[t].id) && Sound(s, t)
    requires id in s.exclusive ==> Sound(s, s.exclusive[id])
    ensures Counts(ReleaseToken(s, t, Released), id)
  {
    hide Holders;
    var token := s.tokens[t];
    var released := token.(stage := Released, releases := token.releases + 1);
    var after := ReleaseToken(s, t, Released);
    var middle := s.(tokens := s.tokens[t := released]);
    HoldersUpdate(s, t, released, id, |s.tokens|);
    NotHeld(s, released);
    forall q | 0 <= q < |s.tokens|
      ensures Holds(after, after.tokens[q]) == Holds(middle, middle.tokens[q])
    {
      SameHolds(middle, after, after.tokens[q]);
    }
    HoldersFrame(middle, after, id, |s.tokens|);
    HolderIsCounted(s, t, token.id, |s.tokens|);
    if id in after.exclusive && id == token.id {
      SoleHolder(s, t, s.exclusive[id], id);
    }
  }

  lemma {:induction false} NotHeld(s: State, token: Token)
    requires token.stage == Released
    ensures !Holds(s, token)
  {
  }

  /** The recorded exclusive token of a session is its only holder. */
  lemma {:induction false} SoleHolder(s: State, t: nat, u: nat, id: Id)
    requires t < |s.tokens| && s.tokens[t].id == id && Holds(s, s.tokens[t])
    requires id in s.exclusive && s.exclusive[id] == u && Counts(s, id)
    requires u != t ==> u < |s.tokens| && Holds(s, s.tokens[u])
    ensures t == u
  {
    hide Holds, Holders;
    if u < t {
      TwoHoldersCount(s, u, t, id, |s.tokens|);
    } else if t < u {
      TwoHoldersCount(s, t, u, id, |s.tokens|);
    }
  }

  lemma {:induction false} InvalidateKeeps(s: State, id: Id)
    requires Inv(s) && Orderly(s, Invalidate(id))
    requires NoFutureGenerations(s)
    ensures Inv(InvalidateStep(s, id))
  {
    hide Holders;
    var after := InvalidateStep(s, id);
    forall u | 0 <= u < |after.tokens|
      ensures Sound(after, u)
    {
      assert Sound(s, u);
      assert s.tokens[u].stage.Active? || s.tokens[u].stage.Detaching? ==>
               s.tokens[u].stage.generation <= Get(s.generations, s.tokens[u].id);
    }
    forall i
      ensures Counts(after, i)
    {
      assert Counts(s, i);
      if i != id {
        HoldersFrame(s, after, i, |s.tokens|);
      } else {
        NoneHold(after, id, |s.tokens|);
      }
    }
  }

  lemma {:induction false} NoneHold(s: State, id: Id, n: nat)
    requires n <= |s.tokens| && forall t | 0 <= t < n && s.tokens[t].id == id :: !Holds(s, s.tokens[t])
    ensures Holders(s, id, n) == 0
  {
    hide Holds;
    if n > 0 {
      NoneHold(s, id, n - 1);
    }
  }

  /** No lease is of a generation still to come. */
  predicate NoFutureGenerations(s: State) {
    forall t | 0 <= t < |s.tokens| ::
      && (s.tokens[t].stage.Active? ==> s.tokens[t].stage.generation <= Get(s.generations, s.tokens[t].id))
      && (s.tokens[t].stage.Detaching? ==> s.tokens[t].stage.generation <= Get(s.generations, s.tokens[t].id))
  }

  lemma {:induction false} GenerationsGrow(s: State, step: Step)
    requires NoFutureGenerations(s)
    ensures NoFutureGenerations(Next(s, step))
  {
  }

  lemma {:induction false} NextKeeps(s: State, step: Step)
    requires Inv(s) && NoFutureGenerations(s) && Orderly(s, step)
    ensures Inv(Next(s, step))
  {
    hide Inv, Counts, NoFutureGenerations;
    assert forall t | 0 <= t < |s.tokens| :: Sound(s, t) by { InvParts(s); }
    match step
    case Reserve(id, mode) => ReserveKeeps(s, id, mode);
    case Grant(t) =>
      if t < |s.tokens| && s.tokens[t].stage == Reserved {
        StageKeeps(s, t, Active(Get(s.generations, s.tokens[t].id)));
      }
    case GiveUp(t) =>
      if t < |s.tokens| && s.tokens[t].stage == Reserved { ReleaseKeeps(s, t); }
    case Release(t, relinquish, ready) =>
      if t < |s.tokens| && s.tokens[t].stage.Active? {
        var g := s.tokens[t].stage.generation;
        if !Current(s, s.tokens[t].id, g) {
          StageKeeps(s, t, Invalidated);
        } else if ready {
          if Get(s.counts, s.tokens[t].id) <= 1 {
            StageKeeps(s, t, Detaching(g, relinquish));
          } else {
            ReleaseKeeps(s, t);
          }
        }
      }
    case DetachSucceeds(t) =>
      if t < |s.tokens| && s.tokens[t].stage.Detaching? {
        if Current(s, s.tokens[t].id, s.tokens[t].stage.generation) {
          ReleaseKeeps(s, t);
        } else {
          StaleReleaseKeeps(s, t);
        }
      }
    case DetachFails(t) =>
      if t < |s.tokens| && s.tokens[t].stage.Detaching? {
        FailKeeps(s, t);
      }
    case Invalidate(id) => InvalidateKeeps(s, id);
  }

  lemma {:induction false} InvParts(s: State)
    requires Inv(s)
    ensures forall t | 0 <= t < |s.tokens| :: Sound(s, t)
  {
    hide Sound, Counts;
  }

  lemma {:induction false} FailKeeps(s: State, t: nat)
    requires Inv(s) && t < |s.tokens| && s.tokens[t].stage.Detaching?
    ensures Inv(FailStep(s, t))
  {
    hide Inv;
    if !Current(s, s.tokens[t].id, s.tokens[t].stage.generation) {
      StageKeeps(s, t, Invalidated);
    } else if s.tokens[t].stage.relinquishOnFailure {
      var released := ReleaseToken(s, t, Released);
      ReleaseKeeps(s, t);
      CleanupKeeps(released, s.cleanupRequired + {s.tokens[t].id});
    } else {
      StageKeeps(s, t, Active(s.tokens[t].stage.generation));
    }
  }

  lemma {:induction false} CleanupKeeps(s: State, ids: set<Id>)
    requires Inv(s)
    ensures Inv(s.(cleanupRequired := ids))
  {
    hide Holders;
    var after := s.(cleanupRequired := ids);
    forall t | 0 <= t < |s.tokens|
      ensures Sound(after, t)
    {
      assert Sound(s, t);
    }
    forall id
      ensures Counts(after, id)
    {
      assert Counts(s, id);
      HoldersFrame(s, after, id, |s.tokens|);
    }
  }

  /** The invariant is kept by a step if and only if the step is orderly. */
  lemma {:induction false} KeptExactly(s: State, step: Step)
    requires Inv(s) && NoFutureGenerations(s)
    ensures Inv(Next(s, step)) <==> Orderly(s, step)
  {
    hide NoFutureGenerations, Holders;
    if Orderly(s, step) {
      NextKeeps(s, step);
    } else if step.Invalidate? {
      var t :| 0 <= t < |s.tokens| && s.tokens[t].id == step.id && s.tokens[t].stage == Reserved;
      var after := Next(s, step);
      HolderIsCounted(after, t, step.id, |after.tokens|);
      assert !Counts(after, step.id);
    } else {
      var t := step.token;
      var id := s.tokens[t].id;
      var after := Next(s, step);
      assert Counts(s, id);
      HoldersFrame(s, after, id, |s.tokens|);
      assert !Counts(after, id);
    }
  }

  lemma {:induction false} ReachedKeeps(steps: seq<Step>)
    requires AllOrderly(steps)
    ensures Inv(Reached(steps)) && NoFutureGenerations(Reached(steps))
  {
    hide Next, Orderly;
    if steps == [] {
      NothingCounted();
    } else {
      hide Inv, NoFutureGenerations;
      var k := |steps| - 1;
      assert forall i | 0 <= i < k :: steps[..k][..i] == steps[..i];
      ReachedKeeps(steps[..k]);
      NextKeeps(Reached(steps[..k]), steps[k]);
      GenerationsGrow(Reached(steps[..k]), steps[k]);
    }
  }

  lemma {:induction false} NothingCounted()
    ensures Inv(INITIAL) && NoFutureGenerations(INITIAL)
  {
    assert forall id :: Counts(INITIAL, id);
  }

  ghost predicate KeptThroughout(steps: seq<Step>) {
    Inv(Reached(steps)) && (steps == [] || KeptThroughout(steps[..|steps| - 1]))
  }

  /** Over whole runs: counts and records are right all the time exactly when all steps are
      orderly. */
  lemma {:induction false} KeptInRuns(steps: seq<Step>)
    ensures KeptThroughout(steps) <==> AllOrderly(steps)
  {
    hide Next, Orderly, Inv, NoFutureGenerations;
    if steps == [] {
      NothingCounted();
    } else {
      var k := |steps| - 1;
      var before := steps[..k];
      KeptInRuns(before);
      OrderlyBefore(steps);
      if AllOrderly(before) {
        ReachedKeeps(before);
        KeptExactly(Reached(before), steps[k]);
      }
    }
  }

  lemma {:induction false} OrderlyBefore(steps: seq<Step>)
    requires steps != []
    ensures var k := |steps| - 1;
            AllOrderly(steps) <==> AllOrderly(steps[..k]) && Orderly(Reached(steps[..k]), steps[k])
  {
    hide Reached, Orderly;
    var k := |steps| - 1;
    assert forall i | 0 <= i < k :: steps[..k][..i] == steps[..i] && steps[..k][i] == steps[i];
  }

  // ---- what every such run keeps ----

  /** A session's count is the number of its holders; an exclusive token is recorded exactly
      while it holds, and then it is the only holder. */
  lemma {:induction false} CountsAreHolders(steps: seq<Step>, id: Id)
    requires AllOrderly(steps)
    ensures var s := Reached(steps);
            && Get(s.counts, id) == AllHolders(s, id)
            && (id in s.exclusive <==>
                  exists t | 0 <= t < |s.tokens| ::
                    s.tokens[t].id == id && s.tokens[t].mode == Exclusive && Holds(s, s.tokens[t]))
            && (id in s.exclusive ==> AllHolders(s, id) == 1)
  {
    hide Reached, Holders, AllOrderly;
    var s := Reached(steps);
    ReachedKeeps(steps);
    assert Counts(s, id);
    if id in s.exclusive {
      assert Sound(s, s.exclusive[id]);
    }
    forall t | 0 <= t < |s.tokens| && s.tokens[t].id == id && s.tokens[t].mode == Exclusive && Holds(s, s.tokens[t])
      ensures id in s.exclusive
    {
      assert Sound(s, t);
    }
  }

  /** Whether a token holds the session, and for a shared reservation whether an exclusive one does. */
  predicate Conflicts(s: State, id: Id, mode: Mode) {
    exists t | 0 <= t < |s.tokens| ::
      s.tokens[t].id == id && Holds(s, s.tokens[t]) && (mode == Exclusive || s.tokens[t].mode == Exclusive)
  }

  /** A reservation is refused, and changes nothing, exactly when it conflicts with a holder: an
      exclusive one with any, a shared one with an exclusive one. Else it is granted, with a new
      token and one more holder. */
  lemma {:induction false} ReservesExactly(steps: seq<Step>, id: Id, mode: Mode)
    requires AllOrderly(steps)
    ensures var s, after := Reached(steps), Next(Reached(steps), Reserve(id, mode));
            if Conflicts(s, id, mode) then after == s
            else
              && after.tokens == s.tokens + [Token(id, mode, Reserved, 0)]
              && AllHolders(after, id) == AllHolders(s, id) + 1
              && Get(after.counts, id) == AllHolders(s, id) + 1
  {
    hide Reached, Holders, AllOrderly;
    var s := Reached(steps);
    ReachedKeeps(steps);
    assert Counts(s, id);
    CountsAreHolders(steps, id);
    if AllHolders(s, id) > 0 {
      SomeoneHolds(s, id, |s.tokens|);
    }
    if t: nat :| t < |s.tokens| && s.tokens[t].id == id && Holds(s, s.tokens[t]) {
      HolderIsCounted(s, t, id, |s.tokens|);
    }
    if MayReserve(s, id, mode) {
      var after := ReserveStep(s, id, mode);
      HoldersFrame(s, after, id, |s.tokens|);
      OneMore(after, id);
    }
  }

  lemma {:induction false} SomeoneHolds(s: State, id: Id, n: nat)
    requires n <= |s.tokens| && Holders(s, id, n) > 0
    ensures exists t | 0 <= t < n :: s.tokens[t].id == id && Holds(s, s.tokens[t])
  {
    if s.tokens[n - 1].id != id || !Holds(s, s.tokens[n - 1]) {
      SomeoneHolds(s, id, n - 1);
    }
  }

  // ---- how long a token holds its session ----

  /** Another token than `t` holds the session of `t`. */
  predicate Shares(s: State, t: nat)
    requires t < |s.tokens|
  {
    exists u | 0 <= u < |s.tokens| && u != t :: s.tokens[u].id == s.tokens[t].id && Holds(s, s.tokens[u])
  }

  /** The step ends the hold of token `t`: its call fails, it is given up while others hold the
      session, it is detached, it is given up in spite of a failure, or it is invalidated. */
  predicate Ends(s: State, step: Step, t: nat)
    requires t < |s.tokens|
  {
    match step
    case GiveUp(u) => u == t && s.tokens[t].stage == Reserved
    case Release(u, _, ready) => u == t && s.tokens[t].stage.Active? && ready && Shares(s, t)
    case DetachSucceeds(u) => u == t && s.tokens[t].stage.Detaching?
    case DetachFails(u) => u == t && s.tokens[t].stage.Detaching? && s.tokens[t].stage.relinquishOnFailure
    case Invalidate(id) => id == s.tokens[t].id && s.tokens[t].stage != Reserved
    case _ => false
  }

  /** A token holds its session until one of these steps, and never again. */
  lemma {:induction false} HoldsUntil(steps: seq<Step>, step: Step, t: nat)
    requires AllOrderly(steps) && t < |Reached(steps).tokens|
    ensures var s, after := Reached(steps), Next(Reached(steps), step);
            && t < |after.tokens| && after.tokens[t].id == s.tokens[t].id && after.tokens[t].mode == s.tokens[t].mode
            && (Holds(after, after.tokens[t]) <==> Holds(s, s.tokens[t]) && !Ends(s, step, t))
  {
    hide Reached, AllOrderly, Shares, Inv, NoFutureGenerations, Next, Ends;
    var s := Reached(steps);
    ReachedKeeps(steps);
    if Holds(s, s.tokens[t]) {
      SharesExactly(s, t);
    }
    HoldsAfter(s, step, t);
  }

  lemma {:induction false} HoldsAfter(s: State, step: Step, t: nat)
    requires t < |s.tokens| && NoFutureGenerations(s)
    requires Holds(s, s.tokens[t]) ==> (Get(s.counts, s.tokens[t].id) > 1 <==> Shares(s, t))
    ensures var after := Next(s, step);
            && t < |after.tokens| && after.tokens[t].id == s.tokens[t].id && after.tokens[t].mode == s.tokens[t].mode
            && (Holds(after, after.tokens[t]) <==> Holds(s, s.tokens[t]) && !Ends(s, step, t))
  {
    hide Shares;
    if step.Invalidate? {
      assert s.tokens[t].stage.Active? || s.tokens[t].stage.Detaching? ==>
               s.tokens[t].stage.generation <= Get(s.generations, s.tokens[t].id);
    } else if step.Reserve? || step.token != t {
      hide NoFutureGenerations, Next, Holds;
      Untouched(s, step, t);
      SameHolds(s, Next(s, step), s.tokens[t]);
    } else {
      hide NoFutureGenerations, ReserveStep;
    }
  }

  lemma {:induction false} Untouched(s: State, step: Step, t: nat)
    requires t < |s.tokens| && !step.Invalidate? && (step.Reserve? || step.token != t)
    ensures t < |Next(s, step).tokens| && Next(s, step).tokens[t] == s.tokens[t]
    ensures Next(s, step).generations == s.generations
  {
    hide MayReserve, Current;
  }

  lemma {:induction false} SharesExactly(s: State, t: nat)
    requires Inv(s) && t < |s.tokens| && Holds(s, s.tokens[t])
    ensures Get(s.counts, s.tokens[t].id) > 1 <==> Shares(s, t)
  {
    hide Holds, Holders;
    assert Counts(s, s.tokens[t].id);
    if Get(s.counts, s.tokens[t].id) > 1 {
      AnotherHolds(s, t, s.tokens[t].id, |s.tokens|);
    }
    if Shares(s, t) {
      var u :| 0 <= u < |s.tokens| && u != t && s.tokens[u].id == s.tokens[t].id && Holds(s, s.tokens[u]);
      if u < t {
        TwoHoldersCount(s, u, t, s.tokens[t].id, |s.tokens|);
      } else {
        TwoHoldersCount(s, t, u, s.tokens[t].id, |s.tokens|);
      }
    }
  }

  lemma {:induction false} AnotherHolds(s: State, t: nat, id: Id, n: nat)
    requires n <= |s.tokens| && t < |s.tokens| && Holders(s, id, n) > if t < n then 1 else 0
    ensures exists u | 0 <= u < |s.tokens| && u != t :: s.tokens[u].id == id && Holds(s, s.tokens[u])
  {
    hide Holds;
    if n - 1 == t || s.tokens[n - 1].id != id || !Holds(s, s.tokens[n - 1]) {
      AnotherHolds(s, t, id, n - 1);
    }
  }

  /** The last holder that gives up its lease asks the server to detach, and keeps its lease until
      the answer; a lease that others share is given up at once. */
  lemma {:induction false} AsksToDetachExactly(steps: seq<Step>, t: nat, relinquish: bool)
    requires AllOrderly(steps) && t < |Reached(steps).tokens| && Reached(steps).tokens[t].stage.Active?
    ensures var s, after := Reached(steps), Next(Reached(steps), Release(t, relinquish, true));
            && t < |after.tokens|
            && after.tokens[t].stage == if !Holds(s, s.tokens[t]) then Invalidated
                                        else if Shares(s, t) then Released
                                        else Detaching(s.tokens[t].stage.generation, relinquish)
  {
    hide Reached, AllOrderly, Shares, Holders;
    var s := Reached(steps);
    ReachedKeeps(steps);
    if Holds(s, s.tokens[t]) {
      SharesExactly(s, t);
    }
  }

  predicate NoInvalidation(steps: seq<Step>) { forall k | 0 <= k < |steps| :: !steps[k].Invalidate? }

  /** Without invalidations all leases are of the first generation. */
  predicate FirstGeneration(s: State) {
    && s.generations == map[]
    && (forall t | 0 <= t < |s.tokens| ::
          && (s.tokens[t].stage.Active? ==> s.tokens[t].stage.generation == 0)
          && (s.tokens[t].stage.Detaching? ==> s.tokens[t].stage.generation == 0))
  }

  lemma {:induction false} StaysFirst(s: State, step: Step)
    requires FirstGeneration(s) && !step.Invalidate?
    ensures FirstGeneration(Next(s, step)) && Orderly(s, step)
  {
  }

  lemma {:induction false} ReachesFirst(steps: seq<Step>)
    requires NoInvalidation(steps)
    ensures FirstGeneration(Reached(steps))
  {
    hide Next;
    if steps != [] {
      hide FirstGeneration;
      var k := |steps| - 1;
      ReachesFirst(steps[..k]);
      StaysFirst(Reached(steps[..k]), steps[k]);
    }
  }

  /** Runs without invalidations are orderly. */
  lemma {:induction false} UninvalidatedIsOrderly(steps: seq<Step>)
    requires NoInvalidation(steps)
    ensures AllOrderly(steps)
  {
    hide Orderly, Next, FirstGeneration, Reached;
    forall k | 0 <= k < |steps|
      ensures Orderly(Reached(steps[..k]), steps[k])
    {
      ReachesFirst(steps[..k]);
      StaysFirst(Reached(steps[..k]), steps[k]);
    }
  }

  /** Only the last holder asks the server to detach, so no two such requests of a session are
      ever out together. */
  lemma {:induction false} OnlyTheLastDetaches(steps: seq<Step>, t: nat, relinquish: bool)
    requires AllOrderly(steps)
    requires var s := Reached(steps);
             && t < |s.tokens| && s.tokens[t].stage.Active?
             && Next(s, Release(t, relinquish, true)).tokens[t].stage.Detaching?
    ensures var s := Reached(steps);
            forall u | 0 <= u < |s.tokens| && u != t && s.tokens[u].id == s.tokens[t].id :: !Holds(s, s.tokens[u])
  {
    hide Reached, Holders, AllOrderly;
    var s := Reached(steps);
    ReachedKeeps(steps);
    assert Counts(s, s.tokens[t].id);
    forall u | 0 <= u < |s.tokens| && u != t && s.tokens[u].id == s.tokens[t].id
      ensures !Holds(s, s.tokens[u])
    {
      if Holds(s, s.tokens[u]) {
        if u < t {
          TwoHoldersCount(s, u, t, s.tokens[t].id, |s.tokens|);
        } else {
          TwoHoldersCount(s, t, u, s.tokens[t].id, |s.tokens|);
        }
      }
    }
  }

  /** Each token is released at most once, across detach, dispose, failure and retry: exactly
      when it has come to its end as released. This holds in every run, orderly or not. */
  lemma {:induction false} ReleasedOnce(steps: seq<Step>, t: nat)
    requires t < |Reached(steps).tokens|
    ensures Reached(steps).tokens[t].releases == if Reached(steps).tokens[t].stage == Released then 1 else 0
  {
    if steps != [] {
      var before := Reached(steps[..|steps| - 1]);
      TokensStay(before, steps[|steps| - 1]);
      if t < |before.tokens| {
        ReleasedOnce(steps[..|steps| - 1], t);
        ReleasesStep(before, steps[|steps| - 1], t);
      } else {
        FreshToken(before, steps[|steps| - 1]);
      }
    }
  }

  lemma {:induction false} TokensStay(s: State, step: Step)
    ensures |s.tokens| <= |Next(s, step).tokens| <= |s.tokens| + 1
  {
  }

  lemma {:induction false} FreshToken(s: State, step: Step)
    requires |Next(s, step).tokens| == |s.tokens| + 1
    ensures Next(s, step).tokens[|s.tokens|].stage == Reserved && Next(s, step).tokens[|s.tokens|].releases == 0
  {
  }

  lemma {:induction false} ReleasesStep(s: State, step: Step, t: nat)
    requires t < |s.tokens| && s.tokens[t].releases == (if s.tokens[t].stage == Released then 1 else 0)
    ensures t < |Next(s, step).tokens|
    ensures var token := Next(s, step).tokens[t];
            token.releases == if token.stage == Released then 1 else 0
  {
  }

  lemma {:induction false} DetachPending(id: Id) returns (steps: seq<Step>)
    ensures Reached(steps) ==
            State([Token(id, Shared, Detaching(0, false), 0)], map[id := 1], map[], map[], {})
  {
    assert Reached([]) == INITIAL;
    hide Reached, FailStep, InvalidateStep;
    var shared := Token(id, Shared, Reserved, 0);
    steps := Take([], Reserve(id, Shared), State([shared], map[id := 1], map[], map[], {}));
    steps := Take(steps, Grant(0), State([shared.(stage := Active(0))], map[id := 1], map[], map[], {}));
    steps := Take(steps, Release(0, false, true),
                  State([shared.(stage := Detaching(0, false))], map[id := 1], map[], map[], {}));
  }

  /** A response to a detach request may be late: the lease it belonged to is no longer current,
      and releasing it takes the count from another holder. */
  lemma {:induction false} LateDetachMiscounts(id: Id) returns (steps: seq<Step>)
    ensures var s := Reached(steps); Get(s.counts, id) == 0 && AllHolders(s, id) == 1
  {
    hide Reached, FailStep, ReleaseStep, Holders;
    var shared := Token(id, Shared, Reserved, 0);
    var detaching := shared.(stage := Detaching(0, false));
    steps := DetachPending(id);
    assert map[id := 1] - {id} == map[];
    steps := Take(steps, Invalidate(id), State([detaching], map[], map[], map[id := 1], {}));
    steps := Take(steps, Reserve(id, Shared), State([detaching, shared], map[id := 1], map[], map[id := 1], {}));
    var after := State([Token(id, Shared, Released, 1), shared], map[], map[], map[id := 1], {});
    steps := Take(steps, DetachSucceeds(0), after);
    OneHolder(after, id);
  }

  lemma {:induction false} OneHolder(s: State, id: Id)
    requires |s.tokens| == 2 && s.tokens[0].stage == Released && s.tokens[1].stage == Reserved && s.tokens[1].id == id
    ensures AllHolders(s, id) == 1
  {
    assert Holders(s, id, 1) == Holders(s, id, 0);
  }

  lemma {:induction false} Take(before: seq<Step>, step: Step, after: State) returns (steps: seq<Step>)
    requires Next(Reached(before), step) == after
    ensures Reached(steps) == after
  {
    hide Next;
    steps := before + [step];
    assert steps[..|before|] == before;
  }
}
