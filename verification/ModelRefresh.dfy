/**
 Refreshing one provider's models in packages/ai/src/models.ts: generations, abort
 controllers and the publication chain, over every interleaving of refreshes, replacements of
 the provider and completions of the store. All maps are keyed by the provider, so providers
 do not meet.
 */
module ModelRefresh {
  import opened Wrappers

  type Models = string

  /** A refresh was begun in a generation. Its signal is aborted by its controller, which a
      later generation aborts, or by its caller. */
  datatype Refresh = Refresh(generation: nat, superseded: bool, cancelled: bool, finished: bool)

  datatype Persist = Delete | Write(models: Models)

  /** A publication waits for the one before it, is in its storage step, has been stored and not
      looked at again, or has settled. */
  datatype Stage = Queued | Storing | Stored | Settled(published: bool)

  datatype Publication = Publication(refresh: nat, persist: Option<Persist>, update: Option<Models>, stage: Stage)

  /** What has come of publications, in order: completed store mutations and updates in memory. */
  datatype Effect = Mutated(generation: nat, persist: Persist) | Updated(generation: nat, models: Models)

  datatype State = State(generation: nat, controller: Option<nat>, refreshes: seq<Refresh>,
                         publications: seq<Publication>, effects: seq<Effect>)

  const INITIAL := State(0, None, [], [], [])

  datatype Step =
    | Begin
    | Supersede
    | CancelCaller(refresh: nat)
    | FinishRefresh(refresh: nat)
    | Publish(refresh: nat, persist: Option<Persist>, update: Option<Models>)
    | TakeTurn(publication: nat)
    | StoreReturns(publication: nat, ok: bool)
    | Conclude(publication: nat)

  predicate Aborted(r: Refresh) { r.superseded || r.cancelled }

  /** supersedeProviderRefresh. */
  function SupersedeStep(s: State): State {
    s.(generation := s.generation + 1, controller := None,
       refreshes := if s.controller.Some? && s.controller.value < |s.refreshes| then
                      s.refreshes[s.controller.value := s.refreshes[s.controller.value].(superseded := true)]
                    else s.refreshes)
  }

  /** beginProviderRefresh. */
  function BeginStep(s: State): State {
    var next := SupersedeStep(s);
    next.(refreshes := next.refreshes + [Refresh(next.generation, false, false, false)],
          controller := Some(|s.refreshes|))
  }

  function WithStage(s: State, p: nat, stage: Stage): State
    requires p < |s.publications|
  {
    s.(publications := s.publications[p := s.publications[p].(stage := stage)])
  }

  predicate Known(s: State, p: nat) {
    p < |s.publications| && s.publications[p].refresh < |s.refreshes|
  }

  function GenerationOf(s: State, p: nat): nat
    requires Known(s, p)
  {
    s.refreshes[s.publications[p].refresh].generation
  }

  /** What a publication checks before its storage step and again after it. */
  predicate Fresh(s: State, p: nat)
    requires Known(s, p)
  {
    !Aborted(s.refreshes[s.publications[p].refresh]) && GenerationOf(s, p) == s.generation
  }

  /** The update in memory, if there is one. */
  function ApplyStep(s: State, p: nat): State
    requires Known(s, p)
  {
    var update := s.publications[p].update;
    WithStage(s, p, Settled(true))
    .(effects := if update.None? then s.effects else s.effects + [Updated(GenerationOf(s, p), update.value)])
  }

  predicate IsSettled(s: State, p: nat)
    requires p < |s.publications|
  {
    s.publications[p].stage.Settled?
  }

  /** What a publication does when the one before it has settled. */
  function TurnStep(s: State, p: nat): State
    requires Known(s, p)
  {
    if !Fresh(s, p) then WithStage(s, p, Settled(false))
    else if s.publications[p].persist.None? then ApplyStep(s, p)
    else WithStage(s, p, Storing)
  }

  /** One step; a step that is not enabled changes nothing. */
  function Next(s: State, step: Step): State {
    match step
    case Begin => BeginStep(s)
    case Supersede => SupersedeStep(s)
    case CancelCaller(r) =>
      if r < |s.refreshes| then s.(refreshes := s.refreshes[r := s.refreshes[r].(cancelled := true)]) else s
    case FinishRefresh(r) =>
      if r < |s.refreshes| then
        s.(refreshes := s.refreshes[r := s.refreshes[r].(finished := true)],
           controller := if s.controller == Some(r) then None else s.controller)
      else s
    case Publish(r, persist, update) =>
      if r < |s.refreshes| then s.(publications := s.publications + [Publication(r, persist, update, Queued)])
      else s
    case TakeTurn(p) =>
      if Known(s, p) && s.publications[p].stage == Queued && (p > 0 ==> IsSettled(s, p - 1)) then TurnStep(s, p)
      else s
    case StoreReturns(p, ok) =>
      if Known(s, p) && s.publications[p].stage == Storing && s.publications[p].persist.Some? then
        if ok then
          WithStage(s, p, Stored)
          .(effects := s.effects + [Mutated(GenerationOf(s, p), s.publications[p].persist.value)])
        else WithStage(s, p, Settled(false))
      else s
    case Conclude(p) =>
      if Known(s, p) && s.publications[p].stage == Stored then
        if Fresh(s, p) then ApplyStep(s, p) else WithStage(s, p, Settled(false))
      else s
  }

  function Reached(steps: seq<Step>): State {
    if steps == [] then INITIAL else Next(Reached(steps[..|steps| - 1]), steps[|steps| - 1])
  }

  // ---- the invariant ----

  /** Publications settle in their order: only the first unsettled one may have left the queue. */
  predicate InTurn(s: State) {
    forall i, j | 0 <= i < j < |s.publications| && s.publications[j].stage != Queued :: s.publications[i].stage.Settled?
  }

  predicate Sorted(effects: seq<Effect>) {
    forall i, j | 0 <= i < j < |effects| :: effects[i].generation <= effects[j].generation
  }

  predicate NoneAbove(effects: seq<Effect>, generation: nat) {
    forall i | 0 <= i < |effects| :: effects[i].generation <= generation
  }

  predicate Working(stage: Stage) { stage == Storing || stage == Stored }

  predicate PublicationOk(s: State, p: nat)
    requires p < |s.publications|
  {
    && Known(s, p)
    && (Working(s.publications[p].stage) ==>
          s.publications[p].persist.Some? && NoneAbove(s.effects, GenerationOf(s, p)))
    && (s.publications[p].stage == Stored ==>
          s.effects != []
          && s.effects[|s.effects| - 1] == Mutated(GenerationOf(s, p), s.publications[p].persist.value))
  }

  /** The registered controller is that of the only running refresh that is not superseded. */
  predicate RefreshOk(s: State, r: nat)
    requires r < |s.refreshes|
  {
    && s.refreshes[r].generation <= s.generation
    && (!s.refreshes[r].finished && !s.refreshes[r].superseded ==> s.controller == Some(r))
    && (s.controller == Some(r) ==> s.refreshes[r].generation == s.generation && !s.refreshes[r].superseded)
  }

  predicate Inv(s: State) {
    && InTurn(s)
    && Sorted(s.effects) && NoneAbove(s.effects, s.generation)
    && (s.controller.Some? ==> s.controller.value < |s.refreshes|)
    && (forall r | 0 <= r < |s.refreshes| :: RefreshOk(s, r))
    && (forall p | 0 <= p < |s.publications| :: PublicationOk(s, p))
  }

  // ---- the invariant is kept ----

  /** Refreshes come, change their signals or finish; their generations stay. */
  lemma {:induction false} RefreshesStep(s: State, after: State)
    requires Inv(s) && after.publications == s.publications && after.effects == s.effects
    requires s.generation <= after.generation && |s.refreshes| <= |after.refreshes|
    requires forall r | 0 <= r < |s.refreshes| :: after.refreshes[r].generation == s.refreshes[r].generation
    requires after.controller.Some? ==> after.controller.value < |after.refreshes|
    requires forall r | 0 <= r < |after.refreshes| :: RefreshOk(after, r)
    ensures Inv(after)
  {
    forall p | 0 <= p < |after.publications|
      ensures PublicationOk(after, p)
    {
      assert PublicationOk(s, p);
    }
  }

  lemma {:induction false} SupersedeKeeps(s: State)
    requires Inv(s)
    ensures Inv(SupersedeStep(s))
    ensures forall r | 0 <= r < |s.refreshes| ::
              SupersedeStep(s).refreshes[r].finished || SupersedeStep(s).refreshes[r].superseded
  {
    var after := SupersedeStep(s);
    forall r | 0 <= r < |after.refreshes|
      ensures RefreshOk(after, r) && (after.refreshes[r].finished || after.refreshes[r].superseded)
    {
      assert RefreshOk(s, r);
    }
    RefreshesStep(s, after);
  }

  lemma {:induction false} BeginKeeps(s: State)
    requires Inv(s)
    ensures Inv(BeginStep(s))
  {
    var middle, after := SupersedeStep(s), BeginStep(s);
    SupersedeKeeps(s);
    forall r | 0 <= r < |after.refreshes|
      ensures RefreshOk(after, r)
    {
      if r < |s.refreshes| {
        assert RefreshOk(middle, r);
      }
    }
    RefreshesStep(middle, after);
  }

  lemma {:induction false} SignalKeeps(s: State, step: Step)
    requires Inv(s) && (step.CancelCaller? || step.FinishRefresh?)
    ensures Inv(Next(s, step))
  {
    var after := Next(s, step);
    forall r | 0 <= r < |after.refreshes|
      ensures RefreshOk(after, r)
    {
      assert RefreshOk(s, r);
    }
    RefreshesStep(s, after);
  }

  lemma {:induction false} PublishKeeps(s: State, r: nat, persist: Option<Persist>, update: Option<Models>)
    requires Inv(s) && r < |s.refreshes|
    ensures Inv(s.(publications := s.publications + [Publication(r, persist, update, Queued)]))
  {
    var after := s.(publications := s.publications + [Publication(r, persist, update, Queued)]);
    forall q | 0 <= q < |s.refreshes|
      ensures RefreshOk(after, q)
    {
      assert RefreshOk(s, q);
    }
    forall p | 0 <= p < |after.publications|
      ensures PublicationOk(after, p)
    {
      if p < |s.publications| {
        assert PublicationOk(s, p);
      }
    }
  }

  lemma {:induction false} MoreSorted(effects: seq<Effect>, more: seq<Effect>, generation: nat)
    requires Sorted(effects) && |more| <= 1
    requires more != [] ==> more[0].generation == generation && NoneAbove(effects, generation)
    ensures Sorted(effects + more)
    ensures forall g | g >= generation && NoneAbove(effects, g) :: NoneAbove(effects + more, g)
  {
  }

  /** The publication whose turn it is moves on, perhaps with an effect of its generation. */
  lemma {:induction false} TurnKeeps(s: State, p: nat, stage: Stage, more: seq<Effect>)
    requires Inv(s) && Known(s, p) && stage != Queued && !s.publications[p].stage.Settled?
    requires forall i | 0 <= i < p :: s.publications[i].stage.Settled?
    requires |more| <= 1 && (more != [] ==> more[0].generation == GenerationOf(s, p))
    requires (more != [] || Working(stage)) ==> NoneAbove(s.effects, GenerationOf(s, p))
    requires Working(stage) ==> s.publications[p].persist.Some?
    requires stage == Stored ==> more == [Mutated(GenerationOf(s, p), s.publications[p].persist.value)]
    requires forall q | 0 <= q < |s.publications| && q != p :: !Working(s.publications[q].stage)
    ensures Inv(WithStage(s, p, stage).(effects := s.effects + more))
  {
    var after := WithStage(s, p, stage).(effects := s.effects + more);
    assert RefreshOk(s, s.publications[p].refresh);
    MoreSorted(s.effects, more, GenerationOf(s, p));
    forall q | 0 <= q < |s.refreshes|
      ensures RefreshOk(after, q)
    {
      assert RefreshOk(s, q);
    }
    forall q | 0 <= q < |after.publications|
      ensures PublicationOk(after, q)
    {
      assert PublicationOk(s, q);
    }
  }

  /** A publication that has its turn has it alone. */
  lemma {:induction false} TurnIsAlone(s: State, p: nat)
    requires Inv(s) && p < |s.publications|
    requires Working(s.publications[p].stage)
             || (s.publications[p].stage == Queued && (p > 0 ==> IsSettled(s, p - 1)))
    ensures forall i | 0 <= i < p :: s.publications[i].stage.Settled?
    ensures forall q | 0 <= q < |s.publications| && q != p :: !Working(s.publications[q].stage)
  {
    forall i | 0 <= i < p
      ensures s.publications[i].stage.Settled?
    {
      if s.publications[p].stage == Queued && i < p - 1 {
        assert s.publications[p - 1].stage != Queued;
      }
    }
    forall q | 0 <= q < |s.publications| && q != p
      ensures !Working(s.publications[q].stage)
    {
    }
  }

  lemma {:induction false} PublicationKeeps(s: State, step: Step)
    requires Inv(s) && (step.TakeTurn? || step.StoreReturns? || step.Conclude?)
    ensures Inv(Next(s, step))
  {
    var p := step.publication;
    if p < |s.publications| && Next(s, step) != s {
      assert PublicationOk(s, p);
      TurnIsAlone(s, p);
      assert s.effects + [] == s.effects;
      var g := GenerationOf(s, p);
      var update := s.publications[p].update;
      var applied := if update.Some? then [Updated(g, update.value)] else [];
      if step.StoreReturns? && step.ok {
        TurnKeeps(s, p, Stored, [Mutated(g, s.publications[p].persist.value)]);
      } else if step.StoreReturns? || !Fresh(s, p) {
        TurnKeeps(s, p, Settled(false), []);
      } else if step.TakeTurn? && s.publications[p].persist.Some? {
        TurnKeeps(s, p, Storing, []);
      } else {
        TurnKeeps(s, p, Settled(true), applied);
      }
    }
  }

  lemma {:induction false} NextKeeps(s: State, step: Step)
    requires Inv(s)
    ensures Inv(Next(s, step))
  {
    hide Inv;
    match step
    case Begin => BeginKeeps(s);
    case Supersede => SupersedeKeeps(s);
    case CancelCaller(_) => SignalKeeps(s, step);
    case FinishRefresh(_) => SignalKeeps(s, step);
    case Publish(r, persist, update) =>
      if r < |s.refreshes| { PublishKeeps(s, r, persist, update); }
    case _ => PublicationKeeps(s, step);
  }

  lemma {:induction false} ReachedKeeps(steps: seq<Step>)
    ensures Inv(Reached(steps))
  {
    hide Next;
    if steps != [] {
      hide Inv;
      ReachedKeeps(steps[..|steps| - 1]);
      NextKeeps(Reached(steps[..|steps| - 1]), steps[|steps| - 1]);
    }
  }

  // ---- what every run keeps ----

  /** At most one publication of a provider is in its storage step. */
  lemma {:induction false} OneInStorage(steps: seq<Step>, p: nat, q: nat)
    requires var s := Reached(steps);
             && p < |s.publications| && q < |s.publications|
             && s.publications[p].stage == Storing && s.publications[q].stage == Storing
    ensures p == q
  {
    hide Reached;
    ReachedKeeps(steps);
    TurnIsAlone(Reached(steps), p);
  }

  /** The generations of completed store mutations and of updates in memory, in the order in
      which they happen, never decrease: a superseded refresh overwrites nothing newer, in the
      store or in memory. */
  lemma {:induction false} GenerationsNeverDecrease(steps: seq<Step>, i: nat, j: nat)
    requires i <= j < |Reached(steps).effects|
    ensures Reached(steps).effects[i].generation <= Reached(steps).effects[j].generation
            <= Reached(steps).generation
  {
    hide Reached;
    ReachedKeeps(steps);
  }

  /** Effects are never undone or reordered later. */
  lemma {:induction false} EffectsStay(s: State, step: Step)
    ensures s.effects <= Next(s, step).effects && |Next(s, step).effects| <= |s.effects| + 1
  {
  }

  /** At most one running refresh of a provider has not been superseded, and it is the one of
      the present generation. */
  lemma {:induction false} OneRefreshRuns(steps: seq<Step>, a: nat, b: nat)
    requires var s := Reached(steps);
             && a < |s.refreshes| && !s.refreshes[a].finished && !s.refreshes[a].superseded
             && b < |s.refreshes| && !s.refreshes[b].finished && !s.refreshes[b].superseded
    ensures a == b && Reached(steps).refreshes[a].generation == Reached(steps).generation
  {
    hide Reached;
    ReachedKeeps(steps);
    assert RefreshOk(Reached(steps), a) && RefreshOk(Reached(steps), b);
  }

  // ---- when a publication is applied ----

  /** The steps after which a refresh may publish no more: a later refresh or another provider
      takes over, or its own caller gives up. */
  predicate Displaces(step: Step, refresh: nat) {
    step.Begin? || step.Supersede? || step == CancelCaller(refresh)
  }

  /** A publication has kept its refresh and what it persists and updates. */
  predicate SamePublication(s: State, after: State, p: nat) {
    && Known(s, p) && Known(after, p) && GenerationOf(after, p) == GenerationOf(s, p)
    && after.publications[p] == s.publications[p].(stage := after.publications[p].stage)
  }

  /** Freshness survives a step exactly when it does not displace the refresh, and is never
      regained. */
  lemma {:induction false} FreshExactly(s: State, step: Step, p: nat)
    requires Inv(s) && Known(s, p)
    ensures SamePublication(s, Next(s, step), p)
    ensures Fresh(Next(s, step), p) <==> Fresh(s, p) && !Displaces(step, s.publications[p].refresh)
  {
    assert RefreshOk(s, s.publications[p].refresh);
    hide Inv, InTurn, Sorted, NoneAbove, IsSettled;
  }

  predicate Undisplaced(steps: seq<Step>, refresh: nat) {
    forall k | 0 <= k < |steps| :: !Displaces(steps[k], refresh)
  }

  lemma {:induction false} ReachedMore(steps: seq<Step>, step: Step)
    ensures Reached(steps + [step]) == Next(Reached(steps), step)
  {
    hide Next;
    assert (steps + [step])[..|steps|] == steps;
  }

  lemma {:induction false} UndisplacedMore(steps: seq<Step>, step: Step, refresh: nat)
    ensures Undisplaced(steps + [step], refresh) <==> Undisplaced(steps, refresh) && !Displaces(step, refresh)
  {
    hide Displaces;
    assert forall k | 0 <= k < |steps| :: (steps + [step])[k] == steps[k];
    assert (steps + [step])[|steps|] == step;
  }

  lemma {:induction false} FreshOverRuns(before: seq<Step>, later: seq<Step>, p: nat)
    requires Known(Reached(before), p)
    ensures SamePublication(Reached(before), Reached(before + later), p)
    ensures Fresh(Reached(before + later), p)
            <==> Fresh(Reached(before), p) && Undisplaced(later, Reached(before).publications[p].refresh)
    decreases |later|
  {
    hide Reached, Next, Displaces, Inv;
    if later == [] {
      assert before + later == before;
    } else {
      hide Fresh, Undisplaced;
      var first, last := later[..|later| - 1], later[|later| - 1];
      assert before + later == before + first + [last] && later == first + [last];
      FreshOverRuns(before, first, p);
      ReachedKeeps(before + first);
      FreshExactly(Reached(before + first), last, p);
      ReachedMore(before + first, last);
      UndisplacedMore(first, last, Reached(before).publications[p].refresh);
    }
  }

  /** A publication takes its turn and passes the first check, so that its storage step begins. */
  predicate StartsStoring(s: State, p: nat) {
    && Known(s, p) && s.publications[p].stage == Queued && (p > 0 ==> IsSettled(s, p - 1))
    && Fresh(s, p) && s.publications[p].persist.Some?
  }

  /** A publication whose storage step began and succeeded is applied in memory if and only if,
      between its turn and its conclusion, no refresh began, the provider was not replaced and its
      caller did not give up. Either way the store holds what it has persisted. */
  lemma {:induction false} AppliedExactly(before: seq<Step>, later: seq<Step>, p: nat)
    requires StartsStoring(Reached(before), p)
    requires p < |Reached(before + [TakeTurn(p)] + later).publications|
    requires Reached(before + [TakeTurn(p)] + later).publications[p].stage == Stored
    ensures var publication := Reached(before).publications[p];
            var generation := GenerationOf(Reached(before), p);
            var stored := Reached(before + [TakeTurn(p)] + later);
            var after := Next(stored, Conclude(p));
            && stored.effects != []
            && stored.effects[|stored.effects| - 1] == Mutated(generation, publication.persist.value)
            && p < |after.publications|
            && (after.publications[p].stage == Settled(true) <==> Undisplaced(later, publication.refresh))
            && after.effects == stored.effects
                 + if Undisplaced(later, publication.refresh) && publication.update.Some? then
                     [Updated(generation, publication.update.value)]
                   else []
  {
    var s := Reached(before);
    var turn := before + [TakeTurn(p)];
    ReachedMore(before, TakeTurn(p));
    assert Reached(turn) == WithStage(s, p, Storing);
    hide Reached, Undisplaced, Next;
    FreshOverRuns(turn, later, p);
    PublicationIsOk(turn + later, p);
    Concludes(Reached(turn + later), p);
  }

  lemma {:induction false} Concludes(s: State, p: nat)
    requires Known(s, p) && s.publications[p].stage == Stored
    ensures var after := Next(s, Conclude(p));
            && p < |after.publications| && after.publications[p].stage == Settled(Fresh(s, p))
            && after.effects == s.effects
                 + if Fresh(s, p) && s.publications[p].update.Some? then
                     [Updated(GenerationOf(s, p), s.publications[p].update.value)]
                   else []
  {
  }

  /** It is the publication's turn: the one before it has settled. */
  predicate HasTurn(s: State, p: nat) {
    Known(s, p) && s.publications[p].stage == Queued && (p > 0 ==> s.publications[p - 1].stage.Settled?)
  }

  /** What a publication comes to that has nothing to store: when it takes its turn its update is
      applied if and only if its refresh was current when it was published and nothing has
      displaced it since; and else nothing happens. */
  lemma {:induction false} AppliedAtOnce(before: seq<Step>, later: seq<Step>, p: nat)
    requires Known(Reached(before), p) && Reached(before).publications[p].persist.None?
    requires HasTurn(Reached(before + later), p)
    ensures var publication := Reached(before).publications[p];
            var s, after := Reached(before + later), Next(Reached(before + later), TakeTurn(p));
            var current := Fresh(Reached(before), p) && Undisplaced(later, publication.refresh);
            && |after.publications| == |s.publications|
            && after.publications[p].stage == Settled(current)
            && after.effects == s.effects
                 + if current && publication.update.Some? then
                     [Updated(GenerationOf(Reached(before), p), publication.update.value)]
                   else []
  {
    hide Reached, Undisplaced, Next;
    FreshOverRuns(before, later, p);
    TurnExactly(Reached(before + later), p);
  }

  /** What a publication does with its turn: nothing if it is stale; else it is applied at once if it
      has nothing to store, and goes to the store if it has. */
  lemma {:induction false} TurnExactly(s: State, p: nat)
    requires HasTurn(s, p)
    ensures var publication := s.publications[p];
            var after := Next(s, TakeTurn(p));
            && after.refreshes == s.refreshes && after.generation == s.generation && after.controller == s.controller
            && |after.publications| == |s.publications|
            && (forall q | 0 <= q < |s.publications| && q != p :: after.publications[q] == s.publications[q])
            && after.publications[p] == publication.(stage := after.publications[p].stage)
            && after.publications[p].stage ==
                 (if !Fresh(s, p) then Settled(false) else if publication.persist.None? then Settled(true) else Storing)
            && after.effects == s.effects
                 + if Fresh(s, p) && publication.persist.None? && publication.update.Some? then
                     [Updated(GenerationOf(s, p), publication.update.value)]
                   else []
  {
    assert s.effects + [] == s.effects;
  }

  lemma {:induction false} PublicationIsOk(steps: seq<Step>, p: nat)
    requires p < |Reached(steps).publications|
    ensures PublicationOk(Reached(steps), p)
  {
    hide Reached;
    ReachedKeeps(steps);
  }

  lemma {:induction false} Take(before: seq<Step>, step: Step, after: State) returns (steps: seq<Step>)
    requires Next(Reached(before), step) == after
    ensures Reached(steps) == after
  {
    hide Next;
    steps := before + [step];
    assert steps[..|before|] == before;
  }

  /** A refresh that is superseded during its storage step still completes it, and then leaves
      memory alone: the store may hold models that memory never gets. */
  lemma {:induction false} StoredButNotApplied(models: Models) returns (steps: seq<Step>)
    ensures var s := Reached(steps);
            s.effects == [Mutated(1, Write(models))] && s.generation == 2
            && |s.publications| == 1 && s.publications[0].stage == Settled(false)
  {
    hide Reached, SupersedeStep, ApplyStep;
    var refresh, late := Refresh(1, false, false, false), Refresh(1, true, false, false);
    var publication := Publication(0, Some(Write(models)), Some(models), Storing);
    steps := InStorage(models);
    assert [refresh][0 := late] == [late];
    SupersededOnce(refresh, publication);
    steps := Take(steps, Supersede, State(2, None, [late], [publication], []));
    steps := Take(steps, StoreReturns(0, true),
                  State(2, None, [late], [publication.(stage := Stored)], [Mutated(1, Write(models))]));
    steps := Take(steps, Conclude(0),
                  State(2, None, [late], [publication.(stage := Settled(false))], [Mutated(1, Write(models))]));
  }

  lemma {:induction false} SupersededOnce(refresh: Refresh, publication: Publication)
    ensures SupersedeStep(State(1, Some(0), [refresh], [publication], [])) ==
            State(2, None, [refresh.(superseded := true)], [publication], [])
  {
  }

  lemma {:induction false} InStorage(models: Models) returns (steps: seq<Step>)
    ensures Reached(steps) ==
            State(1, Some(0), [Refresh(1, false, false, false)],
                  [Publication(0, Some(Write(models)), Some(models), Storing)], [])
  {
    assert Reached([]) == INITIAL;
    hide Reached, ApplyStep;
    var refresh := Refresh(1, false, false, false);
    var publication := Publication(0, Some(Write(models)), Some(models), Queued);
    steps := Take([], Begin, State(1, Some(0), [refresh], [], []));
    steps := Take(steps, Publish(0, Some(Write(models)), Some(models)),
                  State(1, Some(0), [refresh], [publication], []));
    steps := Take(steps, TakeTurn(0), State(1, Some(0), [refresh], [publication.(stage := Storing)], []));
  }

  // ---- the chain never gets stuck ----

  predicate SettledBelow(s: State, n: nat) {
    forall p | 0 <= p < n && p < |s.publications| :: s.publications[p].stage.Settled?
  }

  /** The next step of the first publication that has not settled. */
  function Turn(stage: Stage, p: nat): Step {
    match stage
    case Queued => TakeTurn(p)
    case Storing => StoreReturns(p, true)
    case _ => Conclude(p)
  }

  function Rank(stage: Stage): nat {
    match stage
    case Queued => 3
    case Storing => 2
    case Stored => 1
    case Settled(_) => 0
  }

  lemma {:induction false} TurnComes(s: State, p: nat)
    requires Inv(s) && p < |s.publications| && SettledBelow(s, p) && !s.publications[p].stage.Settled?
    ensures var after := Next(s, Turn(s.publications[p].stage, p));
            && |after.publications| == |s.publications| && after.refreshes == s.refreshes
            && SettledBelow(after, p) && Rank(after.publications[p].stage) < Rank(s.publications[p].stage)
  {
    assert PublicationOk(s, p);
    hide Inv, PublicationOk;
  }

  /** From every state that is reached, the publications can settle one after the other, without
      any other step. */
  lemma {:induction false} PublicationsCanSettle(steps: seq<Step>, n: nat) returns (more: seq<Step>)
    requires n <= |Reached(steps).publications|
    ensures |Reached(steps + more).publications| == |Reached(steps).publications|
    ensures SettledBelow(Reached(steps + more), n) && Reached(steps + more).refreshes == Reached(steps).refreshes
  {
    hide Reached, Next;
    if n == 0 {
      more := [];
      assert steps + more == steps;
    } else {
      var before := PublicationsCanSettle(steps, n - 1);
      var later := PublicationCanSettle(steps + before, n - 1);
      more := before + later;
      assert steps + more == steps + before + later;
    }
  }

  lemma {:induction false} PublicationCanSettle(steps: seq<Step>, p: nat) returns (more: seq<Step>)
    requires p < |Reached(steps).publications| && SettledBelow(Reached(steps), p)
    ensures |Reached(steps + more).publications| == |Reached(steps).publications|
    ensures SettledBelow(Reached(steps + more), p + 1) && Reached(steps + more).refreshes == Reached(steps).refreshes
    decreases Rank(Reached(steps).publications[p].stage)
  {
    hide Reached, Next, Inv, Turn, Rank;
    var stage := Reached(steps).publications[p].stage;
    if stage.Settled? {
      more := [];
      assert steps + more == steps;
    } else {
      ReachedKeeps(steps);
      TurnComes(Reached(steps), p);
      ReachedMore(steps, Turn(stage, p));
      var later := PublicationCanSettle(steps + [Turn(stage, p)], p);
      more := [Turn(stage, p)] + later;
      assert steps + more == steps + [Turn(stage, p)] + later;
    }
  }
}
