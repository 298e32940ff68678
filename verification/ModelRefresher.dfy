/**
 The refresh bookkeeping of one provider as it runs, with the store and the models in memory:
 every method is what one of the source's functions does between two awaits, proved to be the
 step of ModelRefresh with that name.
 */
module ModelRefresher {
  import opened Wrappers
  import opened ModelRefresh

  /** What the store holds after some effects. */
  function StoreAfter(effects: seq<Effect>): Option<Models> {
    if effects == [] then None
    else
      match effects[|effects| - 1]
      case Mutated(_, Delete) => None
      case Mutated(_, Write(models)) => Some(models)
      case Updated(_, _) => StoreAfter(effects[..|effects| - 1])
  }

  /** What a provider's memory holds after some effects, if it `held` something before. */
  function MemoryAfter(held: Option<Models>, effects: seq<Effect>): Option<Models> {
    if effects == [] then held
    else
      match effects[|effects| - 1]
      case Updated(_, models) => Some(models)
      case Mutated(_, _) => MemoryAfter(held, effects[..|effects| - 1])
  }

  lemma {:induction false} AfterOne(held: Option<Models>, effects: seq<Effect>, e: Effect)
    ensures StoreAfter(effects + [e]) ==
            if e.Updated? then StoreAfter(effects) else Persisted(e.persist)
    ensures MemoryAfter(held, effects + [e]) == if e.Updated? then Some(e.models) else MemoryAfter(held, effects)
  {
    assert (effects + [e])[..|effects|] == effects;
  }

  /** What a stored publication comes to, in the store and in memory: the store holds what was
      persisted, and memory gets the update exactly when nothing displaced the refresh. */
  lemma {:induction false} ArrivesExactly(held: Option<Models>, before: seq<Step>, later: seq<Step>, p: nat)
    requires StartsStoring(Reached(before), p)
    requires p < |Reached(before + [TakeTurn(p)] + later).publications|
    requires Reached(before + [TakeTurn(p)] + later).publications[p].stage == Stored
    ensures var publication := Reached(before).publications[p];
            var after := Reached(before + [TakeTurn(p)] + later + [Conclude(p)]).effects;
            && StoreAfter(after) == Persisted(publication.persist.value)
            && MemoryNow(held, before + [TakeTurn(p)] + later + [Conclude(p)]) ==
               if Undisplaced(later, publication.refresh) && publication.update.Some? then publication.update
               else MemoryNow(held, before + [TakeTurn(p)] + later)
  {
    hide Reached, Next;
    AppliedExactly(before, later, p);
    ReachedMore(before + [TakeTurn(p)] + later, Conclude(p));
    var publication := Reached(before).publications[p];
    var stored := Reached(before + [TakeTurn(p)] + later).effects;
    AfterOne(held, stored[..|stored| - 1], stored[|stored| - 1]);
    assert stored == stored[..|stored| - 1] + [stored[|stored| - 1]];
    if Undisplaced(later, publication.refresh) && publication.update.Some? {
      var update := Updated(GenerationOf(Reached(before), p), publication.update.value);
      AfterOne(held, stored, update);
      MemoryMore(held, before + [TakeTurn(p)] + later, Conclude(p), [update]);
    } else {
      assert stored + [] == stored;
      MemoryMore(held, before + [TakeTurn(p)] + later, Conclude(p), []);
    }
  }

  function Persisted(persist: Persist): Option<Models> {
    if persist.Delete? then None else Some(persist.models)
  }

  /** How many effects a run had when the provider was last replaced: the memory of the provider
      that is registered now only knows the later ones. */
  function Since(steps: seq<Step>): (n: nat)
    ensures n <= |Reached(steps).effects|
  {
    if steps == [] then 0
    else
      var before := steps[..|steps| - 1];
      EffectsStay(Reached(before), steps[|steps| - 1]);
      if steps[|steps| - 1].Supersede? then |Reached(steps).effects| else Since(before)
  }

  /** What the memory of the registered provider holds after a run, if it `held` something when it
      was registered. */
  function MemoryNow(held: Option<Models>, steps: seq<Step>): Option<Models> {
    MemoryAfter(held, Reached(steps).effects[Since(steps)..])
  }

  /** A step that is no replacement adds its effects to the memory. */
  lemma {:induction false} MemoryMore(held: Option<Models>, steps: seq<Step>, step: Step, more: seq<Effect>)
    requires Reached(steps + [step]).effects == Reached(steps).effects + more && |more| <= 1
    ensures MemoryNow(held, steps + [step]) ==
            if step.Supersede? then held
            else if more != [] && more[0].Updated? then Some(more[0].models) else MemoryNow(held, steps)
  {
    hide Reached;
    assert (steps + [step])[..|steps|] == steps;
    var n, effects := Since(steps), Reached(steps).effects;
    if step.Supersede? {
      assert (effects + more)[|effects + more|..] == [];
    } else if more == [] {
      assert effects + more == effects;
    } else {
      assert (effects + more)[n..] == effects[n..] + [more[0]];
      AfterOne(held, effects[n..], more[0]);
    }
  }

  class ProviderModels {
    var provider: Option<nat>
    var refreshGeneration: nat
    var refreshController: Option<nat>
    var refreshes: seq<Refresh>
    var publications: seq<Publication>
    var store: Option<Models>
    var dynamicModels: Option<Models>
    /** What the registered provider's memory held when it was registered. */
    ghost var Held: Option<Models>
    ghost var Effects: seq<Effect>
    ghost var Steps: seq<Step>

    constructor ()
      ensures Valid() && Steps == [] && provider == None && store == None && dynamicModels == None
    {
      provider, Held := None, None;
      refreshGeneration, refreshController, refreshes, publications := 0, None, [], [];
      store, dynamicModels := None, None;
      Effects, Steps := [], [];
    }

    ghost function Model(): State
      reads this
    {
      State(refreshGeneration, refreshController, refreshes, publications, Effects)
    }

    /** The bookkeeping is where its steps have led; the store and the memory of the registered
        provider hold what the effects left. */
    ghost predicate Valid()
      reads this
    {
      Model() == Reached(Steps) && store == StoreAfter(Effects) && dynamicModels == MemoryNow(Held, Steps)
    }

    /** Notes a step that has led from `before` to the present state with the effects `more`. */
    ghost method Note(before: State, step: Step, more: seq<Effect>)
      requires before == Reached(Steps) && Model() == Next(before, step)
      requires Effects == before.effects + more && |more| <= 1 && store == StoreAfter(Effects)
      requires dynamicModels == if step.Supersede? then Held
                                else if more != [] && more[0].Updated? then Some(more[0].models)
                                else MemoryNow(Held, Steps)
      modifies this`Steps
      ensures Valid() && Steps == old(Steps) + [step]
    {
      hide Next, StoreAfter, MemoryNow;
      ReachedMore(Steps, step);
      MemoryMore(Held, Steps, step, more);
      Steps := Steps + [step];
    }

    /** A publication refers to a refresh. */
    lemma {:induction false} KnownIsKnown(p: nat)
      requires Model() == Reached(Steps) && p < |publications|
      ensures Known(Model(), p)
    {
      hide Reached;
      ReachedKeeps(Steps);
      assert PublicationOk(Model(), p);
    }

    /** At most one publication is in its storage step. */
    lemma {:induction false} OneAtTheStore(p: nat, q: nat)
      requires Model() == Reached(Steps) && p < |publications| && q < |publications|
      requires publications[p].stage == Storing && publications[q].stage == Storing
      ensures p == q
    {
      hide Reached;
      OneInStorage(Steps, p, q);
    }

    /** A publication that was stored and has just been concluded: the store holds what it
        persisted, and memory its update, unless its refresh was displaced in between. */
    lemma {:induction false} Arrived(before: seq<Step>, later: seq<Step>, p: nat)
      requires Valid() && Steps == before + [TakeTurn(p)] + later + [Conclude(p)]
      requires StartsStoring(Reached(before), p)
      requires p < |Reached(before + [TakeTurn(p)] + later).publications|
      requires Reached(before + [TakeTurn(p)] + later).publications[p].stage == Stored
      ensures var publication := Reached(before).publications[p];
              && store == Persisted(publication.persist.value)
              && (Undisplaced(later, publication.refresh) && publication.update.Some? ==>
                    dynamicModels == publication.update)
    {
      hide Reached, StoreAfter, MemoryNow, Undisplaced;
      ArrivesExactly(Held, before, later, p);
    }

    /** The refresh whose controller was registered has been aborted, and no other. */
    ghost predicate Superseded(before: State, now: seq<Refresh>) {
      && |now| == |before.refreshes|
      && forall r | 0 <= r < |now| ::
           now[r] == before.refreshes[r].(superseded := before.refreshes[r].superseded || before.controller == Some(r))
    }

    /** supersedeProviderRefresh without the bookkeeping of the proof. */
    method SupersedeRefresh() returns (generation: nat)
      modifies this`refreshGeneration, this`refreshController, this`refreshes
      ensures Model() == SupersedeStep(old(Model())) && generation == refreshGeneration == old(refreshGeneration) + 1
      ensures refreshController == None && Superseded(old(Model()), refreshes)
    {
      generation := refreshGeneration + 1;
      refreshGeneration := generation;
      if refreshController.Some? {
        var previous := refreshController.value;
        refreshController := None;
        if previous < |refreshes| {
          refreshes := refreshes[previous := refreshes[previous].(superseded := true)];
        }
      }
    }

    /** setProvider, and deleteProvider when there is no new one: the new provider comes with a
        memory of its own, which nothing published for the old one ever reaches. */
    method ReplaceProvider(newProvider: Option<nat>, held: Option<Models>)
      requires Valid()
      modifies this
      ensures Valid() && Steps == old(Steps) + [Supersede]
      ensures provider == newProvider && dynamicModels == held && store == old(store)
      ensures refreshGeneration == old(refreshGeneration) + 1 && refreshController == None
      ensures Superseded(old(Model()), refreshes) && publications == old(publications)
      ensures forall p | 0 <= p < |publications| :: Known(Model(), p) && !Fresh(Model(), p)
    {
      hide Reached, StoreAfter, MemoryNow;
      ghost var before := Model();
      ReachedKeeps(Steps);
      ReplacedIsStale(before);
      var _ := SupersedeRefresh();
      provider := newProvider;
      dynamicModels := held;
      Held := held;
      assert before.effects + [] == before.effects;
      Note(before, Supersede, []);
    }

    /** beginProviderRefresh. */
    method BeginRefresh() returns (refresh: nat)
      requires Valid()
      modifies this
      ensures Valid() && Steps == old(Steps) + [Begin] && refresh == old(|refreshes|)
      ensures refreshGeneration == old(refreshGeneration) + 1 && refreshController == Some(refresh)
      ensures |refreshes| == refresh + 1 && refreshes[refresh] == Refresh(refreshGeneration, false, false, false)
      ensures Superseded(old(Model()), refreshes[..refresh])
      ensures unchanged(`provider, `publications, `store, `dynamicModels)
    {
      hide Reached, StoreAfter, MemoryNow;
      ghost var before := Model();
      refresh := |refreshes|;
      var generation := SupersedeRefresh();
      refreshController := Some(refresh);
      refreshes := refreshes + [Refresh(generation, false, false, false)];
      assert before.effects + [] == before.effects;
      Note(before, Begin, []);
    }

    /** publishProviderModels: the publication queues up behind the ones before it. */
    method QueuePublication(refresh: nat, persist: Option<Persist>, update: Option<Models>) returns (publication: nat)
      requires Valid() && refresh < |refreshes|
      modifies this
      ensures Valid() && Steps == old(Steps) + [Publish(refresh, persist, update)]
      ensures publication == old(|publications|)
      ensures publications == old(publications) + [Publication(refresh, persist, update, Queued)]
      ensures unchanged(`provider, `refreshGeneration, `refreshController, `refreshes, `store, `dynamicModels)
    {
      hide Reached, StoreAfter, MemoryNow;
      ghost var before := Model();
      publication := |publications|;
      publications := publications + [Publication(refresh, persist, update, Queued)];
      assert before.effects + [] == before.effects;
      Note(before, Publish(refresh, persist, update), []);
    }

    /** The caller of a refresh aborts its signal. */
    method CancelRefresh(refresh: nat)
      requires Valid() && refresh < |refreshes|
      modifies this
      ensures Valid() && Steps == old(Steps) + [CancelCaller(refresh)]
      ensures refreshes == old(refreshes)[refresh := old(refreshes[refresh]).(cancelled := true)]
      ensures unchanged(`provider, `refreshGeneration, `refreshController, `publications, `store, `dynamicModels)
    {
      hide Reached, StoreAfter, MemoryNow;
      ghost var before := Model();
      refreshes := refreshes[refresh := refreshes[refresh].(cancelled := true)];
      assert before.effects + [] == before.effects;
      Note(before, CancelCaller(refresh), []);
    }

    /** The end of a refresh: its controller is forgotten if it is still the registered one. */
    method EndRefresh(refresh: nat)
      requires Valid() && refresh < |refreshes|
      modifies this
      ensures Valid() && Steps == old(Steps) + [FinishRefresh(refresh)]
      ensures refreshes == old(refreshes)[refresh := old(refreshes[refresh]).(finished := true)]
      ensures refreshController == if old(refreshController) == Some(refresh) then None else old(refreshController)
      ensures unchanged(`provider, `refreshGeneration, `publications, `store, `dynamicModels)
    {
      hide Reached, StoreAfter, MemoryNow;
      ghost var before := Model();
      refreshes := refreshes[refresh := refreshes[refresh].(finished := true)];
      if refreshController == Some(refresh) {
        refreshController := None;
      }
      assert before.effects + [] == before.effects;
      Note(before, FinishRefresh(refresh), []);
    }

    method SetStage(publication: nat, stage: Stage)
      requires publication < |publications|
      modifies this`publications
      ensures Model() == WithStage(old(Model()), publication, stage)
      ensures publications == old(publications)[publication := old(publications[publication]).(stage := stage)]
    {
      publications := publications[publication := publications[publication].(stage := stage)];
    }

    /** The end of a publication that is still fresh. */
    method ApplyUpdate(publication: nat) returns (ghost more: seq<Effect>)
      requires Known(Model(), publication) && store == StoreAfter(Effects)
      modifies this`publications, this`dynamicModels, this`Effects
      ensures Model() == ApplyStep(old(Model()), publication)
      ensures Effects == old(Effects) + more && |more| <= 1 && store == StoreAfter(Effects)
      ensures dynamicModels == if publications[publication].update.Some? then publications[publication].update
                               else old(dynamicModels)
      ensures more == if publications[publication].update.Some? then
                        [Updated(GenerationOf(old(Model()), publication), publications[publication].update.value)]
                      else []
    {
      hide StoreAfter, MemoryAfter;
      var update := publications[publication].update;
      ghost var generation := GenerationOf(Model(), publication);
      SetStage(publication, Settled(true));
      more := [];
      if update.Some? {
        dynamicModels := update;
        more := [Updated(generation, update.value)];
        AfterOne(Held, Effects, more[0]);
      }
      Effects := Effects + more;
    }

    predicate IsFresh(publication: nat)
      requires publication < |publications| && publications[publication].refresh < |refreshes|
      reads this
      ensures IsFresh(publication) <==> Fresh(Model(), publication)
    {
      var refresh := refreshes[publications[publication].refresh];
      !refresh.superseded && !refresh.cancelled && refreshGeneration == refresh.generation
    }

    /** The previous publication has settled: check, then store or update. */
    method StartPublication(publication: nat)
      requires Valid() && publication < |publications| && publications[publication].stage == Queued
      requires publication > 0 ==> publications[publication - 1].stage.Settled?
      modifies this
      ensures Valid() && Steps == old(Steps) + [TakeTurn(publication)]
      ensures Known(Model(), publication)
      ensures var queued, refresh := old(publications[publication]), refreshes[publications[publication].refresh];
              var current := !refresh.superseded && !refresh.cancelled && refresh.generation == refreshGeneration;
              && publications == old(publications)[publication := queued.(stage :=
                   if !current then Settled(false) else if queued.persist.None? then Settled(true) else Storing)]
              && dynamicModels == if current && queued.persist.None? && queued.update.Some?
                                  then queued.update else old(dynamicModels)
      ensures unchanged(`provider, `refreshGeneration, `refreshController, `refreshes, `store)
    {
      hide Reached, StoreAfter, MemoryNow;
      ghost var before := Model();
      KnownIsKnown(publication);
      ghost var more: seq<Effect> := [];
      assert before.effects + more == before.effects;
      if !IsFresh(publication) {
        SetStage(publication, Settled(false));
      } else if publications[publication].persist.None? {
        more := ApplyUpdate(publication);
      } else {
        SetStage(publication, Storing);
      }
      Note(before, TakeTurn(publication), more);
    }

    /** The store has answered. */
    method StoreAnswered(publication: nat, ok: bool)
      requires Valid() && publication < |publications| && publications[publication].stage == Storing
      modifies this
      ensures Valid() && Steps == old(Steps) + [StoreReturns(publication, ok)]
      ensures publications == old(publications)[publication :=
                old(publications[publication]).(stage := if ok then Stored else Settled(false))]
      ensures publications[publication].persist.Some? && dynamicModels == old(dynamicModels)
      ensures store == if !ok then old(store)
                       else match publications[publication].persist.value
                            case Delete => None
                            case Write(models) => Some(models)
      ensures unchanged(`provider, `refreshGeneration, `refreshController, `refreshes)
    {
      hide Reached, StoreAfter, MemoryAfter, MemoryNow;
      ghost var before := Model();
      KnownIsKnown(publication);
      StoringPersists(Steps, publication);
      if ok {
        var persist := publications[publication].persist.value;
        ghost var effect := Mutated(GenerationOf(before, publication), persist);
        AfterOne(Held, Effects, effect);
        store := Persisted(persist);
        SetStage(publication, Stored);
        Effects := Effects + [effect];
        Note(before, StoreReturns(publication, true), [effect]);
      } else {
        SetStage(publication, Settled(false));
        assert before.effects + [] == before.effects;
        Note(before, StoreReturns(publication, false), []);
      }
    }

    /** The check after the storage step. The store holds what was persisted; memory gets the
        update if the publication is still fresh. */
    method ConcludePublication(publication: nat) returns (published: bool)
      requires Valid() && publication < |publications| && publications[publication].stage == Stored
      modifies this
      ensures Valid() && Steps == old(Steps) + [Conclude(publication)]
      ensures Known(Model(), publication)
      ensures var refresh := refreshes[publications[publication].refresh];
              published <==> !refresh.superseded && !refresh.cancelled && refresh.generation == refreshGeneration
      ensures publications == old(publications)[publication :=
                old(publications[publication]).(stage := Settled(published))]
      ensures publications[publication].persist.Some?
              && store == old(store) == Persisted(publications[publication].persist.value)
      ensures dynamicModels == if published && publications[publication].update.Some?
                               then publications[publication].update else old(dynamicModels)
      ensures unchanged(`provider, `refreshGeneration, `refreshController, `refreshes)
    {
      hide Reached, StoreAfter, MemoryNow;
      ghost var before := Model();
      KnownIsKnown(publication);
      StoredIsLast(Steps, publication);
      ghost var more: seq<Effect> := [];
      assert before.effects + more == before.effects;
      published := IsFresh(publication);
      if published {
        more := ApplyUpdate(publication);
      } else {
        SetStage(publication, Settled(false));
      }
      Note(before, Conclude(publication), more);
    }
  }

  /** Once the generation has moved on, no publication that was queued before is fresh. */
  lemma {:induction false} ReplacedIsStale(s: State)
    requires Inv(s)
    ensures forall p | 0 <= p < |s.publications| :: Known(SupersedeStep(s), p) && !Fresh(SupersedeStep(s), p)
  {
    forall p | 0 <= p < |s.publications|
      ensures Known(SupersedeStep(s), p) && !Fresh(SupersedeStep(s), p)
    {
      assert PublicationOk(s, p);
      assert RefreshOk(s, s.publications[p].refresh);
    }
  }

  lemma {:induction false} StoredIsLast(steps: seq<Step>, p: nat)
    requires p < |Reached(steps).publications| && Reached(steps).publications[p].stage == Stored
    ensures var s := Reached(steps);
            s.publications[p].persist.Some? && StoreAfter(s.effects) == Persisted(s.publications[p].persist.value)
  {
    hide Reached;
    PublicationIsOk(steps, p);
  }

  lemma {:induction false} StoringPersists(steps: seq<Step>, p: nat)
    requires p < |Reached(steps).publications| && Reached(steps).publications[p].stage == Storing
    ensures Reached(steps).publications[p].persist.Some?
  {
    hide Reached;
    ReachedKeeps(steps);
    assert PublicationOk(Reached(steps), p);
  }
}
