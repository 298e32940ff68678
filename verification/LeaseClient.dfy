/**
 The lease bookkeeping of the client as it runs: every method is what one of the source's
 functions does between two awaits, proved to be the step of Leases with that name.
 */
module LeaseClient {
  import opened Wrappers
  import opened Leases

  class SessionLeases {
    var tokens: seq<Token>
    var sessionLeaseCounts: map<Id, nat>
    var exclusiveSessionLeases: map<Id, nat>
    var sessionLeaseGenerations: map<Id, nat>
    var sessionCleanupRequired: set<Id>
    ghost var Steps: seq<Step>

    constructor ()
      ensures Valid() && Steps == []
    {
      tokens, sessionLeaseCounts, exclusiveSessionLeases := [], map[], map[];
      sessionLeaseGenerations, sessionCleanupRequired := map[], {};
      Steps := [];
    }

    ghost function Model(): State
      reads this
    {
      State(tokens, sessionLeaseCounts, exclusiveSessionLeases, sessionLeaseGenerations, sessionCleanupRequired)
    }

    ghost predicate Valid()
      reads this
    {
      Model() == Reached(Steps)
    }

    ghost method Note(before: State, step: Step)
      requires before == Reached(Steps) && Model() == Next(before, step)
      modifies this`Steps
      ensures Valid() && Steps == old(Steps) + [step]
    {
      hide Next;
      Steps := Steps + [step];
      assert Steps[..|Steps| - 1] == old(Steps);
    }

    /** As long as no detach response has come late, the counts of the client are the numbers of
        those who hold a session, and an exclusive lease is on record exactly while it is held,
        and then by no one else. */
    lemma {:induction false} CountsHold(id: Id)
      requires Valid() && AllOrderly(Steps)
      ensures Get(sessionLeaseCounts, id) == AllHolders(Model(), id)
      ensures id in exclusiveSessionLeases <==>
              exists t | 0 <= t < |tokens| ::
                tokens[t].id == id && tokens[t].mode == Exclusive && Holds(Model(), tokens[t])
      ensures id in exclusiveSessionLeases ==> sessionLeaseCounts == sessionLeaseCounts[id := 1]
    {
      hide Reached, AllOrderly, Holders;
      CountsAreHolders(Steps, id);
    }

    /** A release asks the server to detach only when no one else holds the session. */
    lemma {:induction false} DetachesAlone(token: nat)
      requires Valid() && AllOrderly(Steps) && token < |tokens| && tokens[token].stage.Active?
      requires Current(Model(), tokens[token].id, tokens[token].stage.generation)
      requires Get(sessionLeaseCounts, tokens[token].id) <= 1
      ensures forall u | 0 <= u < |tokens| && u != token && tokens[u].id == tokens[token].id ::
                !Holds(Model(), tokens[u])
    {
      hide Reached, AllOrderly, Holds;
      OnlyTheLastDetaches(Steps, token, false);
    }

    /** No token is ever released twice. */
    lemma {:induction false} ReleasedAtMostOnce(token: nat)
      requires Valid() && token < |tokens|
      ensures tokens[token].releases == if tokens[token].stage == Released then 1 else 0
    {
      hide Reached;
      ReleasedOnce(Steps, token);
    }

    /** #reserveSessionLease: the token, or none where the source throws. */
    method Reserve(id: Id, mode: Mode) returns (token: Option<nat>)
      requires Valid()
      modifies this
      ensures Valid() && Steps == old(Steps) + [Step.Reserve(id, mode)]
      ensures token == if old(MayReserve(Model(), id, mode)) then Some(old(|tokens|)) else None
      ensures AllOrderly(old(Steps)) ==> (token == None <==> old(Conflicts(Model(), id, mode)))
      ensures tokens == old(tokens) + if token.Some? then [Token(id, mode, Reserved, 0)] else []
      ensures forall i: Id ::
                Get(sessionLeaseCounts, i) == Get(old(sessionLeaseCounts), i) + if token.Some? && i == id then 1 else 0
      ensures exclusiveSessionLeases == if token.Some? && mode == Exclusive
                                        then old(exclusiveSessionLeases)[id := token.value]
                                        else old(exclusiveSessionLeases)
      ensures unchanged(`sessionLeaseGenerations, `sessionCleanupRequired)
    {
      hide Reached, AllOrderly, Conflicts;
      ghost var before := Model();
      if AllOrderly(Steps) {
        ReservesExactly(Steps, id, mode);
      }
      var count := if id in sessionLeaseCounts then sessionLeaseCounts[id] else 0;
      if mode == Exclusive && count > 0 {
        token := None;
      } else if mode == Shared && id in exclusiveSessionLeases {
        token := None;
      } else {
        token := Some(|tokens|);
        sessionLeaseCounts := sessionLeaseCounts[id := count + 1];
        if mode == Exclusive {
          exclusiveSessionLeases := exclusiveSessionLeases[id := |tokens|];
        }
        tokens := tokens + [Token(id, mode, Reserved, 0)];
      }
      Note(before, Step.Reserve(id, mode));
    }

    /** The token is done: its session has one holder less, if any, and no record of this token. */
    ghost predicate GaveBack(before: State, token: nat)
      requires token < |before.tokens|
      reads this
    {
      var was := before.tokens[token];
      && tokens == before.tokens[token := was.(stage := Stage.Released, releases := was.releases + 1)]
      && (forall i: Id ::
            Get(sessionLeaseCounts, i) == Get(before.counts, i) - if i == was.id && i in before.counts
                                                                     && before.counts[i] > 0 then 1 else 0)
      && (forall i: Id ::
            if i == was.id && i in before.exclusive && before.exclusive[i] == token then i !in exclusiveSessionLeases
            else (i in exclusiveSessionLeases <==> i in before.exclusive)
                 && (i in before.exclusive ==> exclusiveSessionLeases[i] == before.exclusive[i]))
      && sessionLeaseGenerations == before.generations
    }

    /** The token alone has changed, to this stage. */
    ghost predicate Became(before: State, token: nat, stage: Stage)
      requires token < |before.tokens|
      reads this
    {
      Model() == before.(tokens := before.tokens[token := before.tokens[token].(stage := stage)])
    }

    /** #releaseSessionLease. */
    method ReleaseLease(token: nat)
      requires token < |tokens|
      modifies this`tokens, this`sessionLeaseCounts, this`exclusiveSessionLeases
      ensures Model() == ReleaseToken(old(Model()), token, Stage.Released)
      ensures GaveBack(old(Model()), token) && sessionCleanupRequired == old(sessionCleanupRequired)
    {
      var id := tokens[token].id;
      var count := if id in sessionLeaseCounts then sessionLeaseCounts[id] else 0;
      if count <= 1 {
        sessionLeaseCounts := sessionLeaseCounts - {id};
      } else {
        sessionLeaseCounts := sessionLeaseCounts[id := count - 1];
      }
      if id in exclusiveSessionLeases && exclusiveSessionLeases[id] == token {
        exclusiveSessionLeases := exclusiveSessionLeases - {id};
      }
      tokens := tokens[token := tokens[token].(stage := Stage.Released, releases := tokens[token].releases + 1)];
    }

    method SetStage(token: nat, stage: Stage)
      requires token < |tokens|
      modifies this`tokens
      ensures Model() == WithStage(old(Model()), token, stage) && Became(old(Model()), token, stage)
    {
      tokens := tokens[token := tokens[token].(stage := stage)];
    }

    /** #createSessionLease. */
    method CreateLease(token: nat)
      requires Valid() && token < |tokens| && tokens[token].stage == Reserved
      modifies this
      ensures Valid() && Steps == old(Steps) + [Grant(token)]
      ensures Became(old(Model()), token, Active(Get(sessionLeaseGenerations, old(tokens[token].id))))
    {
      hide Reached;
      ghost var before := Model();
      var id := tokens[token].id;
      var generation := if id in sessionLeaseGenerations then sessionLeaseGenerations[id] else 0;
      SetStage(token, Active(generation));
      Note(before, Grant(token));
    }

    /** The failure path of acquireSession. */
    method AbandonReservation(token: nat)
      requires Valid() && token < |tokens| && tokens[token].stage == Reserved
      modifies this
      ensures Valid() && Steps == old(Steps) + [GiveUp(token)]
      ensures GaveBack(old(Model()), token) && sessionCleanupRequired == old(sessionCleanupRequired)
    {
      hide Reached;
      ghost var before := Model();
      ReleaseLease(token);
      Note(before, GiveUp(token));
    }

    /** release, up to its first await; answers whether the server is asked to detach. */
    method BeginRelease(token: nat, relinquishOnFailure: bool, ready: bool) returns (detaches: bool)
      requires Valid() && token < |tokens| && tokens[token].stage.Active?
      modifies this
      ensures Valid() && Steps == old(Steps) + [Release(token, relinquishOnFailure, ready)]
      ensures var before, was := old(Model()), old(tokens[token]);
              var current := Get(before.generations, was.id) == was.stage.generation;
              && (detaches <==> current && ready && Get(before.counts, was.id) <= 1)
              && (!current ==> Became(before, token, Invalidated))
              && (current && !ready ==> Model() == before)
              && (detaches ==> Became(before, token, Detaching(was.stage.generation, relinquishOnFailure)))
              && (current && ready && !detaches ==>
                    GaveBack(before, token) && sessionCleanupRequired == before.cleanupRequired)
    {
      hide Reached;
      ghost var before := Model();
      var id, generation := tokens[token].id, tokens[token].stage.generation;
      detaches := false;
      if generation != (if id in sessionLeaseGenerations then sessionLeaseGenerations[id] else 0) {
        SetStage(token, Invalidated);
      } else if ready {
        if (if id in sessionLeaseCounts then sessionLeaseCounts[id] else 0) <= 1 {
          detaches := true;
          SetStage(token, Detaching(generation, relinquishOnFailure));
        } else {
          ReleaseLease(token);
        }
      }
      Note(before, Release(token, relinquishOnFailure, ready));
    }

    /** What follows the response to the detach request. */
    method DetachResponded(token: nat, ok: bool)
      requires Valid() && token < |tokens| && tokens[token].stage.Detaching?
      modifies this
      ensures Valid() && Steps == old(Steps) + [if ok then DetachSucceeds(token) else DetachFails(token)]
      ensures var before, was := old(Model()), old(tokens[token]);
              var current := Get(before.generations, was.id) == was.stage.generation;
              var gives := ok || (current && was.stage.relinquishOnFailure);
              && (gives ==> GaveBack(before, token))
              && (!gives ==> Became(before, token, if current then Active(was.stage.generation) else Invalidated))
              && sessionCleanupRequired == before.cleanupRequired + if gives && !ok then {was.id} else {}
    {
      hide Reached;
      ghost var before := Model();
      var id, generation := tokens[token].id, tokens[token].stage.generation;
      if ok {
        ReleaseLease(token);
      } else if generation != (if id in sessionLeaseGenerations then sessionLeaseGenerations[id] else 0) {
        SetStage(token, Invalidated);
      } else if tokens[token].stage.relinquishOnFailure {
        ReleaseLease(token);
        sessionCleanupRequired := sessionCleanupRequired + {id};
      } else {
        SetStage(token, Active(generation));
      }
      Note(before, if ok then DetachSucceeds(token) else DetachFails(token));
    }

    /** #invalidateSessionLeases. */
    method InvalidateLeases(id: Id)
      requires Valid()
      modifies this
      ensures Valid() && Steps == old(Steps) + [Invalidate(id)] && tokens == old(tokens)
      ensures sessionLeaseCounts == old(sessionLeaseCounts) - {id}
      ensures exclusiveSessionLeases == old(exclusiveSessionLeases) - {id}
      ensures sessionCleanupRequired == old(sessionCleanupRequired) - {id}
      ensures sessionLeaseGenerations == old(sessionLeaseGenerations)[id := Get(old(sessionLeaseGenerations), id) + 1]
    {
      hide Reached;
      ghost var before := Model();
      sessionLeaseCounts := sessionLeaseCounts - {id};
      exclusiveSessionLeases := exclusiveSessionLeases - {id};
      sessionCleanupRequired := sessionCleanupRequired - {id};
      sessionLeaseGenerations :=
        sessionLeaseGenerations[id := (if id in sessionLeaseGenerations then sessionLeaseGenerations[id] else 0) + 1];
      Note(before, Invalidate(id));
    }
  }
}
