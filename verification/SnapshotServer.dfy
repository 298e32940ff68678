/**
 The snapshot publisher and the client state as they run: every method is what one of the
 source's functions does between two awaits, proved to be the step of Snapshots with that name.
 */
module SnapshotServer {
  import opened Wrappers
  import opened Snapshots

  class ServerSnapshotPublisher {
    var revision: nat
    var queued: nat
    var broadcasting: Option<Broadcast>
    var links: seq<Link>
    var closing: bool
    ghost var Steps: seq<Step>

    constructor ()
      ensures Valid() && Steps == []
    {
      revision, queued, broadcasting, links, closing := 0, 0, None, [], false;
      Steps := [];
    }

    ghost function Model(): State
      reads this
    {
      State(revision, queued, broadcasting, links, closing)
    }

    ghost predicate Valid()
      reads this
    {
      Model() == Reached(Steps)
    }

    ghost method Note(before: State, step: Step)
      requires before == Reached(Steps) && Model() == Next(before, step)
      modifies this`Steps
      ensures Valid() && Steps == old(Steps) + [step]
    {
      hide Next;
      Steps := Steps + [step];
      assert Steps[..|Steps| - 1] == old(Steps);
    }

    /** A ready connection to which nothing is on its way has been sent the newest revision, and
        once all has arrived its client stores it. */
    lemma {:induction false} Informs(conn: nat)
      requires Valid() && conn < |links| && links[conn].stage == Ready && links[conn].followUp.None?
      requires broadcasting.Some? ==> conn !in broadcasting.value.recipients
      ensures revision in links[conn].sent
      ensures links[conn].delivered == |links[conn].sent| ==> links[conn].stored == Some(revision)
    {
      hide Reached;
      EveryoneIsInformed(Steps, conn);
    }

    method AcceptConnection() returns (conn: nat)
      requires Valid()
      modifies this
      ensures Valid() && Steps == old(Steps) + [Accept] && conn == old(|links|)
      ensures links == old(links) + [Link(Waiting, None, [], 0, None)]
      ensures unchanged(`revision, `queued, `broadcasting, `closing)
    {
      hide Reached;
      ghost var before := Model();
      conn := |links|;
      links := links + [Link(Waiting, None, [], 0, None)];
      Note(before, Accept);
    }

    /** finishHandshake up to its first await: the revision is read when `get` is called. */
    method BeginHandshake(conn: nat)
      requires Valid() && conn < |links| && links[conn].stage == Waiting
      modifies this
      ensures Valid() && Steps == old(Steps) + [HelloArrives(conn)]
      ensures links == old(links)[conn := old(links[conn]).(stage := Getting(revision))]
      ensures unchanged(`revision, `queued, `broadcasting, `closing)
    {
      hide Reached;
      ghost var before := Model();
      links := links[conn := links[conn].(stage := Getting(revision))];
      Note(before, HelloArrives(conn));
    }

    /** The snapshot is there: the hello is sent. */
    method SendHello(conn: nat)
      requires Valid() && conn < |links| && links[conn].stage.Getting?
      modifies this
      ensures Valid() && Steps == old(Steps) + [SnapshotReady(conn)]
      ensures var l := old(links[conn]);
              links == if closing then old(links)
                       else old(links)[conn := l.(stage := SendingHello(l.stage.revision),
                                                  sent := l.sent + [l.stage.revision])]
      ensures unchanged(`revision, `queued, `broadcasting, `closing)
    {
      hide Reached;
      ghost var before := Model();
      if !closing {
        var snapshot := links[conn].stage.revision;
        links := links[conn := links[conn].(stage := SendingHello(snapshot), sent := links[conn].sent + [snapshot])];
      }
      Note(before, SnapshotReady(conn));
    }

    /** The hello has been sent: the connection is ready, and an outdated snapshot is followed up. */
    method FinishHandshake(conn: nat)
      requires Valid() && conn < |links| && links[conn].stage.SendingHello?
      modifies this
      ensures Valid() && Steps == old(Steps) + [HelloSent(conn)]
      ensures var l := old(links[conn]);
              links == old(links)[conn :=
                l.(stage := Ready, followUp := if l.stage.revision == revision then None else Some(revision))]
      ensures unchanged(`revision, `queued, `broadcasting, `closing)
    {
      hide Reached;
      ghost var before := Model();
      var snapshot := links[conn].stage.revision;
      if snapshot != revision {
        links := links[conn := links[conn].(stage := Ready, followUp := Some(revision))];
      } else {
        links := links[conn := links[conn].(stage := Ready, followUp := None)];
      }
      Note(before, HelloSent(conn));
    }

    method SendFollowUp(conn: nat)
      requires Valid() && conn < |links| && links[conn].stage == Ready && links[conn].followUp.Some?
      modifies this
      ensures Valid() && Steps == old(Steps) + [FollowUpSent(conn)]
      ensures var l := old(links[conn]);
              links == old(links)[conn := l.(sent := l.sent + [l.followUp.value], followUp := None)]
      ensures unchanged(`revision, `queued, `broadcasting, `closing)
    {
      hide Reached;
      ghost var before := Model();
      var current := links[conn].followUp.value;
      links := links[conn := links[conn].(sent := links[conn].sent + [current], followUp := None)];
      Note(before, FollowUpSent(conn));
    }

    /** broadcast: one more in the queue. */
    method QueueBroadcast()
      requires Valid()
      modifies this
      ensures Valid() && Steps == old(Steps) + [RequestBroadcast] && queued == old(queued) + 1
      ensures unchanged(`revision, `broadcasting, `links, `closing)
    {
      hide Reached;
      ghost var before := Model();
      queued := queued + 1;
      Note(before, RequestBroadcast);
    }

    /** performBroadcast, up to its first await. */
    method PerformBroadcast()
      requires Valid() && queued > 0 && broadcasting.None?
      modifies this
      ensures Valid() && Steps == old(Steps) + [StartBroadcast]
      ensures queued == old(queued) - 1 && unchanged(`links, `closing)
      ensures revision == old(revision) + if broadcasting.Some? then 1 else 0
      ensures broadcasting.Some? <==> !closing && exists c :: 0 <= c < |links| && links[c].stage == Ready
      ensures broadcasting.Some? ==>
                && broadcasting.value.revision == revision
                && (forall i, j | 0 <= i < j < |broadcasting.value.recipients| ::
                      broadcasting.value.recipients[i] < broadcasting.value.recipients[j])
                && forall c | 0 <= c < |links| :: links[c].stage == Ready <==> c in broadcasting.value.recipients
    {
      hide Reached, ReadyOnes;
      ghost var before := Model();
      var readyConnections := ReadyConnections(links);
      queued := queued - 1;
      assert readyConnections != [] ==> links[readyConnections[0]].stage == Ready;
      if readyConnections != [] && !closing {
        revision := revision + 1;
        broadcasting := Some(Broadcast(revision, readyConnections));
      }
      Note(before, StartBroadcast);
    }

    /** One send of performBroadcast, or its end. */
    method SendOne()
      requires Valid() && broadcasting.Some?
      modifies this
      ensures Valid() && Steps == old(Steps) + [SendNext]
      ensures var was := old(broadcasting.value);
              if was.recipients == [] then broadcasting == None && links == old(links)
              else
                var c := was.recipients[0];
                && broadcasting == Some(Broadcast(was.revision, was.recipients[1..]))
                && links == if c >= old(|links|) || old(links)[c].stage == Gone then old(links)
                            else old(links)[c := old(links)[c].(sent := old(links)[c].sent + [was.revision])]
      ensures unchanged(`revision, `queued, `closing)
    {
      hide Reached;
      ghost var before := Model();
      var b := broadcasting.value;
      if b.recipients == [] {
        broadcasting := None;
      } else {
        var c := b.recipients[0];
        broadcasting := Some(b.(recipients := b.recipients[1..]));
        if c < |links| && links[c].stage != Gone {
          links := links[c := links[c].(sent := links[c].sent + [b.revision])];
        }
      }
      Note(before, SendNext);
    }

    /** The connection is gone: nothing more is sent to it. */
    method RemoveConnection(conn: nat)
      requires Valid() && conn < |links|
      modifies this
      ensures Valid() && Steps == old(Steps) + [Leave(conn)]
      ensures links == old(links)[conn := old(links[conn]).(stage := Gone)]
      ensures unchanged(`revision, `queued, `broadcasting, `closing)
    {
      hide Reached;
      ghost var before := Model();
      links := links[conn := links[conn].(stage := Gone)];
      Note(before, Leave(conn));
    }

    /** The server is closing: no handshake goes on and no broadcast begins any more. */
    method BeginClose()
      requires Valid()
      modifies this
      ensures Valid() && Steps == old(Steps) + [BeginClosing] && closing
      ensures unchanged(`revision, `queued, `broadcasting, `links)
    {
      hide Reached;
      ghost var before := Model();
      closing := true;
      Note(before, BeginClosing);
    }

    /** The client applies the next snapshot that arrives, unless it is older than the one it has. */
    method ApplyServerSnapshot(conn: nat)
      requires Valid() && conn < |links| && links[conn].delivered < |links[conn].sent|
      modifies this
      ensures Valid() && Steps == old(Steps) + [Deliver(conn)]
      ensures var l := old(links[conn]);
              var arrived := l.sent[l.delivered];
              && conn < |links| && links == old(links)[conn := links[conn]]
              && links[conn] == l.(delivered := l.delivered + 1, stored := links[conn].stored)
              && links[conn].stored == Some(if l.stored.None? || l.stored.value < arrived then arrived
                                            else l.stored.value)
      ensures unchanged(`revision, `queued, `broadcasting, `closing)
    {
      hide Reached;
      ghost var before := Model();
      var l := links[conn];
      var snapshot := l.sent[l.delivered];
      if l.stored.Some? && snapshot < l.stored.value {
        links := links[conn := l.(delivered := l.delivered + 1)];
      } else {
        links := links[conn := l.(delivered := l.delivered + 1, stored := Some(snapshot))];
      }
      Note(before, Deliver(conn));
    }
  }

  method ReadyConnections(links: seq<Link>) returns (conns: seq<nat>)
    ensures conns == ReadyOnes(links, |links|)
  {
    hide ReadyOnes;
    conns := [];
    NoneReady(links);
    for c := 0 to |links|
      invariant conns == ReadyOnes(links, c)
    {
      ReadyMore(links, c);
      if links[c].stage == Ready {
        conns := conns + [c];
      }
    }
  }

  lemma {:induction false} NoneReady(links: seq<Link>)
    ensures ReadyOnes(links, 0) == []
  {
  }

  lemma {:induction false} ReadyMore(links: seq<Link>, c: nat)
    requires c < |links|
    ensures ReadyOnes(links, c + 1) == ReadyOnes(links, c) + if links[c].stage == Ready then [c] else []
  {
  }
}
