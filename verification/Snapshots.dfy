/**
 Numbered server snapshots: the publisher of packages/server/src/snapshots.ts, the handshake
 of server.ts that sends the first one, and the client's rule of packages/client/src/state.ts
 for keeping the newest. Sends do not fail; a link is the log of the revisions sent to one
 connection and how many of them have arrived.
 */
module Snapshots {
  import opened Wrappers

  /** A connection before its hello, with a snapshot being taken for its handshake, with the
      server's hello on its way, ready, or gone. */
  datatype Stage = Waiting | Getting(revision: nat) | SendingHello(revision: nat) | Ready | Gone

  /** `followUp` is the snapshot taken because the hello's was outdated by the time it was sent;
      `stored` is the client's revision. */
  datatype Link = Link(stage: Stage, followUp: Option<nat>, sent: seq<nat>, delivered: nat, stored: Option<nat>)

  datatype Broadcast = Broadcast(revision: nat, recipients: seq<nat>)

  /** `queued` broadcasts wait for the one in progress. */
  datatype State = State(revision: nat, queued: nat, broadcasting: Option<Broadcast>, links: seq<Link>, closing: bool)

  const INITIAL := State(0, 0, None, [], false)

  datatype Step =
    | Accept
    | HelloArrives(conn: nat)
    | SnapshotReady(conn: nat)
    | HelloSent(conn: nat)
    | FollowUpSent(conn: nat)
    | RequestBroadcast
    | StartBroadcast
    | SendNext
    | Deliver(conn: nat)
    | Leave(conn: nat)
    | BeginClosing

  /** The connections that are ready among the first `n`. */
  function ReadyOnes(links: seq<Link>, n: nat): (conns: seq<nat>)
    requires n <= |links|
    ensures forall i | 0 <= i < |conns| :: conns[i] < n && links[conns[i]].stage == Ready
    ensures forall c | 0 <= c < n && links[c].stage == Ready :: c in conns
    ensures forall i, j | 0 <= i < j < |conns| :: conns[i] < conns[j]
  {
    if n == 0 then [] else ReadyOnes(links, n - 1) + if links[n - 1].stage == Ready then [n - 1] else []
  }

  function Sending(l: Link, revision: nat): Link { l.(sent := l.sent + [revision]) }

  /** applyServerSnapshot. */
  function Applied(stored: Option<nat>, revision: nat): Option<nat> {
    if stored.Some? && revision < stored.value then stored else Some(revision)
  }

  /** What the step does to the link of its connection. */
  function LinkStep(l: Link, step: Step, revision: nat, closing: bool): Link {
    match step
    case HelloArrives(_) => if l.stage == Waiting then l.(stage := Getting(revision)) else l
    case SnapshotReady(_) =>
      if l.stage.Getting? && !closing then Sending(l, l.stage.revision).(stage := SendingHello(l.stage.revision)) else l
    case HelloSent(_) =>
      if l.stage.SendingHello? then
        l.(stage := Ready, followUp := if l.stage.revision != revision then Some(revision) else None)
      else l
    case FollowUpSent(_) =>
      if l.stage == Ready && l.followUp.Some? then Sending(l, l.followUp.value).(followUp := None) else l
    case Deliver(_) =>
      if l.delivered < |l.sent| then
        l.(delivered := l.delivered + 1, stored := Applied(l.stored, l.sent[l.delivered]))
      else l
    case Leave(_) => l.(stage := Gone)
    case _ => l
  }

  function WithLink(s: State, c: nat, l: Link): State
    requires c < |s.links|
  {
    s.(links := s.links[c := l])
  }

  /** performBroadcast up to its first await. */
  function StartStep(s: State): State
    requires s.queued > 0
  {
    var ready := ReadyOnes(s.links, |s.links|);
    if ready == [] || s.closing then s.(queued := s.queued - 1)
    else s.(queued := s.queued - 1, revision := s.revision + 1, broadcasting := Some(Broadcast(s.revision + 1, ready)))
  }

  /** The next send of performBroadcast, or its end. */
  function SendStep(s: State, b: Broadcast): State {
    if b.recipients == [] then s.(broadcasting := None)
    else
      var c := b.recipients[0];
      var next := s.(broadcasting := Some(b.(recipients := b.recipients[1..])));
      if c < |s.links| && s.links[c].stage != Gone then WithLink(next, c, Sending(s.links[c], b.revision)) else next
  }

  /** One step; a step that is not enabled changes nothing. */
  function Next(s: State, step: Step): State {
    match step
    case Accept => s.(links := s.links + [Link(Waiting, None, [], 0, None)])
    case RequestBroadcast => s.(queued := s.queued + 1)
    case StartBroadcast => if s.queued > 0 && s.broadcasting.None? then StartStep(s) else s
    case SendNext => if s.broadcasting.Some? then SendStep(s, s.broadcasting.value) else s
    case BeginClosing => s.(closing := true)
    case _ =>
      if step.conn < |s.links| then
        WithLink(s, step.conn, LinkStep(s.links[step.conn], step, s.revision, s.closing))
      else s
  }

  function Reached(steps: seq<Step>): State {
    if steps == [] then INITIAL else Next(Reached(steps[..|steps| - 1]), steps[|steps| - 1])
  }

  // ---- the invariant ----

  /** The client's revision is the highest that has arrived. */
  predicate KeepsNewest(l: Link) {
    && l.delivered <= |l.sent|
    && (l.stored.None? <==> l.delivered == 0)
    && (l.stored.Some? ==>
          && l.stored.value in l.sent[..l.delivered]
          && forall i | 0 <= i < l.delivered :: l.sent[i] <= l.stored.value)
  }

  /** No revision is sent before it is assigned. */
  predicate Within(l: Link, revision: nat) {
    && (forall i | 0 <= i < |l.sent| :: l.sent[i] <= revision)
    && (l.stage.Getting? ==> l.stage.revision <= revision)
    && (l.stage.SendingHello? ==> l.stage.revision <= revision && l.stage.revision in l.sent)
    && (l.followUp.Some? ==> l.followUp.value <= revision)
  }

  predicate Awaited(broadcasting: Option<Broadcast>, c: nat) {
    broadcasting.Some? && c in broadcasting.value.recipients
  }

  /** A ready connection has been sent the newest revision, or it is on its way to it. */
  predicate Informed(l: Link, revision: nat, awaited: bool) {
    l.stage == Ready ==> revision in l.sent || l.followUp == Some(revision) || awaited
  }

  predicate LinkOk(s: State, c: nat)
    requires c < |s.links|
  {
    && KeepsNewest(s.links[c]) && Within(s.links[c], s.revision)
    && Informed(s.links[c], s.revision, Awaited(s.broadcasting, c))
  }

  predicate Inv(s: State) {
    && (s.broadcasting.Some? ==> s.broadcasting.value.revision == s.revision)
    && (forall c | 0 <= c < |s.links| :: LinkOk(s, c))
  }

  // ---- it is kept ----

  lemma {:induction false} SendingKeeps(l: Link, revision: nat, r: nat)
    requires KeepsNewest(l) && Within(l, revision) && r <= revision
    ensures KeepsNewest(Sending(l, r)) && Within(Sending(l, r), revision) && r in Sending(l, r).sent
    ensures forall q | q in l.sent :: q in Sending(l, r).sent
  {
    assert Sending(l, r).sent[..l.delivered] == l.sent[..l.delivered];
    assert Sending(l, r).sent[|l.sent|] == r;
  }

  lemma {:induction false} DeliverKeeps(l: Link)
    requires KeepsNewest(l) && l.delivered < |l.sent|
    ensures KeepsNewest(l.(delivered := l.delivered + 1, stored := Applied(l.stored, l.sent[l.delivered])))
  {
    var r := l.sent[l.delivered];
    assert l.sent[..l.delivered + 1] == l.sent[..l.delivered] + [r];
    assert (l.sent[..l.delivered] + [r])[l.delivered] == r;
  }

  lemma {:induction false} LinkStepKeeps(l: Link, step: Step, revision: nat, closing: bool, awaited: bool)
    requires KeepsNewest(l) && Within(l, revision) && Informed(l, revision, awaited)
    ensures var after := LinkStep(l, step, revision, closing);
            KeepsNewest(after) && Within(after, revision) && Informed(after, revision, awaited)
  {
    hide KeepsNewest;
    match step
    case SnapshotReady(_) =>
      if l.stage.Getting? && !closing {
        SendingKeeps(l, revision, l.stage.revision);
        SameNewest(Sending(l, l.stage.revision), LinkStep(l, step, revision, closing));
      }
    case FollowUpSent(_) =>
      if l.stage == Ready && l.followUp.Some? {
        SendingKeeps(l, revision, l.followUp.value);
        SameNewest(Sending(l, l.followUp.value), LinkStep(l, step, revision, closing));
      }
    case Deliver(_) =>
      if l.delivered < |l.sent| { DeliverKeeps(l); }
    case _ =>
      SameNewest(l, LinkStep(l, step, revision, closing));
  }

  lemma {:induction false} SameNewest(l: Link, after: Link)
    requires KeepsNewest(l) && after.sent == l.sent && after.delivered == l.delivered && after.stored == l.stored
    ensures KeepsNewest(after)
  {
  }

  lemma {:induction false} ConnectionKeeps(s: State, c: nat, step: Step)
    requires Inv(s) && c < |s.links|
    ensures Inv(WithLink(s, c, LinkStep(s.links[c], step, s.revision, s.closing)))
  {
    hide KeepsNewest, Within, Informed, LinkStep;
    var after := WithLink(s, c, LinkStep(s.links[c], step, s.revision, s.closing));
    forall d | 0 <= d < |after.links|
      ensures LinkOk(after, d)
    {
      assert LinkOk(s, d);
      if d == c {
        LinkStepKeeps(s.links[c], step, s.revision, s.closing, Awaited(s.broadcasting, c));
      }
    }
  }

  /** The new revision goes to everyone who is ready. */
  lemma {:induction false} StartKeeps(s: State)
    requires Inv(s) && s.queued > 0 && s.broadcasting.None?
    ensures Inv(StartStep(s))
  {
    hide KeepsNewest, ReadyOnes;
    var after := StartStep(s);
    var ready := ReadyOnes(s.links, |s.links|);
    forall c | 0 <= c < |after.links|
      ensures LinkOk(after, c)
    {
      assert LinkOk(s, c);
    }
  }

  lemma {:induction false} SendNextKeeps(s: State)
    requires Inv(s) && s.broadcasting.Some?
    ensures Inv(SendStep(s, s.broadcasting.value))
  {
    hide KeepsNewest, Within;
    var b := s.broadcasting.value;
    var after := SendStep(s, b);
    forall c | 0 <= c < |after.links|
      ensures LinkOk(after, c)
    {
      assert LinkOk(s, c);
      if b.recipients != [] {
        if c == b.recipients[0] && s.links[c].stage != Gone {
          SendingKeeps(s.links[c], s.revision, b.revision);
        }
        assert c != b.recipients[0] && c in b.recipients ==> c in b.recipients[1..] by {
          assert b.recipients == [b.recipients[0]] + b.recipients[1..];
        }
      }
    }
  }

  lemma {:induction false} OthersKeep(s: State, step: Step)
    requires Inv(s) && (step == Accept || step == RequestBroadcast || step == BeginClosing)
    ensures Inv(Next(s, step))
  {
    hide KeepsNewest, Within;
    var after := Next(s, step);
    NewLink(s.revision);
    forall c | 0 <= c < |after.links|
      ensures LinkOk(after, c)
    {
      if c < |s.links| {
        assert LinkOk(s, c);
      }
    }
  }

  lemma {:induction false} NewLink(revision: nat)
    ensures var l := Link(Waiting, None, [], 0, None); KeepsNewest(l) && Within(l, revision)
  {
  }

  lemma {:induction false} NextKeeps(s: State, step: Step)
    requires Inv(s)
    ensures Inv(Next(s, step))
  {
    hide Inv, StartStep, SendStep, LinkStep;
    match step
    case Accept => OthersKeep(s, step);
    case RequestBroadcast => OthersKeep(s, step);
    case BeginClosing => OthersKeep(s, step);
    case StartBroadcast =>
      if s.queued > 0 && s.broadcasting.None? { StartKeeps(s); }
    case SendNext =>
      if s.broadcasting.Some? { SendNextKeeps(s); }
    case _ =>
      if step.conn < |s.links| { ConnectionKeeps(s, step.conn, step); }
  }

  lemma {:induction false} ReachedKeeps(steps: seq<Step>)
    ensures Inv(Reached(steps))
  {
    hide Next;
    if steps != [] {
      hide Inv;
      ReachedKeeps(steps[..|steps| - 1]);
      NextKeeps(Reached(steps[..|steps| - 1]), steps[|steps| - 1]);
    }
  }

  // ---- what every run keeps ----

  /** At every moment, a ready connection has been sent the highest revision ever assigned, or it
      is on its way to it: as the follow-up of its handshake, or in the broadcast in progress. */
  lemma {:induction false} InformedOrOnItsWay(steps: seq<Step>, c: nat)
    requires c < |Reached(steps).links| && Reached(steps).links[c].stage == Ready
    ensures var s := Reached(steps);
            || s.revision in s.links[c].sent
            || s.links[c].followUp == Some(s.revision)
            || (s.broadcasting.Some? && s.broadcasting.value.revision == s.revision
                && c in s.broadcasting.value.recipients)
  {
    hide Reached, KeepsNewest, Within;
    ReachedKeeps(steps);
    assert LinkOk(Reached(steps), c);
  }

  /** Nothing is on its way to the connection any more. */
  predicate UpToDate(s: State, c: nat)
    requires c < |s.links|
  {
    s.links[c].stage == Ready && s.links[c].followUp.None? && !Awaited(s.broadcasting, c)
  }

  /** However handshakes and broadcasts overlap, a ready connection to which nothing is on its way
      has been sent the highest revision ever assigned; once all has arrived, its client stores
      exactly that revision. */
  lemma {:induction false} EveryoneIsInformed(steps: seq<Step>, c: nat)
    requires c < |Reached(steps).links| && UpToDate(Reached(steps), c)
    ensures var s := Reached(steps);
            var l := s.links[c];
            && s.revision in l.sent && (forall i | 0 <= i < |l.sent| :: l.sent[i] <= s.revision)
            && (l.delivered == |l.sent| ==> l.stored == Some(s.revision))
  {
    hide Reached;
    var s := Reached(steps);
    ReachedKeeps(steps);
    assert LinkOk(s, c);
    var l := s.links[c];
    var i :| 0 <= i < |l.sent| && l.sent[i] == s.revision;
    if l.delivered == |l.sent| {
      assert l.sent[..l.delivered] == l.sent;
      assert l.sent[i] <= l.stored.value;
    }
  }

  // ---- what is on its way arrives ----

  /** `n` times the same step. */
  function Repeat(step: Step, n: nat): (steps: seq<Step>)
    ensures |steps| == n && forall i | 0 <= i < n :: steps[i] == step
  {
    if n == 0 then [] else Repeat(step, n - 1) + [step]
  }

  function Recipients(s: State): nat { if s.broadcasting.None? then 0 else |s.broadcasting.value.recipients| }

  lemma {:induction false} ReachedMore(steps: seq<Step>, step: Step)
    ensures Reached(steps + [step]) == Next(Reached(steps), step)
  {
    hide Next;
    assert (steps + [step])[..|steps|] == steps;
  }

  /** Some sends of the broadcast in progress: as many fewer recipients are left. */
  lemma {:induction false} SendsGoOn(steps: seq<Step>, n: nat, c: nat)
    requires n <= Recipients(Reached(steps)) && c < |Reached(steps).links|
    ensures var s, after := Reached(steps), Reached(steps + Repeat(SendNext, n));
            && after.revision == s.revision && c < |after.links| && after.closing == s.closing
            && after.links[c].stage == s.links[c].stage && after.links[c].followUp == s.links[c].followUp
            && Recipients(after) == Recipients(s) - n
  {
    hide Reached;
    if n == 0 {
      assert steps + [] == steps;
    } else {
      SendsGoOn(steps, n - 1, c);
      assert steps + Repeat(SendNext, n) == steps + Repeat(SendNext, n - 1) + [SendNext];
      ReachedMore(steps + Repeat(SendNext, n - 1), SendNext);
    }
  }

  /** Some arrivals at one client. */
  lemma {:induction false} ArrivalsGoOn(steps: seq<Step>, n: nat, c: nat)
    requires c < |Reached(steps).links| && n <= |Reached(steps).links[c].sent| - Reached(steps).links[c].delivered
    ensures var s, after := Reached(steps), Reached(steps + Repeat(Deliver(c), n));
            && after.revision == s.revision && after.broadcasting == s.broadcasting && c < |after.links|
            && after.links[c].stage == s.links[c].stage && after.links[c].followUp == s.links[c].followUp
            && after.links[c].sent == s.links[c].sent && after.links[c].delivered == s.links[c].delivered + n
  {
    hide Reached;
    if n == 0 {
      assert steps + [] == steps;
    } else {
      ArrivalsGoOn(steps, n - 1, c);
      assert steps + Repeat(Deliver(c), n) == steps + Repeat(Deliver(c), n - 1) + [Deliver(c)];
      ReachedMore(steps + Repeat(Deliver(c), n - 1), Deliver(c));
    }
  }

  /** From wherever a run has come to, a ready connection's client comes to store the highest
      revision ever assigned as soon as what is on its way is sent and arrives: its follow-up, the
      rest of the broadcast in progress, and what is in its channel. Nothing else need happen. */
  lemma {:induction false} EveryoneStoresNewest(steps: seq<Step>, c: nat) returns (arrivals: nat)
    requires c < |Reached(steps).links| && Reached(steps).links[c].stage == Ready
    ensures var s := Reached(steps);
            var sent := steps + [FollowUpSent(c)] + Repeat(SendNext, Recipients(s));
            var after := Reached(sent + Repeat(Deliver(c), arrivals));
            && after.revision == s.revision && c < |after.links|
            && after.links[c].stage == Ready && after.links[c].stored == Some(s.revision)
  {
    hide Reached;
    var followed := steps + [FollowUpSent(c)];
    ReachedMore(steps, FollowUpSent(c));
    var sent := followed + Repeat(SendNext, Recipients(Reached(steps)));
    SendsGoOn(followed, Recipients(Reached(steps)), c);
    ReachedKeeps(sent);
    assert LinkOk(Reached(sent), c);
    var l := Reached(sent).links[c];
    arrivals := |l.sent| - l.delivered;
    ArrivalsGoOn(sent, arrivals, c);
    EveryoneIsInformed(sent + Repeat(Deliver(c), arrivals), c);
  }

  /** The client's revision never decreases, and revisions are never taken back. */
  lemma {:induction false} RevisionsGrow(s: State, step: Step, c: nat)
    requires c < |s.links|
    ensures c < |Next(s, step).links| && s.revision <= Next(s, step).revision
    ensures s.links[c].sent <= Next(s, step).links[c].sent
    ensures s.links[c].stored.Some? ==>
              && Next(s, step).links[c].stored.Some?
              && s.links[c].stored.value <= Next(s, step).links[c].stored.value
  {
    hide ReadyOnes;
  }
}
