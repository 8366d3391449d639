/** Nothing is forgotten: every unfinished message can be brought back, repeated requests are recognised, and
    the gauges count what the policy would really do. */
module DeliveryRecovery {
  import opened Prelude
  import opened DeliverySpec
  import opened DeliveryRuns

  // ---------- rows ----------

  /** A row being published says until when, and a published one since when; one intent, one row. */
  ghost predicate RowsOk(s: Store) {
    && (forall i :: 0 <= i < |s.messages| && s.messages[i].status.Delivering? ==> s.messages[i].leaseEnd.Some?)
    && (forall i :: 0 <= i < |s.messages| && s.messages[i].status.Published? ==> s.messages[i].publishedAt.Some?)
    && (forall i, j | 0 <= i < |s.messages| && 0 <= j < |s.messages| ::
          s.messages[i].dedup == s.messages[j].dedup ==> i == j)
  }

  /** What a message was asked to be never changes. */
  ghost predicate SameIntents(s: Store, after: Store) {
    && |s.messages| <= |after.messages|
    && forall i :: 0 <= i < |s.messages| ==>
                     var (m, n) := (s.messages[i], after.messages[i]);
                     && (n.topic, n.key, n.dedup) == (m.topic, m.key, m.dedup)
                     && (n.payload, n.notBefore) == (m.payload, m.notBefore)
  }

  predicate RowOk(m: Message) {
    (m.status.Delivering? ==> m.leaseEnd.Some?) && (m.status.Published? ==> m.publishedAt.Some?)
  }

  predicate SameAsked(m: Message, n: Message) {
    (n.topic, n.key, n.dedup, n.payload, n.notBefore) == (m.topic, m.key, m.dedup, m.payload, m.notBefore)
  }

  lemma RewritingKeepsRows(s: Store, after: Store)
    requires RowsOk(s) && |after.messages| == |s.messages|
    requires forall i :: 0 <= i < |s.messages| ==>
                           SameAsked(s.messages[i], after.messages[i])
                           && (after.messages[i] == s.messages[i] || RowOk(after.messages[i]))
    ensures RowsOk(after) && SameIntents(s, after)
  {
  }

  lemma EnqueueKeepsRows(s: Store, e: Intent, now: int)
    requires RowsOk(s)
    ensures RowsOk(Enqueue(s, e, now).0) && SameIntents(s, Enqueue(s, e, now).0)
  {
  }

  lemma NextKeepsRows(p: Policy, f: Fleet, e: Event)
    requires RowsOk(f.store)
    ensures RowsOk(Next(p, f, e).store) && SameIntents(f.store, Next(p, f, e).store)
  {
    hide RowsOk, SameIntents, Backoff, Oldest, MayStart, Held;
    match e {
      case Enqueued(intent, now) => EnqueueKeepsRows(f.store, intent, now);
      case PublisherClaims(_, _) => RewritingKeepsRows(f.store, Next(p, f, e).store);
      case PublisherFinishes(_, _, _, _, _) => RewritingKeepsRows(f.store, Next(p, f, e).store);
      case Reconciles(_) => RewritingKeepsRows(f.store, Next(p, f, e).store);
      case Replays(_) => RewritingKeepsRows(f.store, Next(p, f, e).store);
      case _ =>
        assert Next(p, f, e).store.messages == f.store.messages;
        RewritingKeepsRows(f.store, Next(p, f, e).store);
    }
  }

  lemma {:induction false} RunKeepsRows(p: Policy, f: Fleet, events: seq<Event>)
    requires RowsOk(f.store)
    ensures RowsOk(Run(p, f, events).store) && SameIntents(f.store, Run(p, f, events).store)
    decreases |events|
  {
    if events != [] {
      hide Next;
      NextKeepsRows(p, f, events[0]);
      RunKeepsRows(p, Next(p, f, events[0]), events[1..]);
    }
  }

  // ---------- enqueue ----------

  /** Whatever happens in between, the same intent under the same key is the message it was the first time,
      and another intent under that key is refused; neither adds a message. */
  lemma EnqueueOnce(p: Policy, f: Fleet, e: Intent, now: int, events: seq<Event>, again: Intent, later: int)
    requires RowsOk(f.store) && Enqueue(f.store, e, now).1.Some? && again.dedup == e.dedup && IntentOk(again)
    ensures var (s, id) := Enqueue(f.store, e, now);
            var after := Run(p, f.(store := s), events).store;
            Enqueue(after, again, later) == (after, if again == e then id else None)
  {
    var (s, id) := Enqueue(f.store, e, now);
    NextKeepsRows(p, f, Enqueued(e, now));
    RunKeepsRows(p, f.(store := s), events);
    var after := Run(p, f.(store := s), events).store;
    assert SameIntent(s.messages[id.value], e) && s.messages[id.value].dedup == e.dedup;
    assert after.messages[id.value].dedup == again.dedup;
    assert FindDedup(after.messages, again.dedup) == id;
  }

  // ---------- recovery ----------

  /** Every lease, backoff and schedule that concerns message `i` is over. */
  ghost predicate Elapsed(s: Store, p: Policy, i: nat, now: int)
    requires i < |s.messages|
  {
    var m := s.messages[i];
    && (m.leaseEnd.Some? ==> m.leaseEnd.value <= now)
    && Due(m.availableAt, now) && Due(m.notBefore, now)
    && (m.publishedAt.Some? ==> m.publishedAt.value < now - p.ttl)
    && forall r :: r in s.executions && s.executions[r].message == i ==> Due(s.executions[r].expires, now)
  }

  lemma {:induction false} ExecutionsEnd(executions: map<string, Execution>, keys: set<string>) returns (end: int)
    requires keys <= executions.Keys
    ensures forall r :: r in keys ==> Due(executions[r].expires, end)
    decreases |keys|
  {
    end := 0;
    if keys != {} {
      var r :| r in keys;
      var rest := ExecutionsEnd(executions, keys - {r});
      var x := executions[r].expires;
      end := if x.At? && x.time > rest then x.time else rest;
    }
  }

  function Later(x: int, y: int): (r: int)
    ensures r >= x && r >= y
  {
    if x >= y then x else y
  }

  /** That time comes, and stays. */
  lemma TimeComes(s: Store, p: Policy, i: nat) returns (end: int)
    requires i < |s.messages|
    ensures forall now: int :: now >= end ==> Elapsed(s, p, i, now)
  {
    var m := s.messages[i];
    end := ExecutionsEnd(s.executions, s.executions.Keys);
    if m.leaseEnd.Some? { end := Later(end, m.leaseEnd.value); }
    if m.availableAt.At? { end := Later(end, m.availableAt.time); }
    if m.notBefore.At? { end := Later(end, m.notBefore.time); }
    if m.publishedAt.Some? { end := Later(end, m.publishedAt.value + p.ttl + 1); }
  }

  /** No statement of the reconciliation finds the message locked, or looks before its time. */
  ghost predicate Reaches(s: Store, p: Policy, i: nat, at: Views)
    requires i < |s.messages|
  {
    var pass := at.pass(s.messages[i].topic);
    i !in at.bury.locked && i !in pass.locked && Elapsed(s, p, i, at.bury.now) && Elapsed(s, p, i, pass.now)
  }

  /** In every reachable state a message that somebody must acknowledge is acknowledged, or under a dead
      letter, or one reconciliation, once its leases and delays are over, puts it under one or makes it
      claimable again at any later time. */
  lemma NothingIsForgotten(p: Policy, events: seq<Event>, i: nat, at: Views, later: int)
    requires i < |Run(p, EMPTY, events).store.messages|
    requires var s := Run(p, EMPTY, events).store;
             && Registered(p, s.messages[i].topic) && ConsumerOf(p.topics, s.messages[i].topic).Some?
             && Reaches(s, p, i, at) && Elapsed(s, p, i, later)
    ensures var s := Run(p, EMPTY, events).store;
            var after := Reconciled(s, p, at);
            || (ConsumerOf(p.topics, s.messages[i].topic).value, i) in s.inbox
            || Dead(after, i)
            || Claimable(after, p, i, later)
  {
    RunKeepsRows(p, EMPTY, events);
    hide Run;
    var s := Run(p, EMPTY, events).store;
    var m := s.messages[i];
    var v := at.pass(m.topic);
    assert !Executing(s, i, v.now);
    if m.status.Published? {
      assert Finds(s, p, i, v) || Dead(s, i) || (ConsumerOf(p.topics, m.topic).value, i) in s.inbox;
    } else {
      assert Unheld(m, later);
    }
  }

  /** A replay brings a dead-lettered message straight back to the publisher, with its attempts restored,
      and takes back no acknowledgement. */
  lemma ReplayRevives(p: Policy, s: Store, i: nat, now: int)
    requires i < |s.messages| && Registered(p, s.messages[i].topic) && Dead(s, i) && Due(s.messages[i].notBefore, now)
    ensures Replay(s, p, i).Some?
    ensures var after := Replay(s, p, i).value;
            Claimable(after, p, i, now) && after.messages[i].attempts == 0 && after.inbox == s.inbox
            && after.executions == s.executions
  {
  }

  // ---------- gauges ----------

  predicate Done(s: Store, p: Policy, i: nat)
    requires i < |s.messages|
  {
    var consumer := ConsumerOf(p.topics, s.messages[i].topic);
    if consumer.None? then s.messages[i].status.Published? else (consumer.value, i) in s.inbox
  }

  predicate Publishable(s: Store, p: Policy, topic: string, i: nat, now: int) {
    && i < |s.messages|
    && var m := s.messages[i];
    && m.topic == topic && !Done(s, p, i) && !Dead(s, i) && !Executing(s, i, now)
    && Due(m.notBefore, now) && Due(m.availableAt, now) && Unheld(m, now)
  }

  predicate ReconcileCandidate(s: Store, p: Policy, topic: string, i: nat, now: int) {
    && i < |s.messages|
    && var m := s.messages[i];
    && m.topic == topic && !Done(s, p, i) && !Executing(s, i, now) && !Dead(s, i)
    && ConsumerOf(p.topics, topic).Some? && m.status.Published?
    && m.publishedAt.Some? && m.publishedAt.value < now - p.ttl
  }

  function ReconcileCandidates(s: Store, p: Policy, topic: string, now: int): nat {
    |set i: nat | 0 <= i < |s.messages| && ReconcileCandidate(s, p, topic, i, now)|
  }

  /** The published messages of a topic that a reconciliation does something to. */
  ghost function Touched(s: Store, p: Policy, topic: string, now: int): set<nat> {
    var after := Reconciled(s, p, AtOnce(now));
    set i: nat | 0 <= i < |s.messages| && s.messages[i].topic == topic && s.messages[i].status.Published?
                 && (after.messages[i].status.Pending? || (Dead(after, i) && !Dead(s, i)))
  }

  /** At one instant the gauge is the number of published messages of the topic that one reconciliation would
      requeue or dead-letter; and what is counted publishable is exactly what a publisher may claim, less
      what is already done or being worked on. */
  lemma GaugesAgree(s: Store, p: Policy, topic: string, now: int)
    requires Registered(p, topic)
    ensures ReconcileCandidates(s, p, topic, now) == |Touched(s, p, topic, now)|
    ensures forall i: nat {:trigger Publishable(s, p, topic, i, now)} ::
              Publishable(s, p, topic, i, now)
              <==> Claimable(s, p, i, now) && s.messages[i].topic == topic && !Done(s, p, i) && !Executing(s, i, now)
  {
    assert (set i: nat | 0 <= i < |s.messages| && ReconcileCandidate(s, p, topic, i, now)) == Touched(s, p, topic, now);
  }

  // ---------- backoff ----------

  lemma {:induction false} PowersGrow(n: nat)
    ensures Power2(n) >= 1 && Power2(n + 1) == 2 * Power2(n)
  {
    if n > 0 {
      PowersGrow(n - 1);
    }
  }

  /** The delay doubles with every attempt up to the eighth and stays at 256 seconds: the cap of 300 is never
      what holds it back. */
  lemma BackoffStopsShortOfItsCap(attempts: nat)
    ensures Backoff(attempts + 1) == if attempts < 8 then 2 * Backoff(attempts) else Backoff(attempts)
    ensures attempts >= 8 ==> Backoff(attempts) == 256
    ensures 1 <= Backoff(attempts) <= 256
  {
    assert Power2(4) == 16 && Power2(8) == 256 by {
      assert Power2(1) == 2 && Power2(2) == 4 && Power2(3) == 8;
      assert Power2(5) == 32 && Power2(6) == 64 && Power2(7) == 128;
    }
    assert Power2(5) == 32 && Power2(6) == 64 && Power2(7) == 128;
    assert Power2(1) == 2 && Power2(2) == 4 && Power2(3) == 8;
  }
}
