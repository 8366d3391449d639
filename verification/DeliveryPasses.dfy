/** How the statements of a reconciliation, each with its own view of clock and locks, add up to one step. */
module DeliveryPasses {
  import opened Prelude
  import opened DeliverySpec

  predicate Handled(p: Policy, k: nat, topic: string) {
    exists j :: 0 <= j < k && j < |p.topics| && p.topics[j].0 == topic
  }

  lemma {:induction false} ConsumerIs(topics: seq<(string, Option<string>)>, j: nat)
    requires j < |topics|
    requires forall a, b | 0 <= a < |topics| && 0 <= b < |topics| :: topics[a].0 == topics[b].0 ==> a == b
    ensures ConsumerOf(topics, topics[j].0) == topics[j].1
  {
    if j < |topics| - 1 {
      ConsumerIs(topics[..|topics| - 1], j);
    }
  }

  /** Burying exhausted messages and dealing with other topics changes nothing about an overdue one. */
  lemma OverdueStill(was: Store, now_: Store, p: Policy, i: nat, now: int)
    requires i < |was.messages| && |now_.messages| == |was.messages| && now_.messages[i] == was.messages[i]
    requires now_.inbox == was.inbox && now_.executions == was.executions
    requires i in now_.dead && i !in was.dead ==> !was.messages[i].status.Published?
    requires i in was.dead ==> i in now_.dead
    ensures Overdue(now_, p, i, now) <==> Overdue(was, p, i, now)
  {
  }

  /** What reconciling the first `k` topics does to a message. */
  ghost predicate Recovered(p: Policy, was: Store, i: nat, k: nat, at: Views)
    requires i < |was.messages|
  {
    Handled(p, k, was.messages[i].topic) && Finds(was, p, i, at.pass(was.messages[i].topic))
  }

  ghost predicate TopicsDone(p: Policy, was: Store, cur: Store, k: nat, at: Views) {
    && (cur.inbox, cur.executions, cur.owners) == (was.inbox, was.executions, was.owners)
    && |cur.messages| == |was.messages|
    && (forall i: nat :: i < |was.messages| ==>
          cur.messages[i] == if Recovered(p, was, i, k, at) && was.messages[i].attempts < p.maxAttempts
                             then was.messages[i].(status := Pending, availableAt := MinusInfinity)
                             else was.messages[i])
    && (forall i: nat :: i in cur.dead <==>
          || i in was.dead
          || (i < |was.messages| && Buries(was, p, i, at.bury))
          || (i < |was.messages| && Recovered(p, was, i, k, at) && was.messages[i].attempts >= p.maxAttempts))
  }

  /** What one topic's pass does. */
  ghost predicate TopicPass(p: Policy, cur: Store, after: Store, topic: string, v: View) {
    && (after.inbox, after.executions, after.owners) == (cur.inbox, cur.executions, cur.owners)
    && |after.messages| == |cur.messages|
    && (forall i :: 0 <= i < |cur.messages| ==>
          after.messages[i] == if && cur.messages[i].topic == topic && Finds(cur, p, i, v)
                                  && cur.messages[i].attempts < p.maxAttempts
                               then cur.messages[i].(status := Pending, availableAt := MinusInfinity)
                               else cur.messages[i])
    && after.dead == cur.dead + set i | 0 <= i < |cur.messages| && cur.messages[i].topic == topic
                                        && Finds(cur, p, i, v) && cur.messages[i].attempts >= p.maxAttempts
  }

  lemma BuriedFirst(p: Policy, was: Store, cur: Store, at: Views)
    requires cur == was.(dead := cur.dead)
    requires cur.dead == was.dead + set i | 0 <= i < |was.messages| && Buries(was, p, i, at.bury)
    ensures TopicsDone(p, was, cur, 0, at)
  {
    hide Buries, Finds;
  }

  lemma HandledNext(p: Policy, k: nat)
    requires k < |p.topics|
    ensures forall t: string :: Handled(p, k + 1, t) <==> Handled(p, k, t) || t == p.topics[k].0
  {
    forall t: string ensures Handled(p, k + 1, t) <==> Handled(p, k, t) || t == p.topics[k].0 {
      if t == p.topics[k].0 {
        assert Handled(p, k + 1, t);
      } else if Handled(p, k + 1, t) {
        var j :| 0 <= j < k + 1 && j < |p.topics| && p.topics[j].0 == t;
        assert j < k;
      }
    }
  }

  /** What is buried is not published, and so was never overdue. */
  lemma BuriedIsNotOverdue(was: Store, p: Policy, i: nat, v: View)
    requires Buries(was, p, i, v)
    ensures !was.messages[i].status.Published?
  {
  }

  /** The earlier passes leave the messages of the next topic as overdue as they were. */
  lemma StillToFind(p: Policy, was: Store, cur: Store, k: nat, at: Views, i: nat)
    requires PolicyOk(p) && k < |p.topics| && TopicsDone(p, was, cur, k, at)
    requires i < |was.messages| && was.messages[i].topic == p.topics[k].0
    ensures cur.messages[i] == was.messages[i]
    ensures Finds(cur, p, i, at.pass(p.topics[k].0)) <==> Finds(was, p, i, at.pass(p.topics[k].0))
  {
    assert !Handled(p, k, p.topics[k].0);
    if Buries(was, p, i, at.bury) {
      BuriedIsNotOverdue(was, p, i, at.bury);
    }
    hide Buries, Handled;
    OverdueStill(was, cur, p, i, at.pass(p.topics[k].0).now);
  }

  lemma TopicStep(p: Policy, was: Store, cur: Store, after: Store, k: nat, at: Views)
    requires PolicyOk(p) && k < |p.topics| && TopicsDone(p, was, cur, k, at)
    requires TopicPass(p, cur, after, p.topics[k].0, at.pass(p.topics[k].0))
    ensures TopicsDone(p, was, after, k + 1, at)
  {
    var topic := p.topics[k].0;
    HandledNext(p, k);
    assert !Handled(p, k, topic);
    forall i: nat | i < |was.messages| && was.messages[i].topic == topic
      ensures cur.messages[i] == was.messages[i]
      ensures Finds(cur, p, i, at.pass(topic)) <==> Finds(was, p, i, at.pass(topic))
    {
      StillToFind(p, was, cur, k, at, i);
    }
    hide Handled, Buries, Finds;
  }

  /** A topic nobody acknowledges is passed over, and none of its messages is ever overdue. */
  lemma HintStep(p: Policy, was: Store, cur: Store, k: nat, at: Views)
    requires PolicyOk(p) && k < |p.topics| && p.topics[k].1.None? && ConsumerOf(p.topics, p.topics[k].0).None?
    requires TopicsDone(p, was, cur, k, at)
    ensures TopicsDone(p, was, cur, k + 1, at)
  {
    var topic := p.topics[k].0;
    HandledNext(p, k);
    assert forall i: nat, v: View :: i < |was.messages| && was.messages[i].topic == topic ==> !Finds(was, p, i, v);
    hide Handled, Buries, Finds;
  }

  lemma NoneRevivedYet(p: Policy, was: Store, at: Views)
    ensures Revived(was, p, at, 0) == {}
  {
  }

  lemma HintRevivesNone(p: Policy, was: Store, k: nat, at: Views)
    requires k < |p.topics| && ConsumerOf(p.topics, p.topics[k].0).None?
    ensures Revived(was, p, at, k + 1) == Revived(was, p, at, k)
  {
    HandledNext(p, k);
  }

  lemma SameLength(p: Policy, was: Store, cur: Store, k: nat, at: Views)
    requires TopicsDone(p, was, cur, k, at)
    ensures |cur.messages| == |was.messages|
  {
  }

  lemma AllTopics(p: Policy, was: Store, cur: Store, at: Views)
    requires TopicsDone(p, was, cur, |p.topics|, at)
    ensures cur == Reconciled(was, p, at)
  {
    forall i: nat, v: View | i < |was.messages| && Finds(was, p, i, v)
      ensures Handled(p, |p.topics|, was.messages[i].topic)
    {
      assert exists r :: r in p.topics && r.0 == was.messages[i].topic by {
        var topic := was.messages[i].topic;
        assert (topic, ConsumerOf(p.topics, topic)) in p.topics;
      }
    }
    hide Buries, Finds;
    var after := Reconciled(was, p, at);
    assert cur.messages == after.messages;
    assert cur.dead == after.dead;
  }

  /** The overdue messages of a topic, among the first `k`, that have attempts left. */
  ghost function Requeued(s: Store, p: Policy, topic: string, v: View, k: nat): set<nat>
    requires k <= |s.messages|
  {
    set i: nat | 0 <= i < k && s.messages[i].topic == topic && Finds(s, p, i, v)
                 && s.messages[i].attempts < p.maxAttempts
  }

  lemma NoneRequeuedYet(s: Store, p: Policy, topic: string, v: View)
    ensures Requeued(s, p, topic, v, 0) == {}
  {
  }

  lemma OneMoreRequeued(s: Store, p: Policy, topic: string, v: View, k: nat)
    requires k < |s.messages|
    ensures var more := s.messages[k].topic == topic && Finds(s, p, k, v) && s.messages[k].attempts < p.maxAttempts;
            |Requeued(s, p, topic, v, k + 1)| == |Requeued(s, p, topic, v, k)| + if more then 1 else 0
  {
    hide Finds;
    var before, after := Requeued(s, p, topic, v, k), Requeued(s, p, topic, v, k + 1);
    if s.messages[k].topic == topic && Finds(s, p, k, v) && s.messages[k].attempts < p.maxAttempts {
      assert after == before + {k};
    } else {
      assert after == before;
    }
  }

  /** Everything the passes over the first `k` topics put back to the publisher. */
  ghost function Revived(s: Store, p: Policy, at: Views, k: nat): set<nat> {
    set i: nat | 0 <= i < |s.messages| && Recovered(p, s, i, k, at) && s.messages[i].attempts < p.maxAttempts
  }

  lemma TopicRevives(p: Policy, was: Store, cur: Store, k: nat, at: Views)
    requires PolicyOk(p) && k < |p.topics| && TopicsDone(p, was, cur, k, at)
    ensures |Revived(was, p, at, k + 1)|
         == |Revived(was, p, at, k)| + |Requeued(cur, p, p.topics[k].0, at.pass(p.topics[k].0), |cur.messages|)|
  {
    var topic := p.topics[k].0;
    HandledNext(p, k);
    assert !Handled(p, k, topic);
    forall i: nat | i < |was.messages| && was.messages[i].topic == topic
      ensures cur.messages[i] == was.messages[i]
      ensures Finds(cur, p, i, at.pass(topic)) <==> Finds(was, p, i, at.pass(topic))
    {
      StillToFind(p, was, cur, k, at, i);
    }
    hide Handled, Buries, Finds;
    var old_, new_, mine := Revived(was, p, at, k), Revived(was, p, at, k + 1),
                            Requeued(cur, p, topic, at.pass(topic), |cur.messages|);
    assert new_ == old_ + mine && old_ !! mine;
  }

  lemma OverdueSame(was: Store, cur: Store, p: Policy, i: nat, v: View)
    requires i < |was.messages| && i < |cur.messages| && cur.messages[i] == was.messages[i]
    requires cur.inbox == was.inbox && cur.executions == was.executions && (i in cur.dead <==> i in was.dead)
    ensures Finds(cur, p, i, v) <==> Finds(was, p, i, v)
  {
  }
}
