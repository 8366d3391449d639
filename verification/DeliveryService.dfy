/** The outbox as the program runs it: rows in tables, updated in place by claim, publish, reconcile, replay
    and the fenced consumers. Every transaction is proved equal to its one-step form in DeliverySpec. */
module DeliveryService {
  import opened Prelude
  import opened DeliverySpec
  import opened DeliveryPasses
  import opened DeliveryPump
  import opened DeliveryWorkers
  import R = DeliveryRuns

  /** What the publisher got hold of. */
  datatype Claim = Claim(message: nat, owner: nat, attempts: nat)

  class DurableTasks {
    const policy: Policy
    var messages: seq<Message>
    var inbox: set<(string, nat)>
    var dead: set<nat>
    var executions: map<string, Execution>
    var owners: nat
    var workers: seq<R.Worker>      // the runs of consumers, here and in other processes
    var log: seq<R.Effect>          // what their sessions have committed

    constructor (policy: Policy)
      ensures this.policy == policy && Fleet() == R.EMPTY
    {
      this.policy := policy;
      messages, inbox, dead, executions, owners := [], {}, {}, map[], 0;
      workers, log := [], [];
    }

    function Fleet(): R.Fleet
      reads this
    {
      R.Fleet(Rows(), workers, log)
    }

    function Rows(): Store
      reads this
    {
      Store(messages, inbox, dead, executions, owners)
    }

    method FreshOwner() returns (owner: nat)
      modifies this`owners
      ensures owner == old(owners) && owners == owner + 1
    {
      owner := owners;
      owners := owners + 1;
    }

    method EnqueueTask(e: Intent, now: int) returns (id: Option<nat>)
      modifies this`messages
      ensures (Rows(), id) == Enqueue(old(Rows()), e, now)
    {
      if !IntentOk(e) { return None; }
      var prior := FindDedup(messages, e.dedup);
      if prior.Some? {
        if SameIntent(messages[prior.value], e) { return prior; }
        return None;
      }
      id := Some(|messages|);
      messages := messages + [Message(e.topic, e.key, e.dedup, e.payload, e.notBefore, now, e.notBefore, Pending, None,
                                      None, 0, None)];
    }

    // ---------- publishing ----------

    /** The oldest message that is due and unheld, skipping rows others have locked. */
    method ClaimDelivery(now: int, locked: set<nat>) returns (claim: Option<Claim>)
      modifies this`messages, this`owners
      ensures var (after, i) := DeliverySpec.ClaimDelivery(old(Rows()), policy, now, locked);
              Rows() == after && (if i.None? then claim.None?
                                  else claim == Some(Claim(i.value, old(owners), after.messages[i.value].attempts)))
    {
      var best: Option<nat> := None;
      for i := 0 to |messages|
        invariant best == Oldest(Rows(), policy, now, locked, i)
      {
        if i !in locked && Claimable(Rows(), policy, i, now) {
          if best.None? || messages[i].createdAt < messages[best.value].createdAt {
            best := Some(i);
          }
        }
      }
      if best.None? { return None; }
      var owner := FreshOwner();
      var m := messages[best.value];
      messages := messages[best.value := m.(status := Delivering, owner := Some(owner),
                                            leaseEnd := Some(now + policy.ttl), attempts := m.attempts + 1)];
      return Some(Claim(best.value, owner, m.attempts + 1));
    }

    method DeadLetter(i: nat)
      modifies this`dead
      ensures dead == old(dead) + {i}
    {
      dead := dead + {i};
    }

    /** Refused when the lease ran out or a later owner has the row. */
    method FinishDelivery(claim: Claim, failed: bool, now: int) returns (ok: bool)
      modifies this`messages, this`dead
      ensures var after := DeliverySpec.FinishDelivery(old(Rows()), policy, claim.message, claim.owner, claim.attempts,
                                                       failed, now);
              ok == after.Some? && Rows() == if ok then after.value else old(Rows())
    {
      var i := claim.message;
      if i >= |messages| { return false; }
      var m := messages[i];
      if m.owner != Some(claim.owner) || m.status != Delivering || m.leaseEnd.None? || m.leaseEnd.value <= now {
        return false;
      }
      m := m.(owner := None, leaseEnd := None, availableAt := At(now + Backoff(claim.attempts)));
      if failed {
        m := m.(status := Pending);
      } else {
        m := m.(status := Published, publishedAt := Some(now));
      }
      messages := messages[i := m];
      if failed && claim.attempts >= policy.maxAttempts {
        DeadLetter(i);
      }
      return true;
    }

    // ---------- reconciliation ----------

    /** Dead letters for what has used up its attempts with nobody at it. */
    method BuryExhausted(v: View)
      modifies this`dead
      ensures dead == old(dead) + set i | 0 <= i < |messages| && Buries(old(Rows()), policy, i, v)
    {
      ghost var was := Rows();
      for i := 0 to |messages|
        invariant dead == was.dead + set k | 0 <= k < i && Buries(was, policy, k, v)
      {
        if Buries(Rows(), policy, i, v) {
          DeadLetter(i);
        }
      }
    }

    /** One topic's overdue messages: back to the publisher, or a dead letter once their attempts are used up. */
    method RecoverTopic(topic: string, consumer: string, v: View) returns (count: nat)
      requires ConsumerOf(policy.topics, topic) == Some(consumer)
      modifies this`messages, this`dead
      ensures |messages| == |old(messages)|
      ensures forall i :: 0 <= i < |messages| ==>
                messages[i] == if && old(messages[i]).topic == topic && Finds(old(Rows()), policy, i, v)
                                  && old(messages[i]).attempts < policy.maxAttempts
                               then old(messages[i]).(status := Pending, availableAt := MinusInfinity)
                               else old(messages[i])
      ensures dead == old(dead) + set i | 0 <= i < |old(messages)| && old(messages)[i].topic == topic
                                          && Finds(old(Rows()), policy, i, v)
                                          && old(messages)[i].attempts >= policy.maxAttempts
      ensures count == |Requeued(old(Rows()), policy, topic, v, |messages|)|
    {
      hide Finds, Requeued;
      ghost var was := Rows();
      count := 0;
      NoneRequeuedYet(was, policy, topic, v);
      for i := 0 to |messages|
        invariant |messages| == |was.messages|
        invariant forall k :: 0 <= k < |messages| ==>
                    messages[k] == if && k < i && was.messages[k].topic == topic && Finds(was, policy, k, v)
                                      && was.messages[k].attempts < policy.maxAttempts
                                   then was.messages[k].(status := Pending, availableAt := MinusInfinity)
                                   else was.messages[k]
        invariant dead == was.dead + set k | 0 <= k < i && was.messages[k].topic == topic
                                             && Finds(was, policy, k, v)
                                             && was.messages[k].attempts >= policy.maxAttempts
        invariant count == |Requeued(was, policy, topic, v, i)|
      {
        OneMoreRequeued(was, policy, topic, v, i);
        OverdueSame(was, Rows(), policy, i, v);
        if messages[i].topic == topic && Finds(Rows(), policy, i, v) {
          if messages[i].attempts >= policy.maxAttempts {
            DeadLetter(i);
          } else {
            messages := messages[i := messages[i].(status := Pending, availableAt := MinusInfinity)];
            count := count + 1;
          }
        }
      }
    }

    /** One transaction of several statements; each reads the clock again and passes over what is locked then. */
    method Reconcile(at: Views) returns (count: nat)
      requires PolicyOk(policy)
      modifies this`messages, this`dead
      ensures Rows() == Reconciled(old(Rows()), policy, at)
      ensures count == |Revived(old(Rows()), policy, at, |policy.topics|)|
    {
      hide Buries, Finds, TopicsDone, Reconciled, Revived, Requeued;
      ghost var was := Rows();
      BuryExhausted(at.bury);
      BuriedFirst(policy, was, Rows(), at);
      count := 0;
      assert Revived(was, policy, at, 0) == {} by { NoneRevivedYet(policy, was, at); }
      for k := 0 to |policy.topics|
        invariant TopicsDone(policy, was, Rows(), k, at) && count == |Revived(was, policy, at, k)|
      {
        ghost var before := Rows();
        var (topic, consumer) := policy.topics[k];
        ConsumerIs(policy.topics, k);
        if consumer.Some? {
          TopicRevives(policy, was, before, k, at);
          var more := RecoverTopic(topic, consumer.value, at.pass(topic));
          count := count + more;
          SameLength(policy, was, before, k, at);
          TopicStep(policy, was, before, Rows(), k, at);
        } else {
          HintStep(policy, was, Rows(), k, at);
          HintRevivesNone(policy, was, k, at);
        }
      }
      AllTopics(policy, was, Rows(), at);
    }

    method Replay(i: nat) returns (ok: bool)
      modifies this`messages, this`dead
      ensures var after := DeliverySpec.Replay(old(Rows()), policy, i);
              ok == after.Some? && Rows() == if ok then after.value else old(Rows())
    {
      if i >= |messages| || !Registered(policy, messages[i].topic) { return false; }
      if i !in dead { return false; }
      dead := dead - {i};
      messages := messages[i := messages[i].(status := Pending, attempts := 0, availableAt := MinusInfinity,
                                             owner := None, leaseEnd := None)];
      return true;
    }

    // ---------- consuming ----------

    /** The statements of one transaction after the first look: take the resource, look once more. */
    method TakeExecution(i: nat, now: int) returns (lease: Option<Lease>)
      requires i < |messages|
      modifies this`executions, this`owners
      ensures (Rows(), lease) == Take(old(Rows()), policy, i, now)
    {
      var resource := ResourceOf(messages[i]);
      var epoch := 1;
      if resource in executions {
        if !Due(executions[resource].expires, now) { return None; }
        epoch := executions[resource].epoch + 1;
      }
      var owner := FreshOwner();
      executions := executions[resource := Execution(i, owner, epoch, At(now + policy.ttl))];
      if (messages[i].topic, i) in inbox {
        executions := executions[resource := executions[resource].(expires := MinusInfinity)];
        assert executions == old(executions)[resource := Execution(i, owner, epoch, MinusInfinity)];
        return None;
      }
      return Some(Lease(resource, i, owner, epoch));
    }

    method ClaimExecution(i: nat, look: int, now: int) returns (lease: Option<Lease>)
      modifies this`executions, this`owners
      ensures (Rows(), lease) == if MayStart(old(Rows()), policy, i, look) then Take(old(Rows()), policy, i, now)
                                 else (old(Rows()), None)
    {
      if !MayStart(Rows(), policy, i, look) { return None; }
      lease := TakeExecution(i, now);
    }

    method Renew(l: Lease, now: int) returns (ok: bool)
      modifies this`executions
      ensures var after := DeliverySpec.Renew(old(Rows()), policy, l, now);
              ok == after.Some? && Rows() == if ok then after.value else old(Rows())
    {
      if !Held(Rows(), l, now) { return false; }
      executions := executions[l.resource := executions[l.resource].(expires := At(now + policy.ttl))];
      return true;
    }

    method Release(l: Lease)
      modifies this`executions
      ensures Rows() == DeliverySpec.Release(old(Rows()), l)
    {
      if Current(Rows(), l) {
        executions := executions[l.resource := executions[l.resource].(expires := MinusInfinity)];
      }
    }

    /** The answer tells whether the row is new; the consumer does not ask. */
    method ClaimInboxOnce(consumer: string, i: nat) returns (new_: bool)
      modifies this`inbox
      ensures new_ == ((consumer, i) !in old(inbox)) && inbox == old(inbox) + {(consumer, i)}
    {
      new_ := (consumer, i) !in inbox;
      inbox := inbox + {(consumer, i)};
    }

    /** A commit of the handler's session under the guard. */
    method CommitGuarded(l: Lease, final: bool, now: int) returns (ok: bool)
      requires l.message < |messages|
      modifies this`inbox
      ensures var after := Commit(old(Rows()), l, final, now);
              ok == after.Some? && Rows() == if ok then after.value else old(Rows())
    {
      if !Held(Rows(), l, now) { return false; }
      if final {
        var _ := ClaimInboxOnce(messages[l.message].topic, l.message);
      }
      return true;
    }

    /** Others at work: publishers, reconcilers, other consumers, and this consumer's own heartbeat. */
    method Yield(others: seq<R.Event>)
      modifies this
      ensures Fleet() == R.Run(policy, old(Fleet()), others)
    {
      hide R.Next;
      var f := Fleet();
      ghost var start := f;
      for k := 0 to |others|
        invariant f == R.Run(policy, start, others[..k])
      {
        OneMoreEvent(policy, start, others[..k], others[k]);
        assert others[..k + 1] == others[..k] + [others[k]];
        f := R.Next(policy, f, others[k]);
      }
      assert others[..|others|] == others;
      messages, inbox, dead := f.store.messages, f.store.inbox, f.store.dead;
      executions, owners := f.store.executions, f.store.owners;
      workers, log := f.workers, f.log;
    }

    /** The session of worker `w` commits under the guard; the final commit carries the acknowledgement. */
    method CommitAs(w: nat, l: Lease, final: bool, now: int) returns (ok: bool)
      requires w < |workers| && workers[w] == R.Working(l) && l.message < |messages|
      modifies this`inbox, this`workers, this`log
      ensures Fleet() == R.Next(policy, old(Fleet()), R.Commits(w, final, now))
      ensures (ok <==> log != old(log)) && (ok <==> Held(old(Rows()), l, now))
      ensures !final || !ok ==> Rows() == old(Rows())
    {
      ok := CommitGuarded(l, final, now);
      if ok {
        log := log + [R.Effect(l.resource, l.message, l.owner, l.epoch, final)];
        if final {
          workers := workers[w := R.Finishing(l)];
        }
      }
    }

    /** Others go first; worker `w` is spared. */
    method LetOthers(others: seq<R.Event>, ghost w: nat, ghost start: R.Fleet, ghost events: seq<R.Event>)
      returns (ghost more: seq<R.Event>)
      requires R.FleetInv(Fleet()) && Fleet() == R.Run(policy, start, events)
      requires w < |workers| && NoneMine(others, w)
      modifies this
      ensures R.FleetInv(Fleet()) && Fleet() == R.Run(policy, start, more)
      ensures Spared(old(Fleet()), Fleet(), w) && (others == [] ==> Fleet() == old(Fleet()))
      ensures more == events + others
    {
      hide R.FleetInv, R.Next, R.Run, NoneMine, Spared;
      NoEvents(policy, Fleet());
      RunSpares(policy, Fleet(), others, w);
      RunInTwo(policy, start, events, others);
      Yield(others);
      more := events + others;
    }

    /** The handler at work under its lease: a first check, `progress` intermediate commits until the guard refuses
        one, and unless the handler fails the final commit. */
    method Execute(w: nat, l: Lease, clock: nat -> int, meanwhile: nat -> seq<R.Event>, progress: nat, fails: bool,
                   ghost start: R.Fleet, ghost events: seq<R.Event>)
      returns (done: bool, ghost more: seq<R.Event>)
      requires R.FleetInv(Fleet()) && Fleet() == R.Run(policy, start, events)
      requires w < |workers| && workers[w] == R.Working(l) && l.message < |messages| && FinalOf(l) !in log
      requires Under(log, l) == []
      requires forall n :: NoneMine(meanwhile(n), w)
      modifies this
      ensures R.FleetInv(Fleet()) && Fleet() == R.Run(policy, start, more)
      ensures w < |workers| && R.Leased(workers[w]) && workers[w].lease == l && l.message < |messages|
      ensures done <==> FinalOf(l) in log
      ensures done ==> !fails && R.Acknowledged(Rows(), l.message)
      ensures done ==> Under(log, l) == Made(l, progress, true)
      ensures !done ==> exists n :: 0 <= n <= progress && Under(log, l) == Made(l, n, false)
      ensures (forall n :: meanwhile(n) == []) && HeldThroughout(old(Rows()), l, clock, progress) ==>
                done == !fails && Under(log, l) == Made(l, progress, !fails)
    {
      hide R.FleetInv, R.Next, R.Run, NoneMine, R.Acknowledged, Held, Current, Under, Made;
      ghost var smooth := (forall n :: meanwhile(n) == []) && HeldThroughout(Rows(), l, clock, progress);
      done, more := false, events;
      var held := Held(Rows(), l, clock(2));
      ghost var made := 0;
      NothingMade(l);
      for n := 0 to progress
        invariant R.FleetInv(Fleet()) && Fleet() == R.Run(policy, start, more)
        invariant w < |workers| && workers[w] == R.Working(l) && l.message < |messages| && FinalOf(l) !in log
        invariant smooth ==> held && Rows() == old(Rows())
        invariant made <= n && (held ==> made == n) && Under(log, l) == Made(l, made, false)
      {
        more := LetOthers(meanwhile(n + 1), w, start, more);
        if held {
          Committing(policy, Fleet(), w, l, false, clock(n + 3), start, more);
          MadeOneMore(log, l, made, false);
          held := CommitAs(w, l, false, clock(n + 3));
          made := if held then made + 1 else made;
          more := more + [R.Commits(w, false, clock(n + 3))];
        }
      }
      more := LetOthers(meanwhile(progress + 1), w, start, more);
      if held && !fails {
        Committing(policy, Fleet(), w, l, true, clock(progress + 3), start, more);
        MadeOneMore(log, l, made, true);
        done := CommitAs(w, l, true, clock(progress + 3));
        more := more + [R.Commits(w, true, clock(progress + 3))];
      }
    }

    /** One delivery from start to end, others at work between any two of its transactions. Its lease is given back
        in every case. What happened is one run of the fleet, so a message takes effect once whatever the others
        did. */
    method Consume(i: nat, clock: nat -> int, meanwhile: nat -> seq<R.Event>, progress: nat, fails: bool)
      returns (done: bool, ghost lease: Option<Lease>, ghost events: seq<R.Event>)
      requires R.FleetInv(Fleet()) && forall n :: NoneMine(meanwhile(n), |workers|)
      modifies this
      ensures Fleet() == R.Run(policy, old(Fleet()), events) && R.FleetInv(Fleet())
      ensures done ==> MayStart(old(Rows()), policy, i, clock(0)) && lease.Some? && !fails
      ensures done ==> i < |messages| && R.Acknowledged(Rows(), i)
      ensures lease.Some? ==> lease.value.message == i && (done <==> FinalOf(lease.value) in log)
      ensures lease.Some? && Current(Rows(), lease.value) ==> executions[lease.value.resource].expires.MinusInfinity?
      ensures if MayStart(old(Rows()), policy, i, clock(0)) then
                var w := |old(workers)|;
                var taken := R.Run(policy, old(Fleet()),
                                   [R.Arrives(i, clock(0))] + meanwhile(0) + [R.Takes(w, clock(1))]).workers;
                w < |taken| && taken[w] == if lease.Some? then R.Working(lease.value) else R.Gone
              else lease.None?
      ensures done ==> Under(log, lease.value) == Made(lease.value, progress, true)
      ensures lease.Some? && !done ==>
                exists n :: 0 <= n <= progress && Under(log, lease.value) == Made(lease.value, n, false)
      ensures lease.Some? && (forall n :: meanwhile(n) == []) && InTime(clock, policy.ttl, progress) ==>
                done == !fails && Under(log, lease.value) == Made(lease.value, progress, !fails)
    {
      hide R.FleetInv, R.Next, R.Run, NoneMine, MayStart, Take, Held, Commit;
      ghost var start := Fleet();
      var w := |workers|;
      done, lease, events := false, None, [R.Arrives(i, clock(0))];
      Arrival(policy, start, i, clock(0));
      if !MayStart(Rows(), policy, i, clock(0)) { return; }
      workers := workers + [R.Arrived(i)];
      events := LetOthers(meanwhile(0), w, start, events);
      Taking(policy, Fleet(), w, i, clock(1), start, events);
      var taken := TakeExecution(i, clock(1));
      workers := workers[w := if taken.Some? then R.Working(taken.value) else R.Gone];
      events := events + [R.Takes(w, clock(1))];
      if taken.None? { return; }
      var l := taken.value;
      lease := taken;
      TakenIsHeld(old(Rows()), policy, i, l, clock, progress);
      done, events := Execute(w, l, clock, meanwhile, progress, fails, start, events);
      events := LetOthers(meanwhile(progress + 2), w, start, events);
      Releasing(policy, Fleet(), w, l, start, events);
      Release(l);
      workers := workers[w := R.Gone];
      events := events + [R.Releases(w)];
    }

    // ---------- the pump ----------

    /** One turn of the pump: claim, publish, record the outcome. A lease lost meanwhile is nobody's error:
        the later owner's result stands. */
    method PublishNext(look: int, end: int, breaks: bool) returns (sent: bool)
      modifies this`messages, this`dead, this`owners
      ensures (Rows(), sent) == OneTurn(old(Rows()), policy, look, end, breaks)
    {
      hide DeliverySpec.ClaimDelivery, DeliverySpec.FinishDelivery;
      ClaimedIsThere(Rows(), policy, look);
      var claim := ClaimDelivery(look, {});
      if claim.None? { return false; }
      var _ := FinishDelivery(claim.value, breaks, end);
      return true;
    }

    /** Reconcile, then publish up to `limit` messages, one after the other. */
    method Pump(limit: nat, at: Views, c: Course) returns (count: nat)
      requires PolicyOk(policy)
      modifies this`messages, this`dead, this`owners
      ensures (Rows(), count) == Pumped(Reconciled(old(Rows()), policy, at), policy, c, 0, limit)
    {
      hide OneTurn, Reconciled;
      var _ := Reconcile(at);
      ghost var whole := Pumped(Rows(), policy, c, 0, limit);
      count := 0;
      while count < limit
        invariant count <= limit
        invariant var (last, more) := Pumped(Rows(), policy, c, count, limit - count); whole == (last, count + more)
      {
        UnsentIsSame(Rows(), policy, c.looks(count), c.ends(count), c.breaks(count));
        var sent := PublishNext(c.looks(count), c.ends(count), c.breaks(count));
        if !sent { break; }
        count := count + 1;
      }
    }
  }

  /** The lease is held at the check and at every commit. */
  ghost predicate HeldThroughout(s: Store, l: Lease, clock: nat -> int, progress: nat) {
    forall k :: 2 <= k <= progress + 3 ==> Held(s, l, clock(k))
  }

  /** The clock has not come to the end of the lease at any of them. */
  ghost predicate InTime(clock: nat -> int, ttl: int, progress: nat) {
    forall k: nat :: 2 <= k <= progress + 3 ==> clock(k) < clock(1) + ttl
  }

  lemma TakenIsHeld(s: Store, p: Policy, i: nat, l: Lease, clock: nat -> int, progress: nat)
    requires i < |s.messages|
    ensures Take(s, p, i, clock(1)).1 == Some(l) && InTime(clock, p.ttl, progress) ==>
              HeldThroughout(Take(s, p, i, clock(1)).0, l, clock, progress)
  {
  }

  lemma UnsentIsSame(s: Store, p: Policy, look: int, end: int, breaks: bool)
    ensures !OneTurn(s, p, look, end, breaks).1 ==> OneTurn(s, p, look, end, breaks).0 == s
  {
  }

  lemma ClaimedIsThere(s: Store, p: Policy, now: int)
    ensures var (after, i) := DeliverySpec.ClaimDelivery(s, p, now, {});
            (i.Some? ==> i.value < |after.messages|) && (i.None? ==> after == s)
  {
  }
}
