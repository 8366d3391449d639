/** What every event of the delivery comes to, told by the rows and clocks: who gets in and who is turned away, what is
    recorded, buried and put back. While a lease runs nobody else gets in; when it has run out, the next one does. */
module DeliveryOutcomes {
  import opened Prelude
  import opened DeliverySpec
  import opened DeliveryRuns

  // ---------- consumers ----------

  /** The row of the resource carries this lease, and has not run out. */
  predicate Runs(s: Store, l: Lease, now: int) {
    && l.resource in s.executions
    && var x := s.executions[l.resource];
    (x.message, x.owner, x.epoch) == (l.message, l.owner, l.epoch) && x.expires.At? && x.expires.time > now
  }

  /** While a lease runs nobody takes its resource: whoever comes finds the row as it was, and is turned away. */
  lemma RunningLeaseKeepsOthersOut(p: Policy, f: Fleet, l: Lease, v: nat, now: int)
    requires Runs(f.store, l, now) && v < |f.workers| && f.workers[v].Arrived?
    requires f.workers[v].message < |f.store.messages|
    ensures var after := Next(p, f, Takes(v, now));
            && Runs(after.store, l, now) && after.store.executions[l.resource] == f.store.executions[l.resource]
            && (ResourceOf(f.store.messages[f.workers[v].message]) == l.resource ==>
                  after.store == f.store && after.workers[v].Gone?)
  {
  }

  /** Whoever has arrived for a message gets its resource if and only if nobody's lease on it runs and the message has
      not been acknowledged. The lease is at the next epoch, of a new owner, and runs for the time of the policy. Of an
      acknowledged message the resource is left to others at once, at whatever time they come. */
  lemma TakesExactly(p: Policy, f: Fleet, v: nat, now: int)
    requires v < |f.workers| && f.workers[v].Arrived? && f.workers[v].message < |f.store.messages|
    ensures var (s, i, after) := (f.store, f.workers[v].message, Next(p, f, Takes(v, now)));
            var r := s.messages[i].topic + ":" + s.messages[i].key;
            var open := r !in s.executions || s.executions[r].expires.MinusInfinity?
                        || s.executions[r].expires.time <= now;
            && |after.workers| == |f.workers|
            && (after.workers[v].Working? <==> open && (s.messages[i].topic, i) !in s.inbox)
            && (!after.workers[v].Working? ==> after.workers[v].Gone?)
            && (!open ==> after.store == s)
            && var epoch := if r in s.executions then s.executions[r].epoch + 1 else 1;
            && (after.workers[v].Working? ==> after.workers[v].lease == Lease(r, i, s.owners, epoch))
            && (open ==>
                  && r in after.store.executions && after.store.executions - {r} == s.executions - {r}
                  && var x := after.store.executions[r];
                  && x.epoch == epoch && x.owner == s.owners < after.store.owners && x.message == i
                  && (if after.workers[v].Working? then x.expires == At(now + p.ttl)
                      else forall later: int :: Due(x.expires, later)))
            && (after.store.messages, after.store.inbox, after.store.dead) == (s.messages, s.inbox, s.dead)
  {
  }

  /** A message is started if and only if its topic is handled here, its time has come, and it is neither acknowledged
      nor under a dead letter. */
  lemma ArrivesExactly(p: Policy, f: Fleet, i: nat, now: int)
    ensures var after := Next(p, f, Arrives(i, now));
            && after.store == f.store && after.log == f.log
            && after.workers == (if && i < |f.store.messages|
                                    && (exists k :: 0 <= k < |p.topics| && p.topics[k].0 == f.store.messages[i].topic)
                                    && (f.store.messages[i].notBefore.At? ==> f.store.messages[i].notBefore.time <= now)
                                    && (f.store.messages[i].topic, i) !in f.store.inbox && i !in f.store.dead
                                 then f.workers + [Arrived(i)] else f.workers)
  {
  }

  /** A session commits if and only if its lease runs; then its effect is on record, and with the final one the
      acknowledgement. */
  lemma CommitsExactly(p: Policy, f: Fleet, w: nat, final: bool, now: int)
    requires w < |f.workers| && f.workers[w].Working? && f.workers[w].lease.message < |f.store.messages|
    ensures var (l, after) := (f.workers[w].lease, Next(p, f, Commits(w, final, now)));
            if Runs(f.store, l, now) then
              && after.log == f.log + [Effect(l.resource, l.message, l.owner, l.epoch, final)]
              && after.workers == (if final then f.workers[w := Finishing(l)] else f.workers)
              && after.store == f.store.(inbox := if final
                                                  then f.store.inbox + {(f.store.messages[l.message].topic, l.message)}
                                                  else f.store.inbox)
            else after == f
  {
  }

  /** A heartbeat moves the end of a running lease to the time of the policy from now, and of no other. */
  lemma RenewsExactly(p: Policy, f: Fleet, w: nat, now: int)
    requires w < |f.workers| && Leased(f.workers[w])
    ensures var (l, after) := (f.workers[w].lease, Next(p, f, Renews(w, now)));
            after == if Runs(f.store, l, now)
                     then f.(store := f.store.(executions :=
                               f.store.executions[l.resource :=
                                 f.store.executions[l.resource].(expires := At(now + p.ttl))]))
                     else f
  {
  }

  /** A lease given back no longer runs at any time, and no other row changes. */
  lemma ReleasesExactly(p: Policy, f: Fleet, w: nat)
    requires w < |f.workers| && Leased(f.workers[w])
    ensures var (l, after) := (f.workers[w].lease, Next(p, f, Releases(w)));
            && after.workers == f.workers[w := Gone]
            && (forall now: int :: !Runs(after.store, l, now))
            && (forall r :: r in f.store.executions && r != l.resource ==>
                  r in after.store.executions && after.store.executions[r] == f.store.executions[r])
            && (l.resource in f.store.executions ==>
                  && l.resource in after.store.executions
                  && after.store.executions[l.resource].epoch == f.store.executions[l.resource].epoch)
  {
  }

  // ---------- a lease over a run ----------

  /** Nobody comes for the resource of the lease when that lease has run out, and its holder does not give it back. */
  predicate InTime(f: Fleet, w: nat, l: Lease, e: Event) {
    && (e.Releases? ==> e.worker != w)
    && (e.Takes? && e.worker < |f.workers| && f.workers[e.worker].Arrived?
        && f.workers[e.worker].message < |f.store.messages|
        && ResourceOf(f.store.messages[f.workers[e.worker].message]) == l.resource
        && l.resource in f.store.executions ==>
          !Due(f.store.executions[l.resource].expires, e.now))
  }

  predicate InTimeRun(p: Policy, f: Fleet, w: nat, l: Lease, events: seq<Event>)
    decreases |events|
  {
    events == [] || (InTime(f, w, l, events[0]) && InTimeRun(p, Next(p, f, events[0]), w, l, events[1..]))
  }

  /** Worker `w` has this lease in hand, or had it and died. */
  ghost predicate Holds(f: Fleet, w: nat, l: Lease) {
    && FleetInv(f) && Sound(f.store, l) && Current(f.store, l)
    && w < |f.workers| && (f.workers[w].Gone? || (Leased(f.workers[w]) && f.workers[w].lease == l))
    && forall v :: 0 <= v < |f.workers| && v != w && Leased(f.workers[v]) ==> f.workers[v].lease.owner != l.owner
  }

  lemma HeldStep(p: Policy, f: Fleet, w: nat, l: Lease, e: Event)
    requires Holds(f, w, l) && InTime(f, w, l, e)
    ensures Holds(Next(p, f, e), w, l)
  {
    NextKeeps(p, f, e);
    hide FleetInv;
    match e {
      case Takes(v, now) => HeldWhenTaking(p, f, w, l, v, now);
      case Commits(_, _, _) => hide Held;
      case _ => hide Oldest, Backoff, MayStart, Take;
    }
  }

  lemma HeldWhenTaking(p: Policy, f: Fleet, w: nat, l: Lease, v: nat, now: int)
    requires Holds(f, w, l) && InTime(f, w, l, Takes(v, now)) && FleetInv(Next(p, f, Takes(v, now)))
    ensures Holds(Next(p, f, Takes(v, now)), w, l)
  {
    hide FleetInv;
  }

  /** As long as everybody who comes does so before the lease has run out, and until its own holder gives it back, the
      lease stays the current one of its resource, through every other event there is. */
  lemma {:induction false} HeldWhileItRuns(p: Policy, f: Fleet, w: nat, l: Lease, events: seq<Event>)
    requires Holds(f, w, l) && InTimeRun(p, f, w, l, events)
    ensures Holds(Run(p, f, events), w, l)
    decreases |events|
  {
    hide Holds, Next, InTime;
    if events != [] {
      HeldStep(p, f, w, l, events[0]);
      HeldWhileItRuns(p, Next(p, f, events[0]), w, l, events[1..]);
    }
  }

  /** A lease just taken is held. */
  lemma TakenIsHeld(p: Policy, f: Fleet, v: nat, now: int)
    requires FleetInv(f) && v < |f.workers| && f.workers[v].Arrived? && Next(p, f, Takes(v, now)).workers[v].Working?
    ensures var after := Next(p, f, Takes(v, now)); Holds(after, v, after.workers[v].lease)
  {
    NextKeeps(p, f, Takes(v, now));
    var after := Next(p, f, Takes(v, now));
    assert Knows(after.store, after.workers[v]);
    forall u | 0 <= u < |after.workers| && u != v && Leased(after.workers[u])
      ensures after.workers[u].lease.owner != after.workers[v].lease.owner
    {
      assert Knows(f.store, f.workers[u]);
    }
  }

  // ---------- publishers ----------

  /** What a publisher may take: of a topic handled here, due by its backoff and its schedule, not under a dead letter,
      and either nobody's or of a publisher whose lease has run out. */
  predicate Offered(s: Store, p: Policy, i: nat, now: int) {
    && i < |s.messages| && i !in s.dead
    && var m := s.messages[i];
    && (exists k :: 0 <= k < |p.topics| && p.topics[k].0 == m.topic)
    && (m.availableAt.At? ==> m.availableAt.time <= now) && (m.notBefore.At? ==> m.notBefore.time <= now)
    && (m.status == Pending || (m.status == Delivering && m.leaseEnd.Some? && m.leaseEnd.value <= now))
  }

  lemma OfferedIsClaimable(s: Store, p: Policy, i: nat, now: int)
    ensures Claimable(s, p, i, now) <==> Offered(s, p, i, now)
  {
  }

  /** The oldest of what is offered and not locked. */
  ghost predicate First(s: Store, p: Policy, i: nat, locked: set<nat>, now: int) {
    && i !in locked && Offered(s, p, i, now)
    && forall j: nat :: j !in locked && Offered(s, p, j, now) ==> s.messages[i].createdAt <= s.messages[j].createdAt
  }

  lemma OldestIsFirst(s: Store, p: Policy, locked: set<nat>, now: int)
    ensures var r := Oldest(s, p, now, locked, |s.messages|);
            && (r.None? <==> forall i: nat :: i !in locked ==> !Offered(s, p, i, now))
            && (r.Some? ==> First(s, p, r.value, locked, now))
  {
    forall i: nat
      ensures Claimable(s, p, i, now) <==> Offered(s, p, i, now)
      ensures Claimable(s, p, i, now) ==> i < |s.messages|
    {
      OfferedIsClaimable(s, p, i, now);
    }
    hide Claimable, Offered;
    var r := Oldest(s, p, now, locked, |s.messages|);
    hide Oldest;
    if r.Some? {
      assert Offered(s, p, r.value, now);
    }
  }

  /** A publisher takes the oldest message that is offered and that nobody has locked, and no other: it is held by a new
      owner for the time of the policy, at one more attempt. Where none is, nothing happens. */
  lemma ClaimsExactly(p: Policy, f: Fleet, locked: set<nat>, now: int)
    ensures var (s, after) := (f.store, Next(p, f, PublisherClaims(locked, now)).store);
            if forall i: nat :: i !in locked ==> !Offered(s, p, i, now) then after == s
            else
              exists i: nat ::
                && i < |s.messages| && First(s, p, i, locked, now)
                && after == s.(messages := s.messages[i := s.messages[i].(status := Delivering, owner := Some(s.owners),
                                                                          leaseEnd := Some(now + p.ttl),
                                                                          attempts := s.messages[i].attempts + 1)],
                               owners := s.owners + 1)
  {
    OldestIsFirst(f.store, p, locked, now);
    ClaimEvent(p, f, locked, now);
    hide Next, Claimed, First, Offered;
    var i := Oldest(f.store, p, now, locked, |f.store.messages|);
    hide Oldest;
    if i.Some? {
      ClaimedIs(f.store, p, i.value, now);
      assert First(f.store, p, i.value, locked, now);
    }
  }

  lemma ClaimEvent(p: Policy, f: Fleet, locked: set<nat>, now: int)
    ensures var i := Oldest(f.store, p, now, locked, |f.store.messages|);
            Next(p, f, PublisherClaims(locked, now)).store
            == if i.None? then f.store else Claimed(f.store, p, i.value, now)
  {
    hide Oldest;
  }

  lemma ClaimedIs(s: Store, p: Policy, i: nat, now: int)
    requires i < |s.messages|
    ensures Claimed(s, p, i, now)
         == s.(messages := s.messages[i := s.messages[i].(status := Delivering, owner := Some(s.owners),
                                                          leaseEnd := Some(now + p.ttl),
                                                          attempts := s.messages[i].attempts + 1)],
               owners := s.owners + 1)
  {
  }

  /** A topic is a word of up to 128 small letters, digits, dots, underscores and dashes that begins with a letter or a
      digit; the keys are not empty and have up to 512 characters. */
  predicate WellFormed(e: Intent) {
    && 0 < |e.topic| <= 128 && e.topic[0] !in "._-"
    && (forall c :: c in e.topic ==> 'a' <= c <= 'z' || '0' <= c <= '9' || c in "._-")
    && 0 < |e.key| <= 512 && 0 < |e.dedup| <= 512
  }

  lemma WellFormedIsOk(e: Intent)
    ensures WellFormed(e) <==> IntentOk(e)
  {
    forall c: char ensures c in "._-" <==> c in {'.', '_', '-'} {
    }
    if IntentOk(e) {
      forall c | c in e.topic ensures 'a' <= c <= 'z' || '0' <= c <= '9' || c in "._-" {
        var i :| 0 <= i < |e.topic| && e.topic[i] == c;
      }
    }
    if WellFormed(e) {
      forall i | 0 <= i < |e.topic| ensures NameChar(e.topic[i]) || e.topic[i] in {'.', '_', '-'} {
        assert e.topic[i] in e.topic;
      }
    }
  }

  /** A new request is one more message, offered as soon as its schedule allows, if it is well-formed and no message has
      its key; a repeated one changes nothing, and neither does any other. */
  lemma EnqueuesExactly(p: Policy, f: Fleet, e: Intent, now: int)
    ensures var (s, after) := (f.store, Next(p, f, Enqueued(e, now)).store);
            if WellFormed(e) && forall i :: 0 <= i < |s.messages| ==> s.messages[i].dedup != e.dedup then
              var n := |s.messages|;
              && |after.messages| == n + 1 && after.messages[..n] == s.messages
              && (after.inbox, after.dead, after.executions) == (s.inbox, s.dead, s.executions)
              && var m := after.messages[n];
              && (m.topic, m.key, m.dedup, m.payload, m.notBefore) == (e.topic, e.key, e.dedup, e.payload, e.notBefore)
              && m.attempts == 0 && m.createdAt == now && m.owner.None?
              && (n !in s.dead ==>
                    forall later: int :: Offered(after, p, n, later) <==>
                      && (exists k :: 0 <= k < |p.topics| && p.topics[k].0 == e.topic)
                      && (e.notBefore.At? ==> e.notBefore.time <= later))
            else after == s
  {
    WellFormedIsOk(e);
    hide IntentOk, WellFormed;
    var prior := FindDedup(f.store.messages, e.dedup);
    if prior.Some? {
      assert f.store.messages[prior.value].dedup == e.dedup;
    }
  }

  /** A publication is recorded if and only if its publisher still holds the message and its lease has not run out. A
      failed one goes back with a delay, and under a dead letter once its attempts are used up. */
  lemma FinishesExactly(p: Policy, f: Fleet, i: nat, owner: nat, attempts: nat, failed: bool, now: int)
    ensures var (s, after) := (f.store, Next(p, f, PublisherFinishes(i, owner, attempts, failed, now)).store);
            if && i < |s.messages| && s.messages[i].owner == Some(owner) && s.messages[i].status == Delivering
               && s.messages[i].leaseEnd.Some? && now < s.messages[i].leaseEnd.value
            then
              && |after.messages| == |s.messages|
              && (forall j :: 0 <= j < |s.messages| && j != i ==> after.messages[j] == s.messages[j])
              && var (m, n) := (s.messages[i], after.messages[i]);
              && n == m.(status := n.status, publishedAt := n.publishedAt, owner := None, leaseEnd := None,
                         availableAt := At(now + Backoff(attempts)))
              && (n.status, n.publishedAt) == (if failed then (Pending, m.publishedAt) else (Published, Some(now)))
              && after.dead == (if failed && attempts >= p.maxAttempts then s.dead + {i} else s.dead)
              && (after.inbox, after.executions, after.owners) == (s.inbox, s.executions, s.owners)
            else after == s
  {
    hide Backoff;
  }

  /** A replay is of a message under a dead letter whose topic is handled here, and of no other. */
  lemma ReplaysExactly(p: Policy, f: Fleet, i: nat)
    ensures var (s, after) := (f.store, Next(p, f, Replays(i)).store);
            if && i < |s.messages| && i in s.dead
               && exists k :: 0 <= k < |p.topics| && p.topics[k].0 == s.messages[i].topic
            then
              && after.dead == s.dead - {i} && (after.inbox, after.executions) == (s.inbox, s.executions)
              && after.messages == s.messages[i := after.messages[i]]
              && (after.messages[i].topic, after.messages[i].key,
                  after.messages[i].payload, after.messages[i].notBefore)
                 == (s.messages[i].topic, s.messages[i].key, s.messages[i].payload, s.messages[i].notBefore)
              && after.messages[i].attempts == 0
              && forall now: int :: Offered(after, p, i, now) <==>
                   (s.messages[i].notBefore.At? ==> s.messages[i].notBefore.time <= now)
            else after == s
  {
  }

  // ---------- reconciliation ----------

  /** Attempted as often as it may be. */
  predicate UsedUp(m: Message, p: Policy) {
    m.attempts >= p.maxAttempts
  }

  /** Handled here, and waiting for a publisher or left behind by one. */
  predicate Stuck(s: Store, p: Policy, i: nat, v: View)
    requires i < |s.messages|
  {
    var m := s.messages[i];
    && i !in v.locked && (exists k :: 0 <= k < |p.topics| && p.topics[k].0 == m.topic)
    && (m.status == Pending || (m.status == Delivering && m.leaseEnd.Some? && m.leaseEnd.value <= v.now))
  }

  /** Published longer ago than a lease lasts, to a consumer that has neither acknowledged it nor is working on it. */
  predicate Unanswered(s: Store, p: Policy, i: nat, v: View)
    requires i < |s.messages|
  {
    var m := s.messages[i];
    var consumer := ConsumerOf(p.topics, m.topic);
    && i !in v.locked && m.status == Published && m.publishedAt.Some? && m.publishedAt.value < v.now - p.ttl
    && consumer.Some? && (consumer.value, i) !in s.inbox
    && forall r :: r in s.executions && s.executions[r].message == i ==>
                     s.executions[r].expires.MinusInfinity? || s.executions[r].expires.time <= v.now
  }

  /** A reconciliation buries a message if and only if it is not buried, its attempts are used up, and it is stuck or
      unanswered; it puts one back to the publisher, at once, if and only if it is unanswered, not buried, and has
      attempts left; it changes nothing else. */
  lemma ReconcilesExactly(p: Policy, f: Fleet, at: Views, i: nat)
    requires i < |f.store.messages|
    ensures var (s, after) := (f.store, Next(p, f, Reconciles(at)).store);
            var m := s.messages[i];
            var (stuck, unanswered) := (Stuck(s, p, i, at.bury), Unanswered(s, p, i, at.pass(m.topic)));
            && |after.messages| == |s.messages|
            && (i in after.dead <==> i in s.dead || (UsedUp(m, p) && (stuck || unanswered)))
            && after.messages[i] == (if unanswered && i !in s.dead && !UsedUp(m, p)
                                     then m.(status := Pending, availableAt := MinusInfinity) else m)
            && (after.inbox, after.executions, after.owners) == (s.inbox, s.executions, s.owners)
  {
  }
}
