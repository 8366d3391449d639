/** Publishers, consumers, reconcilers and crashes interleaved in any order, each with its own clock: a
    message takes effect once, and effects on one aggregate keep the order of their fences. */
module DeliveryRuns {
  import opened Prelude
  import opened DeliverySpec

  /** One run of a consumer. */
  datatype Worker =
    | Arrived(message: nat)        // passed the first look
    | Working(lease: Lease)
    | Finishing(lease: Lease)      // its final commit went through
    | Gone

  /** A commit of a handler's session. */
  datatype Effect = Effect(resource: string, message: nat, owner: nat, epoch: nat, final: bool)

  datatype Fleet = Fleet(store: Store, workers: seq<Worker>, log: seq<Effect>)

  datatype Event =
    | Enqueued(intent: Intent, now: int)
    | PublisherClaims(locked: set<nat>, now: int)
    | PublisherFinishes(message: nat, owner: nat, attempts: nat, failed: bool, now: int)
    | Reconciles(at: Views)
    | Replays(message: nat)
    | Arrives(message: nat, now: int)            // the broker hands a message over, once or many times
    | Takes(worker: nat, now: int)
    | Renews(worker: nat, now: int)
    | Commits(worker: nat, final: bool, now: int)
    | Releases(worker: nat)
    | Crashes(worker: nat)

  function Or<T>(was: T, now: Option<T>): T {
    if now.Some? then now.value else was
  }

  predicate Leased(x: Worker) {
    x.Working? || x.Finishing?
  }

  function Next(p: Policy, f: Fleet, e: Event): Fleet {
    var s := f.store;
    match e
    case Enqueued(intent, now) => f.(store := Enqueue(s, intent, now).0)
    case PublisherClaims(locked, now) => f.(store := ClaimDelivery(s, p, now, locked).0)
    case PublisherFinishes(i, owner, attempts, failed, now) =>
      f.(store := Or(s, FinishDelivery(s, p, i, owner, attempts, failed, now)))
    case Reconciles(at) => f.(store := Reconciled(s, p, at))
    case Replays(i) => f.(store := Or(s, Replay(s, p, i)))
    case Arrives(i, now) => if MayStart(s, p, i, now) then f.(workers := f.workers + [Arrived(i)]) else f
    case Takes(w, now) =>
      if w >= |f.workers| || !f.workers[w].Arrived? || f.workers[w].message >= |s.messages| then f
      else
        var (after, lease) := Take(s, p, f.workers[w].message, now);
        f.(store := after, workers := f.workers[w := if lease.Some? then Working(lease.value) else Gone])
    case Renews(w, now) =>
      if w < |f.workers| && Leased(f.workers[w]) then f.(store := Or(s, Renew(s, p, f.workers[w].lease, now))) else f
    case Commits(w, final, now) =>
      if w >= |f.workers| || !f.workers[w].Working? then f
      else
        var l := f.workers[w].lease;
        var after := Commit(s, l, final, now);
        if after.None? then f
        else
          f.(store := after.value,
             workers := if final then f.workers[w := Finishing(l)] else f.workers,
             log := f.log + [Effect(l.resource, l.message, l.owner, l.epoch, final)])
    case Releases(w) =>
      if w < |f.workers| && Leased(f.workers[w]) then
        f.(store := Release(s, f.workers[w].lease), workers := f.workers[w := Gone])
      else f
    case Crashes(w) => if w < |f.workers| then f.(workers := f.workers[w := Gone]) else f
  }

  function Run(p: Policy, f: Fleet, events: seq<Event>): Fleet
    decreases |events|
  {
    if events == [] then f else Run(p, Next(p, f, events[0]), events[1..])
  }

  const EMPTY := Fleet(Store([], {}, {}, map[], 0), [], [])

  // ---------- the invariant ----------

  /** A lease was given out on its message's resource, and the row has moved on from it or still is it. */
  ghost predicate Sound(s: Store, l: Lease) {
    && l.message < |s.messages| && l.resource == ResourceOf(s.messages[l.message]) && l.owner < s.owners
    && l.resource in s.executions
    && l.epoch <= s.executions[l.resource].epoch
    && (l.epoch == s.executions[l.resource].epoch ==> Current(s, l))
  }

  predicate Acknowledged(s: Store, i: nat)
    requires i < |s.messages|
  {
    (s.messages[i].topic, i) in s.inbox
  }

  /** What a consumer knows. Whoever still holds its lease works on a message nobody has acknowledged. */
  ghost predicate Knows(s: Store, x: Worker) {
    match x
    case Arrived(i) => i < |s.messages|
    case Working(l) => Sound(s, l) && (Current(s, l) ==> !Acknowledged(s, l.message))
    case Finishing(l) => Sound(s, l)
    case Gone => true
  }

  ghost predicate Workers(f: Fleet) {
    && (forall w :: 0 <= w < |f.workers| ==> Knows(f.store, f.workers[w]))
    && (forall w, v | 0 <= w < |f.workers| && 0 <= v < |f.workers| && Leased(f.workers[w]) && Leased(f.workers[v]) ::
          f.workers[w].lease.owner == f.workers[v].lease.owner ==> w == v)
    && (forall r :: r in f.store.executions ==> f.store.executions[r].owner < f.store.owners)
  }

  /** What an effect in the log says about the present. */
  ghost predicate Logged(s: Store, e: Effect) {
    && e.message < |s.messages| && e.resource == ResourceOf(s.messages[e.message])
    && e.resource in s.executions
    && e.epoch <= s.executions[e.resource].epoch
    && (e.epoch == s.executions[e.resource].epoch ==>
          e.owner == s.executions[e.resource].owner && e.message == s.executions[e.resource].message)
    && (e.final ==> Acknowledged(s, e.message))
  }

  ghost predicate LogHolds(f: Fleet) {
    forall a :: 0 <= a < |f.log| ==> Logged(f.store, f.log[a])
  }

  /** Two effects on one resource come in the order of their epochs; one epoch belongs to one run of one
      message; and nothing follows a final effect under its own epoch. */
  predicate Ordered(first: Effect, second: Effect) {
    first.resource == second.resource ==>
      && first.epoch <= second.epoch
      && (first.epoch == second.epoch ==> first.owner == second.owner && first.message == second.message)
      && (first.final ==> first.epoch < second.epoch)
  }

  ghost predicate Fenced(log: seq<Effect>) {
    forall a, b | 0 <= a < b < |log| :: Ordered(log[a], log[b])
  }

  ghost predicate Once(log: seq<Effect>) {
    forall a, b | 0 <= a < |log| && 0 <= b < |log| && log[a].final && log[b].final ::
      log[a].message == log[b].message ==> a == b
  }

  /** Every acknowledgement is of a message that is there, and came with a final effect. */
  ghost predicate InboxIsEarned(f: Fleet) {
    forall k :: k in f.store.inbox ==>
                  k.1 < |f.store.messages| && k.0 == f.store.messages[k.1].topic
                  && exists a :: 0 <= a < |f.log| && f.log[a].final && f.log[a].message == k.1
  }

  ghost predicate FleetInv(f: Fleet) {
    Workers(f) && LogHolds(f) && Fenced(f.log) && Once(f.log) && InboxIsEarned(f)
  }

  // ---------- events that leave the consumers alone ----------

  /** Messages keep their topic and key, and nothing of the consumers' side changes but the times of leases. */
  ghost predicate SameConsumers(s: Store, after: Store) {
    && |s.messages| <= |after.messages|
    && (forall i :: 0 <= i < |s.messages| ==>
                      after.messages[i].topic == s.messages[i].topic && after.messages[i].key == s.messages[i].key)
    && after.inbox == s.inbox && s.owners <= after.owners
    && after.executions.Keys == s.executions.Keys
    && forall r :: r in s.executions ==> after.executions[r] == s.executions[r].(expires := after.executions[r].expires)
  }

  lemma PublisherSide(p: Policy, f: Fleet, e: Event)
    requires e.Enqueued? || e.PublisherClaims? || e.PublisherFinishes? || e.Reconciles? || e.Replays?
    ensures Next(p, f, e) == f.(store := Next(p, f, e).store)
    ensures SameConsumers(f.store, Next(p, f, e).store)
  {
  }

  lemma KnowsStill(s: Store, after: Store, x: Worker)
    requires SameConsumers(s, after) && Knows(s, x)
    ensures Knows(after, x)
  {
  }

  lemma LoggedStill(s: Store, after: Store, e: Effect)
    requires SameConsumers(s, after) && Logged(s, e)
    ensures Logged(after, e)
  {
  }

  /** Consumers may come and go, and times change: nothing of the invariant is lost. */
  lemma ConsumersFrame(f: Fleet, after: Fleet)
    requires FleetInv(f) && SameConsumers(f.store, after.store) && after.log == f.log
    requires |f.workers| <= |after.workers|
    requires forall w :: 0 <= w < |after.workers| ==>
               || (w < |f.workers| && after.workers[w] == f.workers[w])
               || after.workers[w].Gone?
               || (after.workers[w].Arrived? && after.workers[w].message < |after.store.messages|)
    ensures FleetInv(after)
  {
    hide Sound, Current;
    forall w | 0 <= w < |after.workers| ensures Knows(after.store, after.workers[w]) {
      if w < |f.workers| && after.workers[w] == f.workers[w] {
        KnowsStill(f.store, after.store, f.workers[w]);
      }
    }
    forall a | 0 <= a < |after.log| ensures Logged(after.store, after.log[a]) {
      LoggedStill(f.store, after.store, f.log[a]);
    }
  }

  // ---------- taking a resource ----------

  lemma TakeMovesOn(s: Store, p: Policy, i: nat, now: int, x: Worker)
    requires i < |s.messages| && Knows(s, x)
    requires Take(s, p, i, now).0 != s
    ensures Knows(Take(s, p, i, now).0, x)
  {
  }

  lemma TakeKeeps(p: Policy, f: Fleet, w: nat, now: int)
    requires FleetInv(f)
    ensures FleetInv(Next(p, f, Takes(w, now)))
  {
    var after := Next(p, f, Takes(w, now));
    if after.store == f.store {
      ConsumersFrame(f, after);
    } else {
      var i := f.workers[w].message;
      forall v | 0 <= v < |after.workers| ensures Knows(after.store, after.workers[v]) {
        if v != w {
          TakeMovesOn(f.store, p, i, now, f.workers[v]);
        }
      }
      forall v, u | 0 <= v < |after.workers| && 0 <= u < |after.workers|
                    && Leased(after.workers[v]) && Leased(after.workers[u])
        ensures after.workers[v].lease.owner == after.workers[u].lease.owner ==> v == u
      {
        assert v != w ==> Knows(f.store, f.workers[v]);
        assert u != w ==> Knows(f.store, f.workers[u]);
      }
      forall a | 0 <= a < |after.log| ensures Logged(after.store, after.log[a]) {
        assert Logged(f.store, f.log[a]);
      }
    }
  }

  // ---------- committing ----------

  /** The commit of one holder takes nothing from another: two holders hold different messages. */
  lemma CommitSparesOthers(p: Policy, f: Fleet, w: nat, v: nat, final: bool, now: int)
    requires FleetInv(f) && w < |f.workers| && v < |f.workers| && v != w && f.workers[w].Working?
    requires Commit(f.store, f.workers[w].lease, final, now).Some?
    ensures Knows(Commit(f.store, f.workers[w].lease, final, now).value, f.workers[v])
  {
    assert Knows(f.store, f.workers[w]) && Knows(f.store, f.workers[v]);
  }

  lemma CommitKeeps(p: Policy, f: Fleet, w: nat, final: bool, now: int)
    requires FleetInv(f)
    ensures FleetInv(Next(p, f, Commits(w, final, now)))
  {
    var after := Next(p, f, Commits(w, final, now));
    if after != f {
      var l := f.workers[w].lease;
      var e := Effect(l.resource, l.message, l.owner, l.epoch, final);
      assert Knows(f.store, f.workers[w]) && Current(f.store, l) && !Acknowledged(f.store, l.message);
      forall v | 0 <= v < |after.workers| ensures Knows(after.store, after.workers[v]) {
        if v != w {
          CommitSparesOthers(p, f, w, v, final, now);
        }
      }
      assert Workers(after);
      CommitKeepsLog(p, f, w, final, now, e);
    }
  }

  lemma CommitKeepsLog(p: Policy, f: Fleet, w: nat, final: bool, now: int, e: Effect)
    requires FleetInv(f) && w < |f.workers| && f.workers[w].Working?
    requires Commit(f.store, f.workers[w].lease, final, now).Some?
    requires var l := f.workers[w].lease; e == Effect(l.resource, l.message, l.owner, l.epoch, final)
    ensures var after := f.(store := Commit(f.store, f.workers[w].lease, final, now).value, log := f.log + [e]);
            LogHolds(after) && Fenced(after.log) && Once(after.log) && InboxIsEarned(after)
  {
    var l := f.workers[w].lease;
    var after := f.(store := Commit(f.store, l, final, now).value, log := f.log + [e]);
    assert Knows(f.store, f.workers[w]) && Current(f.store, l) && !Acknowledged(f.store, l.message);
    forall a | 0 <= a < |f.log|
      ensures Logged(after.store, f.log[a]) && Ordered(f.log[a], e)
              && !(f.log[a].final && f.log[a].message == l.message)
    {
      assert Logged(f.store, f.log[a]);
    }
    hide Ordered, Sound;
    InboxStaysEarned(f, after, l.message, e);
  }

  lemma InboxStaysEarned(f: Fleet, after: Fleet, i: nat, e: Effect)
    requires InboxIsEarned(f) && after.log == f.log + [e] && after.store.messages == f.store.messages
    requires i < |f.store.messages| && e.message == i
    requires after.store.inbox == if e.final then f.store.inbox + {(f.store.messages[i].topic, i)} else f.store.inbox
    ensures InboxIsEarned(after)
  {
    forall k | k in after.store.inbox
      ensures k.1 < |after.store.messages| && k.0 == after.store.messages[k.1].topic
              && exists a :: 0 <= a < |after.log| && after.log[a].final && after.log[a].message == k.1
    {
      if k in f.store.inbox {
        var a :| 0 <= a < |f.log| && f.log[a].final && f.log[a].message == k.1;
        assert after.log[a] == f.log[a];
      } else {
        assert after.log[|f.log|] == e;
      }
    }
  }

  // ---------- every event ----------

  lemma LeavingKeeps(p: Policy, f: Fleet, e: Event)
    requires FleetInv(f) && (e.Arrives? || e.Renews? || e.Releases? || e.Crashes?)
    ensures FleetInv(Next(p, f, e))
  {
    hide FleetInv;
    ConsumersFrame(f, Next(p, f, e));
  }

  lemma NextKeeps(p: Policy, f: Fleet, e: Event)
    requires FleetInv(f)
    ensures FleetInv(Next(p, f, e))
  {
    hide FleetInv, SameConsumers, Next;
    match e {
      case Takes(w, now) => TakeKeeps(p, f, w, now);
      case Commits(w, final, now) => CommitKeeps(p, f, w, final, now);
      case Arrives(_, _) => LeavingKeeps(p, f, e);
      case Renews(_, _) => LeavingKeeps(p, f, e);
      case Releases(_) => LeavingKeeps(p, f, e);
      case Crashes(_) => LeavingKeeps(p, f, e);
      case _ =>
        PublisherSide(p, f, e);
        ConsumersFrame(f, Next(p, f, e));
    }
  }

  lemma {:induction false} EveryRunKeeps(p: Policy, f: Fleet, events: seq<Event>)
    requires FleetInv(f)
    ensures FleetInv(Run(p, f, events))
    decreases |events|
  {
    hide FleetInv, Next;
    if events != [] {
      NextKeeps(p, f, events[0]);
      EveryRunKeeps(p, Next(p, f, events[0]), events[1..]);
    }
  }

  // ---------- what it comes to ----------

  /** How many final effects of a message the log has. */
  function Finals(log: seq<Effect>, i: nat): nat {
    if log == [] then 0
    else Finals(log[..|log| - 1], i) + if log[|log| - 1].final && log[|log| - 1].message == i then 1 else 0
  }

  lemma {:induction false} FinalsAreFew(log: seq<Effect>, i: nat)
    requires Once(log)
    ensures Finals(log, i) <= 1
    ensures Finals(log, i) == 1 <==> exists a :: 0 <= a < |log| && log[a].final && log[a].message == i
  {
    if log != [] {
      var before := log[..|log| - 1];
      FinalsAreFew(before, i);
      assert forall a :: 0 <= a < |before| ==> before[a] == log[a];
      var last := log[|log| - 1];
      assert (exists a :: 0 <= a < |log| && log[a].final && log[a].message == i)
        <==> (last.final && last.message == i)
             || exists a :: 0 <= a < |before| && before[a].final && before[a].message == i;
    }
  }

  /** Whatever is interleaved with what, however often a message is delivered, and wherever the clocks jump:
      its final effect is committed at most once, and has been exactly when its inbox row is there. */
  lemma ExactlyOnce(p: Policy, events: seq<Event>, i: nat)
    requires i < |Run(p, EMPTY, events).store.messages|
    ensures var f := Run(p, EMPTY, events);
            Finals(f.log, i) == if Acknowledged(f.store, i) then 1 else 0
  {
    var f := Run(p, EMPTY, events);
    assert FleetInv(EMPTY);
    EveryRunKeeps(p, EMPTY, events);
    FinalsAreFew(f.log, i);
    if Finals(f.log, i) == 1 {
      var a :| 0 <= a < |f.log| && f.log[a].final && f.log[a].message == i;
      assert Logged(f.store, f.log[a]);
    }
  }

  /** A topic has no colon, so a resource names one topic and one key. */
  lemma ResourceIsOne(topic: string, key: string, topic': string, key': string)
    requires TopicOk(topic) && TopicOk(topic') && topic + ":" + key == topic' + ":" + key'
    ensures topic == topic' && key == key'
  {
    var whole, whole' := topic + ":" + key, topic' + ":" + key';
    assert whole[|topic|] == ':' && whole'[|topic'|] == ':';
    assert whole[..|topic|] == topic && whole'[..|topic'|] == topic';
    assert whole[|topic| + 1..] == key && whole'[|topic'| + 1..] == key';
  }

  ghost predicate TopicsOk(s: Store) {
    forall i :: 0 <= i < |s.messages| ==> TopicOk(s.messages[i].topic)
  }

  lemma {:induction false} TopicsStayOk(p: Policy, f: Fleet, events: seq<Event>)
    requires TopicsOk(f.store)
    ensures TopicsOk(Run(p, f, events).store)
    decreases |events|
  {
    if events != [] {
      var mid := Next(p, f, events[0]).store;
      assert TopicsOk(mid) by {
        hide TopicOk;
        TopicsStep(p, f, events[0]);
      }
      TopicsStayOk(p, Next(p, f, events[0]), events[1..]);
    }
  }

  lemma TopicsStep(p: Policy, f: Fleet, e: Event)
    requires TopicsOk(f.store)
    ensures TopicsOk(Next(p, f, e).store)
  {
    hide TopicOk, Oldest, Backoff;
  }

  /** Final effects on one topic and key are committed under strictly increasing epochs, in the order of the
      log; a run that lost its lease never commits after the run that took over. */
  lemma AggregatesAreFenced(p: Policy, events: seq<Event>, a: nat, b: nat)
    requires var log := Run(p, EMPTY, events).log; a < b < |log|
    ensures var f := Run(p, EMPTY, events);
            && f.log[a].message < |f.store.messages| && f.log[b].message < |f.store.messages|
            && var (first, second) := (f.store.messages[f.log[a].message], f.store.messages[f.log[b].message]);
            && (f.log[a].resource == f.log[b].resource <==> first.topic == second.topic && first.key == second.key)
            && ((first.topic, first.key) == (second.topic, second.key) ==>
                  && f.log[a].epoch <= f.log[b].epoch
                  && (f.log[a].final ==> f.log[a].epoch < f.log[b].epoch)
                  && (f.log[a].epoch == f.log[b].epoch ==> f.log[a].owner == f.log[b].owner))
  {
    var f := Run(p, EMPTY, events);
    assert FleetInv(EMPTY);
    EveryRunKeeps(p, EMPTY, events);
    TopicsStayOk(p, EMPTY, events);
    assert Logged(f.store, f.log[a]) && Logged(f.store, f.log[b]) && Ordered(f.log[a], f.log[b]);
    var first, second := f.store.messages[f.log[a].message], f.store.messages[f.log[b].message];
    if f.log[a].resource == f.log[b].resource {
      ResourceIsOne(first.topic, first.key, second.topic, second.key);
    }
  }
}
