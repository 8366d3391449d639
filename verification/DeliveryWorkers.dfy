/** One consumer among the others: what may happen to its run between two of its own transactions. */
module DeliveryWorkers {
  import opened Prelude
  import opened DeliverySpec
  import opened DeliveryRuns

  /** Not a step of worker `w`, but for its heartbeat, which renews the lease at any time. */
  predicate NotMine(e: Event, w: nat) {
    match e
    case Takes(v, _) => v != w
    case Commits(v, _, _) => v != w
    case Releases(v) => v != w
    case Crashes(v) => v != w
    case _ => true
  }

  predicate NoneMine(events: seq<Event>, w: nat) {
    forall k :: 0 <= k < |events| ==> NotMine(events[k], w)
  }

  /** The final effect under a lease. */
  function FinalOf(l: Lease): Effect {
    Effect(l.resource, l.message, l.owner, l.epoch, true)
  }

  /** What has been committed under a lease, in order. */
  function Under(log: seq<Effect>, l: Lease): seq<Effect> {
    if log == [] then []
    else
      var last := log[|log| - 1];
      Under(log[..|log| - 1], l) + if last == FinalOf(l).(final := last.final) then [last] else []
  }

  /** So many commits of the handler on its way, and the final one. */
  function Made(l: Lease, progress: nat, done: bool): seq<Effect> {
    seq(progress, k => FinalOf(l).(final := false)) + if done then [FinalOf(l)] else []
  }

  lemma UnderSnoc(log: seq<Effect>, e: Effect, l: Lease)
    ensures Under(log + [e], l) == Under(log, l) + if e == FinalOf(l).(final := e.final) then [e] else []
  {
    assert (log + [e])[..|log|] == log;
  }

  lemma MadeOneMore(log: seq<Effect>, l: Lease, progress: nat, final: bool)
    requires Under(log, l) == Made(l, progress, false)
    ensures Under(log + [FinalOf(l).(final := final)], l) == Made(l, if final then progress else progress + 1, final)
  {
    hide Under;
    UnderSnoc(log, FinalOf(l).(final := final), l);
    var way := seq(progress, k => FinalOf(l).(final := false));
    assert way + [] == way;
    if !final {
      assert seq(progress + 1, k => FinalOf(l).(final := false)) == way + [FinalOf(l).(final := false)];
    }
  }

  lemma NothingMade(l: Lease)
    ensures Made(l, 0, false) == []
  {
  }

  lemma {:induction false} NothingUnder(log: seq<Effect>, l: Lease)
    requires forall a :: 0 <= a < |log| ==> log[a].resource == l.resource ==> log[a].epoch < l.epoch
    ensures Under(log, l) == []
  {
    if log != [] {
      NothingUnder(log[..|log| - 1], l);
    }
  }

  /** Worker `w` is where it was, and what was committed stays. */
  ghost predicate Spared(f: Fleet, after: Fleet, w: nat) {
    && w < |f.workers| <= |after.workers| && after.workers[w] == f.workers[w]
    && |f.store.messages| <= |after.store.messages|
    && (forall i :: 0 <= i < |f.store.messages| ==> after.store.messages[i].topic == f.store.messages[i].topic)
    && f.store.inbox <= after.store.inbox
    && (Leased(f.workers[w]) ==>
          && (FinalOf(f.workers[w].lease) in after.log <==> FinalOf(f.workers[w].lease) in f.log)
          && Under(after.log, f.workers[w].lease) == Under(f.log, f.workers[w].lease))
  }

  lemma OthersSpare(p: Policy, f: Fleet, e: Event, w: nat)
    requires FleetInv(f) && w < |f.workers| && NotMine(e, w)
    ensures Spared(f, Next(p, f, e), w)
  {
    hide Oldest, Backoff, MayStart, Held, FleetInv;
    if e.Commits? && Next(p, f, e) != f {
      CommitIsAnothers(p, f, w, e);
    }
  }

  /** Two leases in hand have different owners, so the effect of one is never the effect of the other. */
  lemma CommitIsAnothers(p: Policy, f: Fleet, w: nat, e: Event)
    requires FleetInv(f) && w < |f.workers| && e.Commits? && e.worker != w && Next(p, f, e) != f
    ensures Leased(f.workers[w]) ==>
              && (FinalOf(f.workers[w].lease) in Next(p, f, e).log <==> FinalOf(f.workers[w].lease) in f.log)
              && Under(Next(p, f, e).log, f.workers[w].lease) == Under(f.log, f.workers[w].lease)
  {
    hide LogHolds, Fenced, Once, InboxIsEarned, Knows, Held;
    var l := f.workers[e.worker].lease;
    var effect := Effect(l.resource, l.message, l.owner, l.epoch, e.final);
    assert Next(p, f, e).log == f.log + [effect];
    if Leased(f.workers[w]) {
      UnderSnoc(f.log, effect, f.workers[w].lease);
    }
  }

  lemma {:induction false} RunSpares(p: Policy, f: Fleet, events: seq<Event>, w: nat)
    requires FleetInv(f) && w < |f.workers| && NoneMine(events, w)
    ensures Spared(f, Run(p, f, events), w) && FleetInv(Run(p, f, events))
    decreases |events|
  {
    hide FleetInv, Next, NotMine;
    if events != [] {
      OthersSpare(p, f, events[0], w);
      NextKeeps(p, f, events[0]);
      RunSpares(p, Next(p, f, events[0]), events[1..], w);
    }
  }

  /** A lease is taken at an epoch nobody has committed under. */
  lemma NothingUnderAFreshLease(p: Policy, f: Fleet, i: nat, now: int)
    requires FleetInv(f) && i < |f.store.messages| && Take(f.store, p, i, now).1.Some?
    ensures FinalOf(Take(f.store, p, i, now).1.value) !in f.log
    ensures Under(f.log, Take(f.store, p, i, now).1.value) == []
  {
    var l := Take(f.store, p, i, now).1.value;
    forall a | 0 <= a < |f.log| ensures f.log[a].resource == l.resource ==> f.log[a].epoch < l.epoch {
      assert Logged(f.store, f.log[a]);
    }
    NothingUnder(f.log, l);
  }

  lemma {:induction false} RunInTwo(p: Policy, f: Fleet, events: seq<Event>, more: seq<Event>)
    ensures Run(p, f, events + more) == Run(p, Run(p, f, events), more)
    decreases |events|
  {
    hide Next;
    if events == [] {
      assert events + more == more;
    } else {
      assert (events + more)[1..] == events[1..] + more;
      RunInTwo(p, Next(p, f, events[0]), events[1..], more);
    }
  }

  lemma NoEvents(p: Policy, f: Fleet)
    ensures Run(p, f, []) == f
  {
  }

  lemma OneEvent(p: Policy, f: Fleet, e: Event)
    ensures Run(p, f, [e]) == Next(p, f, e)
  {
    hide Next;
    assert [e][1..] == [];
  }

  lemma OneMoreEvent(p: Policy, f: Fleet, events: seq<Event>, e: Event)
    ensures Run(p, f, events + [e]) == Next(p, Run(p, f, events), e)
  {
    hide Next, Run;
    RunInTwo(p, f, events, [e]);
    OneEvent(p, Run(p, f, events), e);
  }

  // ---------- one consumer's own steps ----------

  lemma Arrival(p: Policy, f: Fleet, i: nat, now: int)
    requires FleetInv(f)
    ensures Run(p, f, [Arrives(i, now)])
         == if MayStart(f.store, p, i, now) then f.(workers := f.workers + [Arrived(i)]) else f
    ensures FleetInv(Run(p, f, [Arrives(i, now)]))
    ensures MayStart(f.store, p, i, now) ==> i < |f.store.messages|
  {
    OneEvent(p, f, Arrives(i, now));
    NextKeeps(p, f, Arrives(i, now));
  }

  lemma OwnStep(p: Policy, f: Fleet, e: Event, start: Fleet, events: seq<Event>)
    requires FleetInv(f) && f == Run(p, start, events)
    ensures Run(p, start, events + [e]) == Next(p, f, e) && FleetInv(Next(p, f, e))
  {
    hide FleetInv, Next, Run;
    OneMoreEvent(p, start, events, e);
    NextKeeps(p, f, e);
  }

  lemma Taking(p: Policy, f: Fleet, w: nat, i: nat, now: int, start: Fleet, events: seq<Event>)
    requires FleetInv(f) && f == Run(p, start, events)
    requires w < |f.workers| && f.workers[w] == Arrived(i) && i < |f.store.messages|
    ensures var (store, lease) := Take(f.store, p, i, now);
            var worker := if lease.Some? then Working(lease.value) else Gone;
            var after := f.(store := store, workers := f.workers[w := worker]);
            && Run(p, start, events + [Takes(w, now)]) == after && FleetInv(after)
            && store.messages == f.store.messages
            && (lease.Some? ==>
                  lease.value.message == i && FinalOf(lease.value) !in f.log && Under(f.log, lease.value) == [])
  {
    hide FleetInv, Run;
    OwnStep(p, f, Takes(w, now), start, events);
    if Take(f.store, p, i, now).1.Some? {
      NothingUnderAFreshLease(p, f, i, now);
    }
  }

  lemma Committing(p: Policy, f: Fleet, w: nat, l: Lease, final: bool, now: int, start: Fleet, events: seq<Event>)
    requires FleetInv(f) && f == Run(p, start, events)
    requires w < |f.workers| && f.workers[w] == Working(l) && l.message < |f.store.messages|
    ensures var after := Next(p, f, Commits(w, final, now));
            && Run(p, start, events + [Commits(w, final, now)]) == after && FleetInv(after)
            && |after.workers| == |f.workers| && after.store.messages == f.store.messages
            && (after.log == f.log ==> after.workers[w] == f.workers[w])
            && (after.log != f.log ==>
                  && after.log == f.log + [FinalOf(l).(final := final)]
                  && after.workers[w] == (if final then Finishing(l) else Working(l))
                  && (final ==> Acknowledged(after.store, l.message)))
  {
    hide FleetInv, Run, Held;
    OwnStep(p, f, Commits(w, final, now), start, events);
  }

  lemma Releasing(p: Policy, f: Fleet, w: nat, l: Lease, start: Fleet, events: seq<Event>)
    requires FleetInv(f) && f == Run(p, start, events)
    requires w < |f.workers| && Leased(f.workers[w]) && f.workers[w].lease == l
    ensures var after := f.(store := Release(f.store, l), workers := f.workers[w := Gone]);
            && Run(p, start, events + [Releases(w)]) == after && FleetInv(after)
            && after.store.messages == f.store.messages && after.store.inbox == f.store.inbox
            && (Current(after.store, l) ==> after.store.executions[l.resource].expires.MinusInfinity?)
  {
    hide FleetInv, Run;
    OwnStep(p, f, Releases(w), start, events);
  }
}
