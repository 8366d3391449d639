/** One run of the pump as a function from store to store, and what it leaves of every message. */
module DeliveryPump {
  import opened Prelude
  import opened DeliverySpec

  /** One turn: claim, publish, record the outcome. A lease that ran out meanwhile is nobody's error: the outcome is
      not recorded, and a later owner's stands. */
  function OneTurn(s: Store, p: Policy, look: int, end: int, breaks: bool): (Store, bool) {
    var (mid, i) := ClaimDelivery(s, p, look, {});
    if i.None? then (s, false)
    else
      var done := FinishDelivery(mid, p, i.value, s.owners, mid.messages[i.value].attempts, breaks, end);
      (if done.Some? then done.value else mid, true)
  }

  /** When the pump looks for the `k`th time, when that publication ends, and whether it fails. */
  datatype Course = Course(looks: nat -> int, ends: nat -> int, breaks: nat -> bool)

  /** At most `limit` turns from the `k`th on; the number says how many were taken. */
  function Pumped(s: Store, p: Policy, c: Course, k: nat, limit: nat): (Store, nat)
    decreases limit
  {
    if limit == 0 then (s, 0)
    else
      var (after, sent) := OneTurn(s, p, c.looks(k), c.ends(k), c.breaks(k));
      if !sent then (s, 0)
      else
        var (last, count) := Pumped(after, p, c, k + 1, limit - 1);
        (last, count + 1)
  }

  ghost predicate NothingToClaim(s: Store, p: Policy, now: int) {
    forall i: nat :: !Claimable(s, p, i, now)
  }

  lemma NotBeyond(s: Store, p: Policy, i: nat, now: int)
    ensures Claimable(s, p, i, now) ==> i < |s.messages|
  {
  }

  lemma NothingClaimed(s: Store, p: Policy, now: int)
    ensures ClaimDelivery(s, p, now, {}).1.None? <==> NothingToClaim(s, p, now)
  {
    hide Claimable;
    forall i: nat ensures Claimable(s, p, i, now) ==> i < |s.messages| {
      NotBeyond(s, p, i, now);
    }
  }

  // ---------- one turn ----------

  /** What a publication makes of its message: recorded as published, or back with a delay and under a dead letter
      once its attempts are used up, or, its lease having run out before the end, not recorded. */
  predicate TurnedInto(m: Message, n: Message, p: Policy, dead: bool, look: int, end: int, breaks: bool) {
    && n.attempts == m.attempts + 1
    && (if end >= look + p.ttl then n.status.Delivering? && n.leaseEnd == Some(look + p.ttl) && !dead
        else if breaks then
          && n.status.Pending? && n.owner.None? && n.availableAt == At(end + Backoff(n.attempts))
          && n.publishedAt == m.publishedAt && (dead <==> n.attempts >= p.maxAttempts)
        else n.status.Published? && n.owner.None? && n.publishedAt == Some(end) && !dead)
  }

  /** A turn is one publication of the oldest message that may be claimed, and touches no other. */
  lemma TurnIsOnePublication(s: Store, p: Policy, look: int, end: int, breaks: bool)
    ensures var (after, sent) := OneTurn(s, p, look, end, breaks);
            && |after.messages| == |s.messages| && after.inbox == s.inbox && after.executions == s.executions
            && (sent <==> !NothingToClaim(s, p, look))
            && (!sent ==> after == s)
    ensures var (after, sent) := OneTurn(s, p, look, end, breaks);
            sent ==>
              exists i: nat ::
                && i < |s.messages| && Claimable(s, p, i, look)
                && (forall j: nat :: j < |s.messages| && Claimable(s, p, j, look) ==>
                                       s.messages[i].createdAt <= s.messages[j].createdAt)
                && TurnedInto(s.messages[i], after.messages[i], p, Dead(after, i), look, end, breaks)
                && (forall j: nat :: j < |s.messages| && j != i ==>
                                       after.messages[j] == s.messages[j] && (Dead(after, j) <==> Dead(s, j)))
  {
    NothingClaimed(s, p, look);
    var (after, sent) := OneTurn(s, p, look, end, breaks);
    if sent {
      var i := ClaimDelivery(s, p, look, {}).1.value;
      hide Backoff, Oldest;
      assert TurnedInto(s.messages[i], after.messages[i], p, Dead(after, i), look, end, breaks);
    }
  }

  // ---------- the whole run ----------

  /** What the pump may leave of a message: as it was, or published, delayed, buried or still held, after as many more
      attempts as it was published. What was published before is not touched. */
  predicate LeftAs(m: Message, n: Message, p: Policy, was: bool, dead: bool) {
    && n.attempts >= m.attempts
    && (n.attempts == m.attempts ==> n == m && (dead <==> was))
    && (m.status.Published? || was ==> n == m)
    && (n.attempts > m.attempts ==>
          || (n.status.Published? && n.publishedAt.Some? && n.owner.None? && !dead)
          || (n.status.Pending? && n.owner.None? && (dead <==> n.attempts >= p.maxAttempts))
          || (n.status.Delivering? && n.leaseEnd.Some? && !dead))
  }

  lemma TurnLeaves(s: Store, p: Policy, look: int, end: int, breaks: bool, i: nat)
    requires i < |s.messages|
    ensures var after := OneTurn(s, p, look, end, breaks).0;
            i < |after.messages| && LeftAs(s.messages[i], after.messages[i], p, Dead(s, i), Dead(after, i))
  {
    TurnIsOnePublication(s, p, look, end, breaks);
    hide Backoff, Oldest, OneTurn;
  }

  lemma LeftAndLeft(a: Message, b: Message, c: Message, p: Policy, da: bool, db: bool, dc: bool)
    requires LeftAs(a, b, p, da, db) && LeftAs(b, c, p, db, dc)
    ensures LeftAs(a, c, p, da, dc)
  {
  }

  /** However the publications of one pump go: every message is as it was, or has been published, or waits out its
      delay, or is under a dead letter exactly when its failed attempts are used up, or is still held by a
      publication whose lease ran out. A message that is published is published once. */
  lemma {:induction false} PumpLeaves(s: Store, p: Policy, c: Course, k: nat, limit: nat, i: nat)
    requires i < |s.messages|
    ensures var after := Pumped(s, p, c, k, limit).0;
            && |after.messages| == |s.messages|
            && LeftAs(s.messages[i], after.messages[i], p, Dead(s, i), Dead(after, i))
            && after.inbox == s.inbox && after.executions == s.executions
    decreases limit
  {
    hide OneTurn, LeftAs;
    if limit == 0 {
      Untouched(s.messages[i], p, Dead(s, i));
    } else {
      var (after, sent) := OneTurn(s, p, c.looks(k), c.ends(k), c.breaks(k));
      TurnIsOnePublication(s, p, c.looks(k), c.ends(k), c.breaks(k));
      TurnLeaves(s, p, c.looks(k), c.ends(k), c.breaks(k), i);
      if sent {
        PumpLeaves(after, p, c, k + 1, limit - 1, i);
        var last := Pumped(after, p, c, k + 1, limit - 1).0;
        LeftAndLeft(s.messages[i], after.messages[i], last.messages[i], p, Dead(s, i), Dead(after, i), Dead(last, i));
      } else {
        Untouched(s.messages[i], p, Dead(s, i));
      }
    }
  }

  /** The pump from its very start, the reconciliation included: a message that was not under a dead letter comes under
      one only with its attempts used up, and one that was published before is touched only if it is put back first. */
  lemma WholePumpLeaves(s: Store, p: Policy, at: Views, c: Course, limit: nat, i: nat)
    requires i < |s.messages|
    ensures var (start, after) := (Reconciled(s, p, at), Pumped(Reconciled(s, p, at), p, c, 0, limit).0);
            && |after.messages| == |s.messages| && after.messages[i].attempts >= s.messages[i].attempts
            && (Dead(after, i) && !Dead(s, i) ==> after.messages[i].attempts >= p.maxAttempts)
            && (Dead(s, i) ==> Dead(after, i) && after.messages[i] == s.messages[i])
            && (s.messages[i].status.Published? && start.messages[i] == s.messages[i] ==>
                  after.messages[i] == s.messages[i])
  {
    PumpLeaves(Reconciled(s, p, at), p, c, 0, limit, i);
    hide Pumped;
  }

  lemma Untouched(m: Message, p: Policy, dead: bool)
    ensures LeftAs(m, m, p, dead, dead)
  {
  }

  // ---------- how many publications ----------

  /** How many publications have been attempted. */
  function Attempts(messages: seq<Message>): nat {
    if messages == [] then 0 else Attempts(messages[..|messages| - 1]) + messages[|messages| - 1].attempts
  }

  lemma {:induction false} OneAttempt(was: seq<Message>, now: seq<Message>, i: nat)
    requires |was| == |now| && i < |was| && now[i].attempts == was[i].attempts + 1
    requires forall j: nat :: j < |was| && j != i ==> now[j].attempts == was[j].attempts
    ensures Attempts(now) == Attempts(was) + 1
  {
    if i == |was| - 1 {
      SameAttempts(was[..i], now[..i]);
    } else {
      OneAttempt(was[..|was| - 1], now[..|was| - 1], i);
    }
  }

  lemma {:induction false} SameAttempts(was: seq<Message>, now: seq<Message>)
    requires |was| == |now| && forall i :: 0 <= i < |was| ==> was[i].attempts == now[i].attempts
    ensures Attempts(was) == Attempts(now)
  {
    if was != [] {
      SameAttempts(was[..|was| - 1], now[..|now| - 1]);
    }
  }

  /** The pump stops early only when nothing may be claimed, and counts exactly the attempts it adds. */
  lemma {:induction false} PumpCounts(s: Store, p: Policy, c: Course, k: nat, limit: nat)
    ensures var (after, count) := Pumped(s, p, c, k, limit);
            && count <= limit && Attempts(after.messages) == Attempts(s.messages) + count
            && (count < limit ==> NothingToClaim(after, p, c.looks(k + count)))
    decreases limit
  {
    hide OneTurn, NothingToClaim, Attempts;
    if limit > 0 {
      var (after, sent) := OneTurn(s, p, c.looks(k), c.ends(k), c.breaks(k));
      TurnIsOnePublication(s, p, c.looks(k), c.ends(k), c.breaks(k));
      if sent {
        TurnCounts(s, p, c.looks(k), c.ends(k), c.breaks(k));
        PumpCounts(after, p, c, k + 1, limit - 1);
      }
    }
  }

  lemma TurnCounts(s: Store, p: Policy, look: int, end: int, breaks: bool)
    requires OneTurn(s, p, look, end, breaks).1
    ensures Attempts(OneTurn(s, p, look, end, breaks).0.messages) == Attempts(s.messages) + 1
  {
    hide OneTurn, Attempts, Backoff, Claimable;
    TurnIsOnePublication(s, p, look, end, breaks);
    var after := OneTurn(s, p, look, end, breaks).0;
    var i: nat :| i < |s.messages| && TurnedInto(s.messages[i], after.messages[i], p, Dead(after, i), look, end, breaks)
                  && forall j: nat :: j < |s.messages| && j != i ==> after.messages[j] == s.messages[j];
    OneAttempt(s.messages, after.messages, i);
  }
}
