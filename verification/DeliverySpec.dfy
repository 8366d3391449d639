/** The transactional outbox as functions from one committed state to the next. Every transaction reads its
    own clock: nothing relates the `now` of one to the `now` of another, so clocks may jump either way.
    The position of a message is its id. */
module DeliverySpec {
  import opened Prelude

  /** A point in time, or earlier than all of them. */
  datatype Instant = MinusInfinity | At(time: int)

  predicate Due(x: Instant, now: int) {
    x.MinusInfinity? || x.time <= now
  }

  datatype Status = Pending | Delivering | Published

  datatype Message = Message(
    topic: string,
    key: string,
    dedup: string,
    payload: string,       // with the transport headers
    notBefore: Instant,
    createdAt: int,
    availableAt: Instant,
    status: Status,
    owner: Option<nat>,
    leaseEnd: Option<int>,
    attempts: nat,
    publishedAt: Option<int>)

  /** Who is working on a resource; the row stays when the work is over, and keeps its epoch. */
  datatype Execution = Execution(message: nat, owner: nat, epoch: nat, expires: Instant)

  datatype Store = Store(
    messages: seq<Message>,
    inbox: set<(string, nat)>,              // (consumer, message)
    dead: set<nat>,                         // messages under a dead letter nobody has replayed
    executions: map<string, Execution>,     // by resource
    owners: nat)                            // owners handed out so far; each is fresh

  /** Topics in their order, each with the consumer that must acknowledge it, if any. */
  datatype Policy = Policy(topics: seq<(string, Option<string>)>, ttl: int, maxAttempts: nat)

  predicate PolicyOk(p: Policy) {
    && 1 <= p.ttl <= 3600 && 1 <= p.maxAttempts <= 100
    && (forall i, j | 0 <= i < |p.topics| && 0 <= j < |p.topics| :: p.topics[i].0 == p.topics[j].0 ==> i == j)
  }

  predicate Registered(p: Policy, topic: string) {
    exists i :: 0 <= i < |p.topics| && p.topics[i].0 == topic
  }

  function ConsumerOf(topics: seq<(string, Option<string>)>, topic: string): (r: Option<string>)
    ensures r.Some? ==> (topic, r) in topics
  {
    if topics == [] then None
    else if topics[|topics| - 1].0 == topic then topics[|topics| - 1].1
    else ConsumerOf(topics[..|topics| - 1], topic)
  }

  // ---------- enqueue ----------

  datatype Intent = Intent(topic: string, key: string, dedup: string, payload: string, notBefore: Instant)

  predicate NameChar(c: char) {
    'a' <= c <= 'z' || '0' <= c <= '9'
  }

  predicate TopicOk(topic: string) {
    && 1 <= |topic| <= 128 && NameChar(topic[0])
    && forall i :: 1 <= i < |topic| ==> NameChar(topic[i]) || topic[i] in {'.', '_', '-'}
  }

  predicate IntentOk(e: Intent) {
    TopicOk(e.topic) && 1 <= |e.key| <= 512 && 1 <= |e.dedup| <= 512
  }

  predicate SameIntent(m: Message, e: Intent) {
    m.topic == e.topic && m.key == e.key && m.payload == e.payload && m.notBefore == e.notBefore
  }

  function FindDedup(messages: seq<Message>, dedup: string): (r: Option<nat>)
    ensures r.Some? ==> r.value < |messages| && messages[r.value].dedup == dedup
    ensures r.None? ==> forall i :: 0 <= i < |messages| ==> messages[i].dedup != dedup
  {
    if messages == [] then None
    else if messages[|messages| - 1].dedup == dedup then Some(|messages| - 1)
    else FindDedup(messages[..|messages| - 1], dedup)
  }

  /** The id of the one message this intent stands for; None when it is refused. */
  function Enqueue(s: Store, e: Intent, now: int): (Store, Option<nat>) {
    if !IntentOk(e) then (s, None)
    else
      var prior := FindDedup(s.messages, e.dedup);
      if prior.Some? then (s, if SameIntent(s.messages[prior.value], e) then prior else None)
      else
        (s.(messages := s.messages + [Message(e.topic, e.key, e.dedup, e.payload, e.notBefore, now, e.notBefore,
                                              Pending, None, None, 0, None)]),
         Some(|s.messages|))
  }

  // ---------- the publisher ----------

  predicate Dead(s: Store, i: nat) {
    i in s.dead
  }

  /** Nobody is publishing it, or whoever was has run out of time. */
  predicate Unheld(m: Message, now: int) {
    m.status.Pending? || (m.status.Delivering? && m.leaseEnd.Some? && m.leaseEnd.value <= now)
  }

  predicate Claimable(s: Store, p: Policy, i: nat, now: int) {
    && i < |s.messages|
    && var m := s.messages[i];
    && Registered(p, m.topic) && Due(m.availableAt, now) && Due(m.notBefore, now) && Unheld(m, now) && !Dead(s, i)
  }

  /** The oldest claimable message among the first `k` whose row nobody has locked. */
  function Oldest(s: Store, p: Policy, now: int, locked: set<nat>, k: nat): (r: Option<nat>)
    requires k <= |s.messages|
    ensures r.Some? ==> r.value < k && r.value !in locked && Claimable(s, p, r.value, now)
    ensures forall i :: 0 <= i < k && i !in locked && Claimable(s, p, i, now) ==>
                          r.Some? && s.messages[r.value].createdAt <= s.messages[i].createdAt
  {
    if k == 0 then None
    else
      var best := Oldest(s, p, now, locked, k - 1);
      if k - 1 in locked || !Claimable(s, p, k - 1, now) then best
      else if best.None? || s.messages[k - 1].createdAt < s.messages[best.value].createdAt then Some(k - 1)
      else best
  }

  function Claimed(s: Store, p: Policy, i: nat, now: int): Store
    requires i < |s.messages|
  {
    var m := s.messages[i];
    s.(messages := s.messages[i := m.(status := Delivering, owner := Some(s.owners), leaseEnd := Some(now + p.ttl),
                                      attempts := m.attempts + 1)],
       owners := s.owners + 1)
  }

  function ClaimDelivery(s: Store, p: Policy, now: int, locked: set<nat>): (Store, Option<nat>) {
    var i := Oldest(s, p, now, locked, |s.messages|);
    if i.None? then (s, None) else (Claimed(s, p, i.value, now), i)
  }

  function Power2(n: nat): nat {
    if n == 0 then 1 else 2 * Power2(n - 1)
  }

  /** min(300, 2 to the min(attempts, 8)) seconds. */
  function Backoff(attempts: nat): nat {
    var delay := Power2(if attempts < 8 then attempts else 8);
    if delay < 300 then delay else 300
  }

  /** None: the lease was lost to a later owner, or ran out. */
  function FinishDelivery(s: Store, p: Policy, i: nat, owner: nat, attempts: nat, failed: bool, now: int): Option<Store>
  {
    if i >= |s.messages| then None
    else
      var m := s.messages[i];
      if m.owner != Some(owner) || !m.status.Delivering? || m.leaseEnd.None? || m.leaseEnd.value <= now then None
      else
        Some(s.(messages := s.messages[i := m.(status := if failed then Pending else Published,
                                               publishedAt := if failed then m.publishedAt else Some(now),
                                               owner := None, leaseEnd := None,
                                               availableAt := At(now + Backoff(attempts)))],
                dead := if failed && attempts >= p.maxAttempts then s.dead + {i} else s.dead))
  }

  // ---------- reconciliation and replay ----------

  predicate Executing(s: Store, i: nat, now: int) {
    exists r :: r in s.executions && s.executions[r].message == i && !Due(s.executions[r].expires, now)
  }

  /** Attempts used up, and nobody at it. */
  predicate Exhausted(s: Store, p: Policy, i: nat, now: int) {
    && i < |s.messages|
    && var m := s.messages[i];
    && Registered(p, m.topic) && m.attempts >= p.maxAttempts && Unheld(m, now) && !Dead(s, i)
  }

  /** Published long enough ago, and its consumer has neither acknowledged it nor is at it. */
  predicate Overdue(s: Store, p: Policy, i: nat, now: int) {
    && i < |s.messages|
    && var m := s.messages[i];
    var consumer := ConsumerOf(p.topics, m.topic);
    && consumer.Some? && m.status.Published? && m.publishedAt.Some? && m.publishedAt.value < now - p.ttl
    && (consumer.value, i) !in s.inbox && !Executing(s, i, now) && !Dead(s, i)
  }

  /** What one statement sees: its own reading of the clock, and the rows others have locked. */
  datatype View = View(now: int, locked: set<nat>)

  /** A reconciliation has one statement for what is exhausted, and one for each topic. */
  datatype Views = Views(bury: View, pass: string -> View)

  /** All statements at one instant, with nobody in the way. */
  function AtOnce(now: int): Views {
    Views(View(now, {}), (topic: string) => View(now, {}))
  }

  predicate Buries(s: Store, p: Policy, i: nat, v: View) {
    i !in v.locked && Exhausted(s, p, i, v.now)
  }

  predicate Finds(s: Store, p: Policy, i: nat, v: View) {
    i !in v.locked && Overdue(s, p, i, v.now)
  }

  /** Exhausted messages get their dead letter; then, topic by topic, overdue ones go back to the publisher or, with
      their attempts used up, get theirs. */
  function Reconciled(s: Store, p: Policy, at: Views): Store {
    s.(messages := seq(|s.messages|, i requires 0 <= i < |s.messages| =>
         if Finds(s, p, i, at.pass(s.messages[i].topic)) && s.messages[i].attempts < p.maxAttempts
         then s.messages[i].(status := Pending, availableAt := MinusInfinity)
         else s.messages[i]),
       dead := s.dead + set i | 0 <= i < |s.messages|
                             && (Buries(s, p, i, at.bury)
                                 || (Finds(s, p, i, at.pass(s.messages[i].topic))
                                     && s.messages[i].attempts >= p.maxAttempts)))
  }

  function Replay(s: Store, p: Policy, i: nat): Option<Store> {
    if i >= |s.messages| || !Registered(p, s.messages[i].topic) || !Dead(s, i) then None
    else
      Some(s.(messages := s.messages[i := s.messages[i].(status := Pending, attempts := 0, availableAt := MinusInfinity,
                                                         owner := None, leaseEnd := None)],
              dead := s.dead - {i}))
  }

  // ---------- the consumer ----------

  datatype Lease = Lease(resource: string, message: nat, owner: nat, epoch: nat)

  function ResourceOf(m: Message): string {
    m.topic + ":" + m.key
  }

  /** The first look: due, handled here, not acknowledged, not under a dead letter. */
  predicate MayStart(s: Store, p: Policy, i: nat, now: int) {
    && i < |s.messages|
    && var m := s.messages[i];
    && Registered(p, m.topic) && Due(m.notBefore, now) && (m.topic, i) !in s.inbox && !Dead(s, i)
  }

  /** The resource is taken if nobody's lease on it still runs, at the next epoch; then one more look at the
      inbox, because whoever had it may have committed meanwhile. */
  function Take(s: Store, p: Policy, i: nat, now: int): (Store, Option<Lease>)
    requires i < |s.messages|
  {
    var r := ResourceOf(s.messages[i]);
    if r in s.executions && !Due(s.executions[r].expires, now) then (s, None)
    else
      var epoch := if r in s.executions then s.executions[r].epoch + 1 else 1;
      var done := (s.messages[i].topic, i) in s.inbox;
      (s.(executions := s.executions[r := Execution(i, s.owners, epoch,
                                                    if done then MinusInfinity else At(now + p.ttl))],
          owners := s.owners + 1),
       if done then None else Some(Lease(r, i, s.owners, epoch)))
  }

  /** The row still carries this very lease. */
  predicate Current(s: Store, l: Lease) {
    && l.resource in s.executions
    && var x := s.executions[l.resource]; x.message == l.message && x.owner == l.owner && x.epoch == l.epoch
  }

  /** The guard of every commit. */
  predicate Held(s: Store, l: Lease, now: int) {
    Current(s, l) && !Due(s.executions[l.resource].expires, now)
  }

  /** None: the lease is lost. */
  function Renew(s: Store, p: Policy, l: Lease, now: int): Option<Store> {
    if !Held(s, l, now) then None
    else Some(s.(executions := s.executions[l.resource := s.executions[l.resource].(expires := At(now + p.ttl))]))
  }

  function Release(s: Store, l: Lease): Store {
    if !Current(s, l) then s
    else s.(executions := s.executions[l.resource := s.executions[l.resource].(expires := MinusInfinity)])
  }

  /** A commit of the handler's session; the final one carries the acknowledgement. None: refused. */
  function Commit(s: Store, l: Lease, final: bool, now: int): Option<Store> {
    if !Held(s, l, now) || l.message >= |s.messages| then None
    else if final then Some(s.(inbox := s.inbox + {(s.messages[l.message].topic, l.message)}))
    else Some(s)
  }
}
