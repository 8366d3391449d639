/** One row of the task table together with the rows that carry its task_id (attempts, interactions,
    budget journal), and what each transaction of the ledger does to it. Attempts and interactions are
    kept in creation order, so the position of a row is its id. Every write raises `version`. */
module TaskRows {
  import opened Prelude
  import opened States

  datatype Failure = NoCode | Acceptance | Stopped | EnvironmentLost | TurnError | AskedFirst | CancelledByUser

  datatype Attempt = Attempt(
    step: string,
    inputs: seq<(string, nat)>,
    status: AttemptState,
    granted: Amount,
    consumed: Amount,
    failure: Failure,
    output: Option<(string, nat)>)

  datatype Kind = ToppingUp | InputWanted | Question | ToolApproval

  datatype Status = Pending | Consumed | Expired | Withdrawn

  datatype Interaction = Interaction(
    kind: Kind,
    status: Status,
    target: nat,           // the version of the task row this interaction may move
    step: string,
    askBefore: bool)

  datatype EntryKind = Reserve | Consume | Release | Topup

  datatype Entry = Entry(kind: EntryKind, attempt: Option<nat>, amount: real)

  datatype Task = Task(
    session: nat,
    project: nat,
    key: nat,              // tenant, owner, profile and idempotency key
    digest: nat,
    state: TaskState,
    version: nat,
    cursor: nat,
    reason: Option<WaitingReason>,
    attempt: Option<nat>,
    interaction: Option<nat>,
    limit: Option<real>,
    reserved: real,
    used: real,
    cancel: bool,
    tagged: bool,          // client_context carries a non-empty queued_behind
    attempts: seq<Attempt>,
    interactions: seq<Interaction>,
    journal: seq<Entry>)

  predicate Open(row: Task) {
    !Terminal(row.state)
  }

  /** Waiting its turn behind another expert of the project. */
  predicate QueuedBehind(row: Task) {
    row.state.Received? && row.tagged
  }

  /** The predicate of the partial unique index: the row takes the one place of its project. */
  predicate Holds(row: Task) {
    Open(row) && !QueuedBehind(row)
  }

  /** What may still be reserved; no limit means no end. */
  predicate Affordable(row: Task, reserve: real) {
    row.limit.None? || reserve <= row.limit.value - row.reserved - row.used
  }

  /** A budget is read back as one with a positive limit or none; any other makes the transaction raise. */
  predicate Budgeted(row: Task) {
    row.limit.Some? ==> row.limit.value > 0.0
  }

  function WithdrawPending(interactions: seq<Interaction>): (r: seq<Interaction>)
    ensures |r| == |interactions|
    ensures forall i :: 0 <= i < |r| ==> !r[i].status.Pending?
    ensures forall i :: 0 <= i < |r| && !interactions[i].status.Pending? ==> r[i] == interactions[i]
    ensures forall i :: 0 <= i < |r| && interactions[i].status.Pending? ==>
                          r[i] == interactions[i].(status := Withdrawn)
  {
    seq(|interactions|, i requires 0 <= i < |interactions| =>
      if interactions[i].status.Pending? then interactions[i].(status := Withdrawn) else interactions[i])
  }

  // ---------- state moves ----------

  /** A validated state move: one write; a terminal move also lets go of the attempt and of every
      pending interaction. */
  function Move(row: Task, target: TaskState, reason: Option<WaitingReason>): Result<Task> {
    if !ValidMove(row.state, target, reason) then Err(InvalidTransition)
    else
      var moved := row.(state := target, reason := reason, version := row.version + 1);
      Ok(if Terminal(target)
         then moved.(attempt := None, interaction := None, interactions := WithdrawPending(row.interactions))
         else moved)
  }

  /** WAITING and the interaction it waits for are one commit. */
  function Ask(row: Task, kind: Kind, reason: WaitingReason, step: string, askBefore: bool): Result<Task> {
    if !ValidMove(row.state, TaskState.Waiting, Some(reason)) then Err(InvalidTransition)
    else
      Ok(row.(state := TaskState.Waiting, reason := Some(reason), version := row.version + 1,
              interaction := Some(|row.interactions|),
              interactions := row.interactions + [Interaction(kind, Pending, row.version + 1, step, askBefore)]))
  }

  // ---------- attempts and money ----------

  function OpenAttempt(row: Task, step: string, inputs: seq<(string, nat)>, reserve: Amount): Result<Task> {
    if row.attempt.Some? then Err(StaleVersion)
    else if !Budgeted(row) then Err(InvalidBudget)
    else if !Affordable(row, reserve) then Err(BudgetExhausted)
    else
      var id := |row.attempts|;
      var begun := row.(
        attempts := row.attempts + [Attempt(step, inputs, AttemptState.Created, reserve, 0.0, NoCode, None)],
        attempt := Some(id), reserved := row.reserved + reserve, version := row.version + 1,
        journal := if reserve > 0.0 then row.journal + [Entry(Reserve, Some(id), reserve)] else row.journal);
      Ok(if row.state.Queued? then begun.(state := TaskState.Running, reason := None) else begun)
  }

  /** What stays reserved once `consumed` has been charged against the attempt's allocation. */
  function AfterCharge(reserved: real, granted: Amount, consumed: Amount): real {
    if consumed > 0.0 then Pos(reserved - Min(consumed, granted)) else reserved
  }

  /** What an ending attempt gives back. */
  function GivenBack(reserved: real, granted: Amount, consumed: Amount): Amount {
    if granted - consumed > 0.0 && reserved > 0.0 then Min(granted - consumed, reserved) else 0.0
  }

  function MoveAttempt(row: Task, a: nat, target: AttemptState, consumed: Amount,
                       failure: Failure, output: Option<(string, nat)>): Result<Task>
  {
    if a >= |row.attempts| then Err(NotFound)
    else if target !in AttemptMoves(row.attempts[a].status) then Err(InvalidTransition)
    else if !Budgeted(row) then Err(InvalidBudget)
    else
      var was := row.attempts[a];
      var over := Ended(target);
      var charged := AfterCharge(row.reserved, was.granted, consumed);
      var back := if over then GivenBack(charged, was.granted, consumed) else 0.0;
      var spent := if consumed > 0.0 then row.journal + [Entry(Consume, Some(a), consumed)] else row.journal;
      var moved := row.(
        attempts := row.attempts[a := was.(status := target, consumed := was.consumed + consumed,
                                           failure := if over then failure else was.failure,
                                           output := if over && output.Some? then output else was.output)],
        used := row.used + consumed, reserved := charged - back, version := row.version + 1,
        attempt := if over then None else row.attempt,
        journal := if back > 0.0 then spent + [Entry(Release, Some(a), back)] else spent);
      if target.BudgetExceeded? then Ask(moved, ToppingUp, Resource, "", false) else Ok(moved)
  }

  // ---------- interactions ----------

  datatype Decision = Stop | TopupBy(amount: real) | TopupWithoutAmount | Other

  /** What an answer proves about itself: its token and subject digest match, and it is in time. */
  datatype Ticket = Ticket(token: bool, subject: bool, inTime: bool)

  predicate Answerable(row: Task, i: nat, ticket: Ticket) {
    && i < |row.interactions|
    && ticket == Ticket(true, true, true)
    && row.interactions[i].status.Pending?
    && row.interaction == Some(i)
    && row.interactions[i].target == row.version
  }

  /** Where an accepted answer sends its task. */
  function AnswerTarget(kind: Kind, decision: Decision, resume: TaskState): TaskState {
    if kind.ToppingUp? then
      if decision.TopupBy? then TaskState.Queued else TaskState.Failed
    else if decision.Stop? then TaskState.Failed
    else resume
  }

  /** The answer raises the limit. */
  predicate ToppedUp(row: Task, i: nat, decision: Decision)
    requires i < |row.interactions|
  {
    row.interactions[i].kind.ToppingUp? && decision.TopupBy?
  }

  /** The answer is consumed and the task row released from it, before the state moves. */
  function Freed(row: Task, i: nat, decision: Decision): Task
    requires i < |row.interactions|
  {
    var freed := row.(interactions := row.interactions[i := row.interactions[i].(status := Consumed)],
                      interaction := None, version := row.version + 1);
    if ToppedUp(row, i, decision) then
      var base := if row.limit.Some? then row.limit.value else 0.0;
      freed.(limit := Some(base + decision.amount),
             journal := row.journal + [Entry(Topup, None, decision.amount)])
    else freed
  }

  function Answer(row: Task, i: nat, ticket: Ticket, decision: Decision, resume: TaskState): Result<Task> {
    if i >= |row.interactions| then Err(NotFound)
    else if !Answerable(row, i, ticket) then Err(InteractionRejected)
    else if ToppedUp(row, i, decision) && !Budgeted(row) then Err(InvalidBudget)
    else Move(Freed(row, i, decision), AnswerTarget(row.interactions[i].kind, decision, resume), None)
  }

  /** A pending tool approval whose connection is gone. */
  function ExpireApprovals(row: Task): Task {
    row.(interactions := seq(|row.interactions|, i requires 0 <= i < |row.interactions| =>
           if row.interactions[i].kind.ToolApproval? && row.interactions[i].status.Pending?
           then row.interactions[i].(status := Expired) else row.interactions[i]))
  }

  // ---------- journal sums ----------

  function Total(journal: seq<Entry>, kind: EntryKind): real {
    if journal == [] then 0.0
    else
      var e := journal[|journal| - 1];
      Total(journal[..|journal| - 1], kind) + (if e.kind == kind then e.amount else 0.0)
  }

  function TotalOf(journal: seq<Entry>, kind: EntryKind, attempt: nat): real {
    if journal == [] then 0.0
    else
      var e := journal[|journal| - 1];
      TotalOf(journal[..|journal| - 1], kind, attempt)
      + (if e.kind == kind && e.attempt == Some(attempt) then e.amount else 0.0)
  }

  /** How much negative top-ups have taken out of the limit. */
  function TakenOut(journal: seq<Entry>): real {
    if journal == [] then 0.0
    else
      var e := journal[|journal| - 1];
      TakenOut(journal[..|journal| - 1]) + (if e.kind.Topup? then Pos(-e.amount) else 0.0)
  }

  /** What one more line does to every sum of the journal. */
  lemma {:induction false} OneMoreLine(journal: seq<Entry>, line: Entry, kind: EntryKind, attempt: nat)
    ensures Total(journal + [line], kind) == Total(journal, kind) + (if line.kind == kind then line.amount else 0.0)
    ensures TotalOf(journal + [line], kind, attempt)
         == TotalOf(journal, kind, attempt)
            + (if line.kind == kind && line.attempt == Some(attempt) then line.amount else 0.0)
    ensures TakenOut(journal + [line]) == TakenOut(journal) + (if line.kind.Topup? then Pos(-line.amount) else 0.0)
  {
    assert (journal + [line])[..|journal|] == journal;
  }

  lemma {:induction false} TotalConcat(journal: seq<Entry>, lines: seq<Entry>, kind: EntryKind)
    ensures Total(journal + lines, kind) == Total(journal, kind) + Total(lines, kind)
  {
    if lines == [] {
      assert journal + lines == journal;
    } else {
      TotalConcat(journal, lines[..|lines| - 1], kind);
      assert (journal + lines)[..|journal + lines| - 1] == journal + lines[..|lines| - 1];
    }
  }

  lemma {:induction false} TotalOfConcat(journal: seq<Entry>, lines: seq<Entry>, kind: EntryKind, attempt: nat)
    ensures TotalOf(journal + lines, kind, attempt) == TotalOf(journal, kind, attempt) + TotalOf(lines, kind, attempt)
  {
    if lines == [] {
      assert journal + lines == journal;
    } else {
      TotalOfConcat(journal, lines[..|lines| - 1], kind, attempt);
      assert (journal + lines)[..|journal + lines| - 1] == journal + lines[..|lines| - 1];
    }
  }

  lemma {:induction false} TakenOutConcat(journal: seq<Entry>, lines: seq<Entry>)
    ensures TakenOut(journal + lines) == TakenOut(journal) + TakenOut(lines)
  {
    if lines == [] {
      assert journal + lines == journal;
    } else {
      TakenOutConcat(journal, lines[..|lines| - 1]);
      assert (journal + lines)[..|journal + lines| - 1] == journal + lines[..|lines| - 1];
    }
  }
}
