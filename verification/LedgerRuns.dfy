/** Whole runs of the ledger: any sequence of transactions by any callers, and what holds in every state. */
module LedgerRuns {
  import opened Prelude
  import opened States
  import opened TaskRows
  import opened RowProofs
  import opened LedgerSpec
  import opened WheelProofs

  datatype Op =
    | NewSession(project: Option<nat>)
    | AttachProject(session: nat, home: nat)
    | HandOver(req: Request)
    | MoveTo(task: nat, target: TaskState, expected: Option<nat>, reason: Option<WaitingReason>)
    | Cancel(task: nat)
    | Resume(task: nat, session: nat, online: bool)
    | Begin(task: nat, step: string, inputs: seq<(string, nat)>, reserve: Amount)
    | MoveTry(task: nat, attempt: nat, to: AttemptState, consumed: Amount, failure: Failure,
              output: Option<(string, nat)>)
    | AskFor(task: nat, kind: Kind, why: WaitingReason, step: string, askBefore: bool)
    | Reply(task: nat, interaction: nat, ticket: Ticket, decision: Decision, resume: TaskState)
    | Expire(task: nat)
    | SetCursor(task: nat, cursor: nat)
    | Touch(task: nat)     // a write of columns the model does not have, such as the thread

  function RowOf(db: Db, t: nat): Result<Task> {
    if t < |db.tasks| then Ok(db.tasks[t]) else Err(NotFound)
  }

  /** The transactions that rewrite one row and touch nothing else. */
  predicate RowOp(op: Op) {
    op.Begin? || op.MoveTry? || op.AskFor? || op.Expire? || op.SetCursor? || op.Touch?
  }

  function RowOutcome(row: Task, op: Op): Result<Task>
    requires RowOp(op)
  {
    match op
    case Begin(_, step, inputs, reserve) => OpenAttempt(row, step, inputs, reserve)
    case MoveTry(_, a, to, consumed, failure, output) => MoveAttempt(row, a, to, consumed, failure, output)
    case AskFor(_, kind, why, step, askBefore) => Ask(row, kind, why, step, askBefore)
    case Expire(_) => Ok(ExpireApprovals(row))
    case SetCursor(_, cursor) => Ok(row.(cursor := cursor, version := row.version + 1))
    case Touch(_) => Ok(row.(version := row.version + 1))
  }

  function Outcome(db: Db, op: Op): Result<Db> {
    match op
    case NewSession(project) => Ok(db.(sessions := db.sessions + [Session(User, None, project, 0)]))
    case AttachProject(s, project) =>
      if s < |db.sessions| && db.sessions[s].project.None?
      then Ok(db.(sessions := db.sessions[s := db.sessions[s].(project := Some(project))]))
      else Ok(db)
    case HandOver(req) =>
      var made :- Handover(db, req);
      Ok(made.0)
    case MoveTo(t, target, expected, reason) => Transition(db, t, target, expected, reason)
    case Cancel(t) => RequestCancel(db, t)
    case Resume(t, s, online) => ResumeEnvironment(db, t, s, online)
    case Reply(t, i, ticket, decision, resume) => Respond(db, t, i, ticket, decision, resume)
    case _ =>
      var row :- RowOf(db, op.task);
      Rewrite(db, op.task, RowOutcome(row, op))
  }

  /** A refused transaction is rolled back. */
  function Apply(db: Db, op: Op): Db {
    var r := Outcome(db, op);
    if r.Ok? then r.value else db
  }

  function Run(db: Db, ops: seq<Op>): Db
    decreases |ops|
  {
    if ops == [] then db else Run(Apply(db, ops[0]), ops[1..])
  }

  /** A handover whose caller says `queued_behind` when there is nobody to queue behind. */
  predicate FalseTag(db: Db, req: Request) {
    && req.clientTag && FindKey(db.tasks, req.key).None?
    && req.session < |db.sessions| && db.sessions[req.session].project.Some?
    && ActiveTask(db.tasks, db.sessions[req.session].project.value).None?
  }

  /** What the callers of the ledger keep to. A handover says `queued_behind` only if there is somebody, and has a
      positive limit; a wait is left only through its answer, unless there is none; and only a capped
      task runs out of budget. */
  predicate Disciplined(db: Db, op: Op) {
    match op
    case HandOver(req) => !FalseTag(db, req) && (req.limit.Some? ==> req.limit.value > 0.0)
    case MoveTo(t, target, _, reason) => t < |db.tasks| ==> Considerate(db.tasks[t], target, reason)
    case MoveTry(t, _, to, _, _, _) => t < |db.tasks| && to.BudgetExceeded? ==> db.tasks[t].limit.Some?
    case AskFor(t, kind, why, _, _) =>
      t < |db.tasks| && (kind.ToppingUp? || why.Resource?) ==> db.tasks[t].limit.Some?
    case _ => true
  }

  predicate DisciplinedRun(db: Db, ops: seq<Op>)
    decreases |ops|
  {
    ops == [] || (Disciplined(db, ops[0]) && DisciplinedRun(Apply(db, ops[0]), ops[1..]))
  }

  ghost predicate AllRows(tasks: seq<Task>) {
    forall t :: 0 <= t < |tasks| ==> RowInv(tasks[t])
  }

  ghost predicate LedgerInv(db: Db) {
    WheelInv(db) && AllRows(db.tasks)
  }

  const EMPTY := Db([], [])

  // ---------- what a transaction does to the rows ----------

  /** The row of a task that stopped waiting its turn. */
  function Untagged(row: Task): Task {
    row.(tagged := false, version := row.version + 1)
  }

  lemma UntaggedKeeps(row: Task)
    requires RowInv(row) && QueuedBehind(row)
    ensures RowInv(Untagged(row))
  {
    MoneyFrame(row, Untagged(row));
  }

  /** Columns no account or wait depends on. */
  lemma ColumnsKeep(row: Task, cancel: bool, cursor: nat)
    requires RowInv(row)
    ensures RowInv(row.(cancel := cancel, cursor := cursor, version := row.version + 1))
  {
    MoneyFrame(row, row.(cancel := cancel, cursor := cursor, version := row.version + 1));
  }

  /** A state move writes its own row, and may start the next expert; every other row is as it was. */
  lemma TransitionRows(db: Db, t: nat, target: TaskState, expected: Option<nat>, reason: Option<WaitingReason>)
    requires Transition(db, t, target, expected, reason).Ok?
    ensures var after := Transition(db, t, target, expected, reason).value;
            && t < |db.tasks| && |after.tasks| == |db.tasks|
            && Move(db.tasks[t], target, reason) == Ok(after.tasks[t])
            && forall u :: 0 <= u < |db.tasks| && u != t ==>
                             || after.tasks[u] == db.tasks[u]
                             || (QueuedBehind(db.tasks[u]) && after.tasks[u] == Untagged(db.tasks[u]))
  {
  }

  lemma TransitionKeepsRows(db: Db, t: nat, target: TaskState, expected: Option<nat>, reason: Option<WaitingReason>)
    requires AllRows(db.tasks) && Transition(db, t, target, expected, reason).Ok?
    requires Considerate(db.tasks[t], target, reason)
    ensures AllRows(Transition(db, t, target, expected, reason).value.tasks)
  {
    TransitionRows(db, t, target, expected, reason);
    var after := Transition(db, t, target, expected, reason).value;
    MoveKeeps(db.tasks[t], target, reason);
    forall u | 0 <= u < |after.tasks| ensures RowInv(after.tasks[u]) {
      if u != t && after.tasks[u] != db.tasks[u] {
        UntaggedKeeps(db.tasks[u]);
      }
    }
  }

  lemma RewriteKeepsLedger(db: Db, t: nat, row: Task)
    requires LedgerInv(db) && t < |db.tasks| && SameStanding(db.tasks[t], row) && RowInv(row)
    ensures Write(db, t, row).Ok? && LedgerInv(Write(db, t, row).value)
  {
    RewriteKeeps(db, t, row);
  }

  lemma CancelKeeps(db: Db, t: nat)
    requires LedgerInv(db)
    ensures LedgerInv(Apply(db, Cancel(t)))
  {
    hide RowInv, WheelInv, ActiveTask, NextQueued;
    if RequestCancel(db, t).Ok? && Open(db.tasks[t]) {
      var row := db.tasks[t].(cancel := true, version := db.tasks[t].version + 1);
      ColumnsKeep(db.tasks[t], true, db.tasks[t].cursor);
      RewriteKeepsLedger(db, t, row);
      var flagged := Write(db, t, row).value;
      if !row.state.Running? {
        TransitionKeeps(flagged, t, TaskState.Cancelled, Some(row.version), None);
        TransitionKeepsRows(flagged, t, TaskState.Cancelled, Some(row.version), None);
      }
    }
  }

  lemma ReplyKeeps(db: Db, t: nat, i: nat, ticket: Ticket, decision: Decision, resume: TaskState)
    requires LedgerInv(db)
    ensures LedgerInv(Apply(db, Reply(t, i, ticket, decision, resume)))
  {
    if Respond(db, t, i, ticket, decision, resume).Ok? {
      var row := Freed(db.tasks[t], i, decision);
      var target := AnswerTarget(db.tasks[t].interactions[i].kind, decision, resume);
      FreedKeeps(db.tasks[t], i, ticket, decision);
      RewriteKeepsLedger(db, t, row);
      TransitionKeeps(Write(db, t, row).value, t, target, None, None);
      TransitionKeepsRows(Write(db, t, row).value, t, target, None, None);
    }
  }

  lemma MoveToKeeps(db: Db, t: nat, target: TaskState, expected: Option<nat>, reason: Option<WaitingReason>)
    requires LedgerInv(db) && Disciplined(db, MoveTo(t, target, expected, reason))
    ensures LedgerInv(Apply(db, MoveTo(t, target, expected, reason)))
  {
    if Transition(db, t, target, expected, reason).Ok? {
      TransitionKeeps(db, t, target, expected, reason);
      TransitionKeepsRows(db, t, target, expected, reason);
    }
  }

  lemma HandOverKeeps(db: Db, req: Request)
    requires LedgerInv(db) && Disciplined(db, HandOver(req))
    ensures LedgerInv(Apply(db, HandOver(req)))
  {
    hide RowInv;
    if Handover(db, req).Ok? {
      HandoverKeeps(db, req);
      var (after, t) := Handover(db, req).value;
      if FindKey(db.tasks, req.key).None? {
        assert after.tasks[..|db.tasks|] == db.tasks;
        var row := after.tasks[|db.tasks|];
        NewTaskInv(row, row.session, row.project, row.key, row.digest, row.limit, row.tagged);
      }
    }
  }

  lemma SessionOpsKeep(db: Db, op: Op)
    requires LedgerInv(db) && (op.NewSession? || op.AttachProject?)
    ensures LedgerInv(Apply(db, op))
  {
  }

  lemma RowOutcomeKeeps(row: Task, op: Op)
    requires RowOp(op) && RowInv(row) && RowOutcome(row, op).Ok?
    requires op.MoveTry? && op.to.BudgetExceeded? ==> row.limit.Some?
    requires op.AskFor? && (op.kind.ToppingUp? || op.why.Resource?) ==> row.limit.Some?
    ensures RowInv(RowOutcome(row, op).value)
  {
    hide RowInv;
    match op {
      case Begin(_, step, inputs, reserve) => OpenAttemptKeeps(row, step, inputs, reserve);
      case MoveTry(_, a, to, consumed, failure, output) => MoveAttemptKeeps(row, a, to, consumed, failure, output);
      case AskFor(_, kind, why, step, askBefore) => AskKeeps(row, kind, why, step, askBefore);
      case Expire(_) => ExpireKeeps(row);
      case SetCursor(_, cursor) => ColumnsKeep(row, row.cancel, cursor);
      case Touch(_) => ColumnsKeep(row, row.cancel, row.cursor);
    }
  }

  lemma RowOutcomeStanding(row: Task, op: Op)
    requires RowOp(op) && RowOutcome(row, op).Ok?
    ensures SameStanding(row, RowOutcome(row, op).value)
  {
  }

  /** The transactions that rewrite one row keep its invariant and its standing. */
  lemma RowOpKeeps(db: Db, op: Op)
    requires LedgerInv(db) && Disciplined(db, op) && RowOp(op)
    ensures LedgerInv(Apply(db, op))
  {
    hide RowInv, SameStanding, WheelInv, RowOutcome;
    if op.task < |db.tasks| && RowOutcome(db.tasks[op.task], op).Ok? {
      RowOutcomeKeeps(db.tasks[op.task], op);
      RowOutcomeStanding(db.tasks[op.task], op);
      RewriteKeepsLedger(db, op.task, RowOutcome(db.tasks[op.task], op).value);
    }
  }

  lemma ApplyKeeps(db: Db, op: Op)
    requires LedgerInv(db) && Disciplined(db, op)
    ensures LedgerInv(Apply(db, op))
  {
    match op {
      case NewSession(_) => SessionOpsKeep(db, op);
      case AttachProject(_, _) => SessionOpsKeep(db, op);
      case HandOver(req) => HandOverKeeps(db, req);
      case MoveTo(t, target, expected, reason) => MoveToKeeps(db, t, target, expected, reason);
      case Cancel(t) => CancelKeeps(db, t);
      case Resume(t, s, online) =>
        if ResumeEnvironment(db, t, s, online).Ok? && Apply(db, op) != db {
          MoveToKeeps(db, t, TaskState.Queued, Some(db.tasks[t].version), None);
        }
      case Reply(t, i, ticket, decision, resume) => ReplyKeeps(db, t, i, ticket, decision, resume);
      case _ => RowOpKeeps(db, op);
    }
  }

  /** In every state of every run: wheel, queue, attempts, money and waits are as promised. */
  lemma {:induction false} EveryRunKeeps(db: Db, ops: seq<Op>)
    requires LedgerInv(db) && DisciplinedRun(db, ops)
    ensures LedgerInv(Run(db, ops))
    decreases |ops|
  {
    if ops != [] {
      ApplyKeeps(db, ops[0]);
      EveryRunKeeps(Apply(db, ops[0]), ops[1..]);
    }
  }
}
