/** One task's row is all the driver needs to know of the ledger: what any transaction of anybody does to it
    is nothing, or one of the moves the driver's model has. */
module AdvisorLink {
  import opened Prelude
  import opened States
  import opened TaskRows
  import opened RowProofs
  import opened LedgerSpec
  import opened LedgerRuns
  import S = AdvisorSpec

  /** A transaction that is not the driver of task `t` at work. */
  predicate Foreign(op: Op, t: nat) {
    match op
    case MoveTo(u, _, _, _) => u != t
    case Begin(u, _, _, _) => u != t
    case MoveTry(u, _, _, _, _, _) => u != t
    case SetCursor(u, _) => u != t
    case AskFor(u, kind, why, _, first) =>
      u != t || ((kind.ToolApproval? || kind.Question?) && !why.Resource? && !first)
    case Reply(u, _, _, _, resume) => u != t || resume.Queued?
    case _ => true
  }

  ghost predicate Seen(was: Task, now: Task) {
    now == was || exists other: S.Other :: now == S.RowAfter(was, other)
  }

  lemma SeenMove(db: Db, u: nat, target: TaskState, expected: Option<nat>, reason: Option<WaitingReason>, t: nat)
    requires Transition(db, u, target, expected, reason).Ok? && t < |db.tasks| && u != t
    ensures var after := Transition(db, u, target, expected, reason).value.tasks;
            |after| == |db.tasks| && Seen(db.tasks[t], after[t])
  {
    TransitionRows(db, u, target, expected, reason);
    hide Transition;
    assert QueuedBehind(db.tasks[t]) ==> Untagged(db.tasks[t]) == S.RowAfter(db.tasks[t], S.TurnComes);
  }

  lemma SeenCancel(db: Db, u: nat, t: nat)
    requires t < |db.tasks|
    ensures t < |Apply(db, Cancel(u)).tasks| && Seen(db.tasks[t], Apply(db, Cancel(u)).tasks[t])
  {
    if RequestCancel(db, u).Ok? && Open(db.tasks[u]) {
      var was := db.tasks[u];
      var flagged := was.(cancel := true, version := was.version + 1);
      var mid := Write(db, u, flagged).value;
      if !was.state.Running? {
        if u == t {
          TransitionRows(mid, u, TaskState.Cancelled, Some(was.version + 1), None);
        } else {
          SeenMove(mid, u, TaskState.Cancelled, Some(was.version + 1), None, t);
        }
      }
      hide Transition;
      assert u == t ==> Apply(db, Cancel(u)).tasks[t] == S.RowAfter(was, S.Cancel);
    }
  }

  lemma SeenReply(db: Db, u: nat, i: nat, ticket: Ticket, decision: Decision, resume: TaskState, t: nat)
    requires t < |db.tasks| && (u == t ==> resume.Queued?)
    ensures t < |Apply(db, Reply(u, i, ticket, decision, resume)).tasks|
    ensures Seen(db.tasks[t], Apply(db, Reply(u, i, ticket, decision, resume)).tasks[t])
  {
    hide Transition;
    if Respond(db, u, i, ticket, decision, resume).Ok? {
      var freed := Write(db, u, Freed(db.tasks[u], i, decision)).value;
      var target := AnswerTarget(db.tasks[u].interactions[i].kind, decision, resume);
      if u == t {
        TransitionRows(freed, u, target, None, None);
        assert Apply(db, Reply(u, i, ticket, decision, resume)).tasks[t]
            == S.RowAfter(db.tasks[t], S.Answered(i, ticket, decision));
      } else {
        SeenMove(freed, u, target, None, None, t);
      }
    }
  }

  lemma SeenResume(db: Db, u: nat, session: nat, online: bool, t: nat)
    requires t < |db.tasks|
    ensures t < |Apply(db, Resume(u, session, online)).tasks|
    ensures Seen(db.tasks[t], Apply(db, Resume(u, session, online)).tasks[t])
  {
    hide Transition;
    if ResumeEnvironment(db, u, session, online).Ok? && Apply(db, Resume(u, session, online)) != db {
      if u == t {
        TransitionRows(db, u, TaskState.Queued, Some(db.tasks[u].version), None);
        assert Apply(db, Resume(u, session, online)).tasks[t] == S.RowAfter(db.tasks[t], S.EnvironmentBack(true));
      } else {
        SeenMove(db, u, TaskState.Queued, Some(db.tasks[u].version), None, t);
      }
    }
  }

  lemma SeenRow(db: Db, op: Op, t: nat)
    requires t < |db.tasks| && Foreign(op, t) && RowOp(op)
    requires op.AskFor? && op.task == t ==> db.tasks[t].attempts != []
    ensures t < |Apply(db, op).tasks| && Seen(db.tasks[t], Apply(db, op).tasks[t])
  {
    hide OpenAttempt, MoveAttempt, Ask;
    if op.task == t && Outcome(db, op).Ok? {
      var row := db.tasks[t];
      match op {
        case AskFor(_, kind, why, step, first) =>
          assert Apply(db, op).tasks[t] == S.RowAfter(row, S.TurnAsks(kind, why, step));
        case Expire(_) => assert Apply(db, op).tasks[t] == S.RowAfter(row, S.ApprovalsExpire);
        case Touch(_) => assert Apply(db, op).tasks[t] == S.RowAfter(row, S.ThreadMoves);
      }
    }
  }

  /** Whatever anybody else does anywhere in the ledger, the driver of a task sees it as one of the events its
      state machine allows between two of its own actions. */
  lemma NothingElseHappens(db: Db, op: Op, t: nat)
    requires t < |db.tasks| && Foreign(op, t) && (op.AskFor? && op.task == t ==> db.tasks[t].attempts != [])
    ensures t < |Apply(db, op).tasks| && Seen(db.tasks[t], Apply(db, op).tasks[t])
  {
    hide Transition, RequestCancel, ResumeEnvironment, Respond, RowOutcome, Rewrite;
    match op {
      case MoveTo(u, target, expected, reason) =>
        if Transition(db, u, target, expected, reason).Ok? {
          SeenMove(db, u, target, expected, reason, t);
        }
      case Cancel(u) => SeenCancel(db, u, t);
      case Resume(u, session, online) => SeenResume(db, u, session, online, t);
      case Reply(u, i, ticket, decision, resume) => SeenReply(db, u, i, ticket, decision, resume, t);
      case NewSession(_) =>
      case AttachProject(_, _) =>
      case HandOver(_) =>
      case _ => SeenRow(db, op, t);
    }
  }

  /** The driver's own transactions do to the row what its model says, or are refused and rolled back. */
  lemma OwnTransactions(db: Db, t: nat, op: Op)
    requires t < |db.tasks| && Outcome(db, op).Ok?
    requires (RowOp(op) && op.task == t) || (op.MoveTo? && op.task == t)
    ensures var after := Apply(db, op).tasks;
            && t < |after|
            && if op.MoveTo? then Move(db.tasks[t], op.target, op.reason) == Ok(after[t])
               else RowOutcome(db.tasks[t], op) == Ok(after[t])
  {
    hide RowOutcome, Transition;
    if op.MoveTo? {
      TransitionRows(db, t, op.target, op.expected, op.reason);
    }
  }
}
