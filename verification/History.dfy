/** What a run of the ledger can never undo: versions, journals, finished attempts, answered questions. */
module History {
  import opened Prelude
  import opened States
  import opened TaskRows
  import opened RowProofs
  import opened LedgerSpec
  import opened WheelProofs
  import opened LedgerRuns

  // ---------- one row over time ----------

  /** Equal but for the statuses of interactions. */
  ghost predicate SameButStatuses(was: Task, now: Task) {
    && now == was.(interactions := now.interactions)
    && |now.interactions| == |was.interactions|
    && forall i :: 0 <= i < |was.interactions| ==>
                     now.interactions[i] == was.interactions[i].(status := now.interactions[i].status)
  }

  /** Interactions are never taken away, and one that is no longer pending stays as it is. */
  ghost predicate AnswersStay(was: seq<Interaction>, now: seq<Interaction>) {
    && |was| <= |now|
    && forall i :: 0 <= i < |was| ==>
                     && now[i] == was[i].(status := now[i].status)
                     && (!was[i].status.Pending? ==> now[i] == was[i])
  }

  /** Attempts are never taken away, and a finished one stays as it is. */
  ghost predicate AttemptsStay(was: seq<Attempt>, now: seq<Attempt>) {
    && |was| <= |now|
    && forall a :: 0 <= a < |was| ==>
                     && now[a].step == was[a].step && now[a].inputs == was[a].inputs && now[a].granted == was[a].granted
                     && (Ended(was[a].status) ==> now[a] == was[a])
  }

  /** A later state of the same row. Its version tells whether its columns were written in between. */
  ghost predicate Later(was: Task, now: Task) {
    && was.version <= now.version
    && (was.version == now.version ==> SameButStatuses(was, now))
    && AnswersStay(was.interactions, now.interactions)
    && AttemptsStay(was.attempts, now.attempts)
    && was.journal <= now.journal
    && (now.session, now.project, now.key, now.digest) == (was.session, was.project, was.key, was.digest)
    && (Terminal(was.state) ==> now.state == was.state)
    && (was.cancel ==> now.cancel)
  }

  lemma LaterLater(a: Task, b: Task, c: Task)
    requires Later(a, b) && Later(b, c)
    ensures Later(a, c)
  {
  }

  lemma MoveIsLater(row: Task, target: TaskState, reason: Option<WaitingReason>)
    requires Move(row, target, reason).Ok?
    ensures Later(row, Move(row, target, reason).value)
  {
  }

  lemma MoveAttemptIsLater(row: Task, a: nat, target: AttemptState, consumed: Amount,
                           failure: Failure, output: Option<(string, nat)>)
    requires MoveAttempt(row, a, target, consumed, failure, output).Ok?
    ensures Later(row, MoveAttempt(row, a, target, consumed, failure, output).value)
  {
    MovedIs(row, a, target, consumed, failure, output);
    TerminalIsFinal(row.state, row.attempts[a].status);
  }

  lemma RowOutcomeIsLater(row: Task, op: Op)
    requires RowOp(op) && RowOutcome(row, op).Ok?
    ensures Later(row, RowOutcome(row, op).value)
  {
    match op {
      case MoveTry(_, a, to, consumed, failure, output) => MoveAttemptIsLater(row, a, to, consumed, failure, output);
      case _ =>
    }
  }

  // ---------- every row of every run ----------

  ghost predicate AllLater(was: seq<Task>, now: seq<Task>) {
    |was| <= |now| && forall t :: 0 <= t < |was| ==> Later(was[t], now[t])
  }

  lemma TransitionIsLater(db: Db, t: nat, target: TaskState, expected: Option<nat>, reason: Option<WaitingReason>)
    requires Transition(db, t, target, expected, reason).Ok?
    ensures AllLater(db.tasks, Transition(db, t, target, expected, reason).value.tasks)
  {
    hide Transition;
    TransitionRows(db, t, target, expected, reason);
    MoveIsLater(db.tasks[t], target, reason);
  }

  lemma CancelIsLater(db: Db, t: nat)
    ensures AllLater(db.tasks, Apply(db, Cancel(t)).tasks)
  {
    hide Transition;
    if RequestCancel(db, t).Ok? && Open(db.tasks[t]) && !db.tasks[t].state.Running? {
      var row := db.tasks[t].(cancel := true, version := db.tasks[t].version + 1);
      var flagged := Write(db, t, row).value;
      TransitionIsLater(flagged, t, TaskState.Cancelled, Some(row.version), None);
      var after := RequestCancel(db, t).value;
      forall u | 0 <= u < |db.tasks| ensures Later(db.tasks[u], after.tasks[u]) {
        LaterLater(db.tasks[u], flagged.tasks[u], after.tasks[u]);
      }
    }
  }

  lemma ReplyIsLater(db: Db, t: nat, i: nat, ticket: Ticket, decision: Decision, resume: TaskState)
    ensures AllLater(db.tasks, Apply(db, Reply(t, i, ticket, decision, resume)).tasks)
  {
    hide Transition;
    if Respond(db, t, i, ticket, decision, resume).Ok? {
      var freed := Write(db, t, Freed(db.tasks[t], i, decision)).value;
      var target := AnswerTarget(db.tasks[t].interactions[i].kind, decision, resume);
      TransitionIsLater(freed, t, target, None, None);
      var after := Respond(db, t, i, ticket, decision, resume).value;
      assert Later(db.tasks[t], freed.tasks[t]) by {
        assert AnswersStay(db.tasks[t].interactions, freed.tasks[t].interactions);
      }
      forall u | 0 <= u < |db.tasks| ensures Later(db.tasks[u], after.tasks[u]) {
        LaterLater(db.tasks[u], freed.tasks[u], after.tasks[u]);
      }
    }
  }

  lemma LaterItself(tasks: seq<Task>)
    ensures AllLater(tasks, tasks)
  {
  }

  lemma RowOpIsLater(db: Db, op: Op)
    requires RowOp(op)
    ensures AllLater(db.tasks, Apply(db, op).tasks)
  {
    hide Later, RowOutcome;
    LaterItself(db.tasks);
    if op.task < |db.tasks| && RowOutcome(db.tasks[op.task], op).Ok? {
      RowOutcomeIsLater(db.tasks[op.task], op);
    }
  }

  lemma ApplyIsLater(db: Db, op: Op)
    ensures AllLater(db.tasks, Apply(db, op).tasks)
  {
    hide Later, Transition, Respond, RequestCancel;
    LaterItself(db.tasks);
    match op {
      case MoveTo(t, target, expected, reason) =>
        if Transition(db, t, target, expected, reason).Ok? {
          TransitionIsLater(db, t, target, expected, reason);
        }
      case Cancel(t) => CancelIsLater(db, t);
      case Resume(t, s, online) =>
        if ResumeEnvironment(db, t, s, online).Ok? && Apply(db, op) != db {
          TransitionIsLater(db, t, TaskState.Queued, Some(db.tasks[t].version), None);
        }
      case Reply(t, i, ticket, decision, resume) => ReplyIsLater(db, t, i, ticket, decision, resume);
      case NewSession(_) =>
      case AttachProject(_, _) =>
      case HandOver(_) =>
      case _ => RowOpIsLater(db, op);
    }
  }

  /** In any run by any callers, every row only grows older: nothing finished is reopened or rewritten,
      and a row whose version is unchanged has unchanged columns. */
  lemma {:induction false} EveryRunIsLater(db: Db, ops: seq<Op>)
    ensures AllLater(db.tasks, Run(db, ops).tasks)
    decreases |ops|
  {
    hide Later, Apply;
    if ops == [] {
      assert AllLater(db.tasks, db.tasks) by { LaterItself(db.tasks); }
    } else {
      ApplyIsLater(db, ops[0]);
      EveryRunIsLater(Apply(db, ops[0]), ops[1..]);
      var mid, after := Apply(db, ops[0]), Run(db, ops);
      forall t | 0 <= t < |db.tasks| ensures Later(db.tasks[t], after.tasks[t]) {
        LaterLater(db.tasks[t], mid.tasks[t], after.tasks[t]);
      }
    }
  }

  // ---------- one-shot interactions ----------

  /** An accepted answer is used up in the same commit. */
  lemma AcceptedIsConsumed(db: Db, t: nat, i: nat, ticket: Ticket, decision: Decision, resume: TaskState)
    requires Respond(db, t, i, ticket, decision, resume).Ok?
    ensures var after := Respond(db, t, i, ticket, decision, resume).value;
            && t < |after.tasks| && i < |after.tasks[t].interactions|
            && after.tasks[t].interactions[i].status.Consumed?
            && !after.tasks[t].state.Waiting? && after.tasks[t].interaction.None?
  {
    hide Transition;
    var freed := Write(db, t, Freed(db.tasks[t], i, decision)).value;
    TransitionRows(freed, t, AnswerTarget(db.tasks[t].interactions[i].kind, decision, resume), None, None);
  }

  /** However the run goes on, no second answer to the same interaction is ever accepted. */
  lemma AnsweredOnce(db: Db, t: nat, i: nat, ticket: Ticket, decision: Decision, resume: TaskState,
                     ops: seq<Op>, ticket': Ticket, decision': Decision, resume': TaskState)
    requires Respond(db, t, i, ticket, decision, resume).Ok?
    ensures Respond(Run(Respond(db, t, i, ticket, decision, resume).value, ops), t, i, ticket', decision', resume')
            == Err(InteractionRejected)
  {
    hide Respond;
    AcceptedIsConsumed(db, t, i, ticket, decision, resume);
    var after := Respond(db, t, i, ticket, decision, resume).value;
    EveryRunIsLater(after, ops);
    ConsumedIsRefused(Run(after, ops), t, i, ticket', decision', resume');
  }

  lemma ConsumedIsRefused(db: Db, t: nat, i: nat, ticket: Ticket, decision: Decision, resume: TaskState)
    requires t < |db.tasks| && i < |db.tasks[t].interactions| && !db.tasks[t].interactions[i].status.Pending?
    ensures Respond(db, t, i, ticket, decision, resume) == Err(InteractionRejected)
  {
  }

  /** Task `t` has one more interaction after the transaction. */
  predicate Opens(db: Db, op: Op, t: nat) {
    && t < |db.tasks| && t < |Apply(db, op).tasks|
    && |Apply(db, op).tasks[t].interactions| > |db.tasks[t].interactions|
  }

  lemma MoveOpensNone(db: Db, u: nat, target: TaskState, expected: Option<nat>, reason: Option<WaitingReason>, t: nat)
    requires Transition(db, u, target, expected, reason).Ok? && t < |db.tasks|
    ensures var after := Transition(db, u, target, expected, reason).value.tasks;
            t < |after| && |after[t].interactions| == |db.tasks[t].interactions|
  {
    hide Transition;
    TransitionRows(db, u, target, expected, reason);
  }

  /** An interaction is opened by a question or by an attempt that ran out of budget, and may move its task only
      as long as the row keeps the version it has in that very commit. */
  lemma OpenedAtItsVersion(db: Db, op: Op, t: nat)
    requires Opens(db, op, t)
    ensures op.AskFor? || (op.MoveTry? && op.to.BudgetExceeded?)
    ensures var (was, now) := (db.tasks[t], Apply(db, op).tasks[t]);
            && |now.interactions| == |was.interactions| + 1
            && now.interactions[|was.interactions|].target == now.version
  {
    hide Transition;
    match op {
      case MoveTo(u, target, expected, reason) =>
        if Outcome(db, op).Ok? {
          MoveOpensNone(db, u, target, expected, reason, t);
        }
      case Cancel(u) =>
        if RequestCancel(db, u).Ok? && Open(db.tasks[u]) && !db.tasks[u].state.Running? {
          var row := db.tasks[u].(cancel := true, version := db.tasks[u].version + 1);
          MoveOpensNone(Write(db, u, row).value, u, TaskState.Cancelled, Some(row.version), None, t);
        }
      case Resume(u, s, online) =>
        if ResumeEnvironment(db, u, s, online).Ok? && Apply(db, op) != db {
          MoveOpensNone(db, u, TaskState.Queued, Some(db.tasks[u].version), None, t);
        }
      case Reply(u, i, ticket, decision, resume) =>
        if Respond(db, u, i, ticket, decision, resume).Ok? {
          var freed := Write(db, u, Freed(db.tasks[u], i, decision)).value;
          MoveOpensNone(freed, u, AnswerTarget(db.tasks[u].interactions[i].kind, decision, resume), None, None, t);
        }
      case _ =>
    }
  }

  /** An answer is accepted only if nobody has written the task's row since the interaction was opened, be it a
      question somebody put or the one about a spent budget. */
  lemma AcceptedOnlyIfUntouched(db: Db, op: Op, t: nat, ops: seq<Op>, ticket: Ticket, decision: Decision,
                                resume: TaskState)
    requires Opens(db, op, t)
    requires Respond(Run(Apply(db, op), ops), t, |db.tasks[t].interactions|, ticket, decision, resume).Ok?
    ensures var (asked, now) := (Apply(db, op).tasks, Run(Apply(db, op), ops).tasks);
            t < |now| && SameButStatuses(asked[t], now[t])
  {
    hide Transition, Run, Apply;
    OpenedAtItsVersion(db, op, t);
    EveryRunIsLater(Apply(db, op), ops);
  }

  /** In every reachable state a pending interaction is the one its task waits for: leaving WAITING leaves
      none behind, and the interaction a task waits for has not been used. */
  lemma NoLooseEnds(ops: seq<Op>, t: nat)
    requires DisciplinedRun(EMPTY, ops) && t < |Run(EMPTY, ops).tasks|
    ensures var row := Run(EMPTY, ops).tasks[t];
            && (forall i :: 0 <= i < |row.interactions| && row.interactions[i].status.Pending? ==>
                              row.state.Waiting? && row.interaction == Some(i))
            && (row.interaction.Some? ==>
                  && row.state.Waiting? && row.interaction.value < |row.interactions|
                  && !row.interactions[row.interaction.value].status.Consumed?)
  {
    EveryRunKeeps(EMPTY, ops);
  }
}
