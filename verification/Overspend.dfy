/** How far a task can be over its limit, and the exact condition on the answers that keep it there. */
module Overspend {
  import opened Prelude
  import opened States
  import opened TaskRows
  import opened RowProofs
  import opened LedgerSpec
  import opened WheelProofs
  import opened LedgerRuns
  import opened History
  import opened Findings

  /** An open capped task is over its limit by no more than what its newest attempt consumed. */
  predicate Modest(row: Task) {
    Open(row) && row.limit.Some? ==> row.used <= row.limit.value + LastConsumed(row)
  }

  /** What a caller can look at before answering: with the top-up the limit covers all but the newest attempt. */
  predicate Covers(row: Task, amount: real) {
    row.used <= (if row.limit.Some? then row.limit.value else 0.0) + amount + LastConsumed(row)
  }

  /** An accepted top-up of task `t` is one that covers; any other transaction will do. */
  predicate Guarded(db: Db, op: Op, t: nat) {
    op.Reply? && op.task == t && Outcome(db, op).Ok? && ToppedUp(db.tasks[t], op.interaction, op.decision) ==>
      Covers(db.tasks[t], op.decision.amount)
  }

  predicate GuardedRun(db: Db, ops: seq<Op>, t: nat)
    decreases |ops|
  {
    ops == [] || (Guarded(db, ops[0], t) && GuardedRun(Apply(db, ops[0]), ops[1..], t))
  }

  predicate ModestAt(db: Db, t: nat) {
    t < |db.tasks| ==> Modest(db.tasks[t])
  }

  /** In the first state of the run and in every one after it. */
  predicate AlwaysModest(db: Db, ops: seq<Op>, t: nat)
    decreases |ops|
  {
    ModestAt(db, t) && (ops == [] || AlwaysModest(Apply(db, ops[0]), ops[1..], t))
  }

  // ---------- one row ----------

  /** The columns the bound is about. */
  predicate SameMoney(was: Task, now: Task) {
    && now.attempts == was.attempts && now.used == was.used && now.limit == was.limit
    && (Open(now) ==> Open(was))
  }

  lemma MoveSpendsNothing(row: Task, target: TaskState, reason: Option<WaitingReason>)
    requires Move(row, target, reason).Ok?
    ensures SameMoney(row, Move(row, target, reason).value)
  {
  }

  /** An opening restores the bound, whatever was before; a charge is the newest attempt's. */
  lemma RowOpIsModest(row: Task, op: Op)
    requires RowOp(op) && RowInv(row) && Modest(row) && RowOutcome(row, op).Ok?
    ensures Modest(RowOutcome(row, op).value)
  {
    hide Booked, WithinLimit, CappedWait, AttemptMoves;
    match op {
      case Begin(_, step, inputs, reserve) =>
        OpenFits(row, step, inputs, reserve);
      case MoveTry(_, a, to, consumed, failure, output) =>
        MovedIs(row, a, to, consumed, failure, output);
        TerminalIsFinal(row.state, row.attempts[a].status);
      case _ =>
    }
  }

  /** An accepted answer keeps the bound exactly if it is no top-up, or one that covers. */
  lemma AnswerIsModest(row: Task, i: nat, ticket: Ticket, decision: Decision, resume: TaskState)
    requires Modest(row) && Answer(row, i, ticket, decision, resume).Ok?
    ensures Modest(Answer(row, i, ticket, decision, resume).value)
       <==> (ToppedUp(row, i, decision) ==> Covers(row, decision.amount))
  {
  }

  // ---------- one transaction ----------

  lemma TransitionIsModest(db: Db, u: nat, target: TaskState, expected: Option<nat>, reason: Option<WaitingReason>,
                           t: nat)
    requires Transition(db, u, target, expected, reason).Ok? && t < |db.tasks|
    ensures var after := Transition(db, u, target, expected, reason).value.tasks;
            t < |after| && SameMoney(db.tasks[t], after[t])
  {
    hide Transition;
    TransitionRows(db, u, target, expected, reason);
    MoveSpendsNothing(db.tasks[u], target, reason);
  }

  lemma ReplyIsModest(db: Db, op: Op, t: nat)
    requires op.Reply? && t < |db.tasks| && Modest(db.tasks[t])
    ensures t < |Apply(db, op).tasks| && (Modest(Apply(db, op).tasks[t]) <==> Guarded(db, op, t))
  {
    hide Transition;
    var Reply(u, i, ticket, decision, resume) := op;
    if Respond(db, u, i, ticket, decision, resume).Ok? {
      var freed := Write(db, u, Freed(db.tasks[u], i, decision)).value;
      var target := AnswerTarget(db.tasks[u].interactions[i].kind, decision, resume);
      TransitionRows(freed, u, target, None, None);
      if u == t {
        AnswerIsModest(db.tasks[t], i, ticket, decision, resume);
      }
    }
  }

  lemma CancelIsModest(db: Db, u: nat, t: nat)
    requires t < |db.tasks|
    ensures t < |Apply(db, Cancel(u)).tasks| && SameMoney(db.tasks[t], Apply(db, Cancel(u)).tasks[t])
  {
    hide Transition;
    if RequestCancel(db, u).Ok? && Open(db.tasks[u]) && !db.tasks[u].state.Running? {
      var row := db.tasks[u].(cancel := true, version := db.tasks[u].version + 1);
      TransitionIsModest(Write(db, u, row).value, u, TaskState.Cancelled, Some(row.version), None, t);
    }
  }

  lemma StepIsExact(db: Db, op: Op, t: nat)
    requires LedgerInv(db) && Disciplined(db, op) && ModestAt(db, t)
    ensures ModestAt(Apply(db, op), t) <==> Guarded(db, op, t)
  {
    hide RowInv, WheelInv, Transition, Respond, RequestCancel, RowOutcome, ActiveTask, Modest;
    if t >= |db.tasks| {
      NewcomerIsModest(db, op, t);
    } else {
      match op {
        case MoveTo(u, target, expected, reason) =>
          if Outcome(db, op).Ok? {
            TransitionIsModest(db, u, target, expected, reason, t);
            SameIsModest(db.tasks[t], Apply(db, op).tasks[t]);
          }
        case Cancel(u) =>
          CancelIsModest(db, u, t);
          SameIsModest(db.tasks[t], Apply(db, op).tasks[t]);
        case Resume(u, s, online) =>
          if ResumeEnvironment(db, u, s, online).Ok? && Apply(db, op) != db {
            TransitionIsModest(db, u, TaskState.Queued, Some(db.tasks[u].version), None, t);
            SameIsModest(db.tasks[t], Apply(db, op).tasks[t]);
          }
        case Reply(_, _, _, _, _) => ReplyIsModest(db, op, t);
        case HandOver(_) => assert Apply(db, op).tasks[t] == db.tasks[t];
        case NewSession(_) =>
        case AttachProject(_, _) =>
        case _ =>
          if op.task == t && Outcome(db, op).Ok? {
            RowOpIsModest(db.tasks[t], op);
          }
      }
    }
  }

  lemma SameIsModest(was: Task, now: Task)
    requires SameMoney(was, now) && Modest(was)
    ensures Modest(now)
  {
  }

  /** A task that is not there yet has spent nothing when it comes. */
  lemma NewcomerIsModest(db: Db, op: Op, t: nat)
    requires t >= |db.tasks| && Disciplined(db, op)
    ensures ModestAt(Apply(db, op), t) && Guarded(db, op, t)
  {
    hide ActiveTask, NextQueued;
    if !op.HandOver? {
      hide Apply;
      OnlyHandoverAddsTasks(db, op);
    }
  }

  // ---------- whole runs ----------

  lemma {:induction false} RunIsExact(db: Db, ops: seq<Op>, t: nat)
    requires LedgerInv(db) && DisciplinedRun(db, ops) && ModestAt(db, t)
    ensures AlwaysModest(db, ops, t) <==> GuardedRun(db, ops, t)
    decreases |ops|
  {
    hide LedgerInv, Disciplined, Apply, Guarded, ModestAt;
    if ops != [] {
      ApplyKeeps(db, ops[0]);
      StepIsExact(db, ops[0], t);
      if Guarded(db, ops[0], t) {
        RunIsExact(Apply(db, ops[0]), ops[1..], t);
      }
    }
  }

  /** An open capped task is over its limit by no more than what its newest attempt consumed, in every state of a
      run, if and only if every top-up of it that was accepted left a limit that covers all but that attempt. */
  lemma OverspendIsOneAttempt(ops: seq<Op>, t: nat)
    requires DisciplinedRun(EMPTY, ops)
    ensures AlwaysModest(EMPTY, ops, t) <==> GuardedRun(EMPTY, ops, t)
  {
    RunIsExact(EMPTY, ops, t);
  }

  // ---------- top-ups that add ----------

  /** No top-up with a negative amount was ever booked. */
  ghost predicate OnlyAdds(journal: seq<Entry>) {
    forall i :: 0 <= i < |journal| && journal[i].kind.Topup? ==> journal[i].amount >= 0.0
  }

  lemma {:induction false} NothingTakenOut(journal: seq<Entry>)
    ensures TakenOut(journal) == 0.0 <==> OnlyAdds(journal)
    ensures TakenOut(journal) >= 0.0
  {
    if journal != [] {
      NothingTakenOut(journal[..|journal| - 1]);
    }
  }

  /** Seen from the journal alone: as long as every top-up added, the bound holds. */
  lemma AddingIsSafe(ops: seq<Op>, t: nat)
    requires DisciplinedRun(EMPTY, ops) && t < |Run(EMPTY, ops).tasks| && OnlyAdds(Run(EMPTY, ops).tasks[t].journal)
    ensures Modest(Run(EMPTY, ops).tasks[t])
  {
    EveryRunKeeps(EMPTY, ops);
    NothingTakenOut(Run(EMPTY, ops).tasks[t].journal);
  }

  // ---------- a limit that is gone ----------

  /** While the budget cannot be read nothing touches it, and no attempt opens. */
  lemma UnreadableStays(db: Db, op: Op, t: nat)
    requires t < |db.tasks| && !Budgeted(db.tasks[t])
    ensures var after := Apply(db, op).tasks;
            && t < |after| && after[t].limit == db.tasks[t].limit
            && |after[t].attempts| == |db.tasks[t].attempts| && after[t].used == db.tasks[t].used
  {
    hide Transition, Respond, RequestCancel, ActiveTask, NextQueued, FindKey;
    match op {
      case MoveTo(u, target, expected, reason) =>
        if Outcome(db, op).Ok? {
          TransitionIsModest(db, u, target, expected, reason, t);
        }
      case Cancel(u) => CancelIsModest(db, u, t);
      case Resume(u, s, online) =>
        if ResumeEnvironment(db, u, s, online).Ok? && Apply(db, op) != db {
          TransitionIsModest(db, u, TaskState.Queued, Some(db.tasks[u].version), None, t);
        }
      case Reply(_, _, _, _, _) => UnreadableReply(db, op, t);
      case _ =>
    }
  }

  lemma UnreadableReply(db: Db, op: Op, t: nat)
    requires op.Reply? && t < |db.tasks| && !Budgeted(db.tasks[t])
    ensures var after := Apply(db, op).tasks;
            && t < |after| && after[t].limit == db.tasks[t].limit
            && |after[t].attempts| == |db.tasks[t].attempts| && after[t].used == db.tasks[t].used
  {
    hide Transition;
    var Reply(u, i, ticket, decision, resume) := op;
    if Respond(db, u, i, ticket, decision, resume).Ok? {
      var freed := Write(db, u, Freed(db.tasks[u], i, decision)).value;
      TransitionIsModest(freed, u, AnswerTarget(db.tasks[u].interactions[i].kind, decision, resume), None, None, t);
    }
  }

  lemma {:induction false} UnreadableForever(db: Db, ops: seq<Op>, t: nat)
    requires t < |db.tasks| && !Budgeted(db.tasks[t])
    ensures var after := Run(db, ops).tasks;
            && t < |after| && after[t].limit == db.tasks[t].limit
            && |after[t].attempts| == |db.tasks[t].attempts| && after[t].used == db.tasks[t].used
    decreases |ops|
  {
    hide Apply;
    if ops != [] {
      UnreadableStays(db, ops[0], t);
      UnreadableForever(Apply(db, ops[0]), ops[1..], t);
    }
  }

  /** An accepted top-up leaves a budget that can be read exactly if something is left of the limit. If nothing
      is, then whatever anybody does afterwards, no attempt of the task ever opens again and none is charged. */
  lemma TopupBelowZeroBreaks(db: Db, t: nat, i: nat, ticket: Ticket, amount: real, resume: TaskState, ops: seq<Op>)
    requires Respond(db, t, i, ticket, TopupBy(amount), resume).Ok?
    requires db.tasks[t].interactions[i].kind.ToppingUp? && db.tasks[t].limit.Some?
    ensures var after := Respond(db, t, i, ticket, TopupBy(amount), resume).value;
            var later := Run(after, ops).tasks;
            && t < |after.tasks| && t < |later|
            && (Budgeted(after.tasks[t]) <==> db.tasks[t].limit.value + amount > 0.0)
            && (db.tasks[t].attempt.None? ==>
                  forall step, inputs, reserve ::
                    OpenAttempt(after.tasks[t], step, inputs, reserve) == Err(InvalidBudget)
                    <==> db.tasks[t].limit.value + amount <= 0.0)
            && (!Budgeted(after.tasks[t]) ==>
                  && |later[t].attempts| == |db.tasks[t].attempts| && later[t].used == db.tasks[t].used
                  && forall step, inputs, reserve :: OpenAttempt(later[t], step, inputs, reserve).Err?)
  {
    hide Transition, Run, Respond;
    var op := Reply(t, i, ticket, TopupBy(amount), resume);
    var after := Respond(db, t, i, ticket, TopupBy(amount), resume).value;
    TopupWrites(db, t, i, ticket, amount, resume);
    if !Budgeted(after.tasks[t]) {
      UnreadableForever(after, ops, t);
    } else {
      EveryRunIsLater(after, ops);
    }
  }

  lemma TopupWrites(db: Db, t: nat, i: nat, ticket: Ticket, amount: real, resume: TaskState)
    requires Respond(db, t, i, ticket, TopupBy(amount), resume).Ok?
    requires db.tasks[t].interactions[i].kind.ToppingUp? && db.tasks[t].limit.Some?
    ensures var after := Respond(db, t, i, ticket, TopupBy(amount), resume).value.tasks;
            && t < |after| && after[t].limit == Some(db.tasks[t].limit.value + amount)
            && after[t].attempts == db.tasks[t].attempts && after[t].used == db.tasks[t].used
            && after[t].attempt == db.tasks[t].attempt
  {
    hide Transition;
    var freed := Write(db, t, Freed(db.tasks[t], i, TopupBy(amount))).value;
    TransitionRows(freed, t, TaskState.Queued, None, None);
  }

  // ---------- a run outside the condition ----------

  /** A ledger of one task, in a conversation that has handed over its wheel. */
  function Alone(row: Task): Db {
    Db([BUSY], [row])
  }

  lemma AloneRewrites(row: Task, op: Op)
    requires RowOp(op) && op.task == 0 && RowOutcome(row, op).Ok?
    ensures Apply(Alone(row), op) == Alone(RowOutcome(row, op).value)
  {
    hide RowOutcome;
  }

  lemma AloneMoves(row: Task, target: TaskState)
    requires Move(row, target, None).Ok? && !Terminal(target)
    ensures Apply(Alone(row), MoveTo(0, target, None, None)) == Alone(Move(row, target, None).value)
  {
  }

  lemma AloneAnswers(row: Task, ticket: Ticket, decision: Decision)
    requires Answer(row, 0, ticket, decision, TaskState.Queued).Ok?
    requires !Terminal(Answer(row, 0, ticket, decision, TaskState.Queued).value.state)
    ensures Apply(Alone(row), Reply(0, 0, ticket, decision, TaskState.Queued))
         == Alone(Answer(row, 0, ticket, decision, TaskState.Queued).value)
  {
  }

  lemma StepRow(ops: seq<Op>, row: Task, op: Op) returns (more: seq<Op>, after: Task)
    requires Run(EMPTY, ops) == Alone(row) && RowOp(op) && op.task == 0 && RowOutcome(row, op).Ok?
    ensures RowOutcome(row, op) == Ok(after)
    ensures more == ops + [op] && Run(EMPTY, more) == Alone(after)
    ensures DisciplinedRun(EMPTY, more) <==> DisciplinedRun(EMPTY, ops) && Disciplined(Alone(row), op)
  {
    hide Run, DisciplinedRun, Apply, RowOutcome, Disciplined;
    AloneRewrites(row, op);
    var db;
    more, db := Step(ops, Alone(row), op);
    after := RowOutcome(row, op).value;
  }

  /** A task with a limit of 10, ready for its first step. */
  lemma Queued() returns (ops: seq<Op>, row: Task)
    ensures DisciplinedRun(EMPTY, ops) && Run(EMPTY, ops) == Alone(row)
    ensures row.state.Queued? && row.attempt.None? && row.interaction.None? && row.interactions == []
    ensures row.attempts == [] && (row.limit, row.used, row.reserved) == (Some(10.0), 0.0, 0.0)
  {
    hide Run, DisciplinedRun;
    NoOps();
    var db;
    ops, db := Step([], EMPTY, NewSession(Some(0)));
    ops, db := Step(ops, db, HandOverFrom(0, Some(10.0), false));
    row := NewTask(0, 0, 0, 0, Some(10.0), false);
    assert db == Alone(row);
    hide Apply;
    AloneMoves(row, TaskState.Validating);
    ops, db := Step(ops, db, MoveTo(0, TaskState.Validating, None, None));
    row := Move(row, TaskState.Validating, None).value;
    AloneMoves(row, TaskState.Queued);
    ops, db := Step(ops, db, MoveTo(0, TaskState.Queued, None, None));
    row := Move(row, TaskState.Queued, None).value;
  }

  /** Its first step spends 6, and 5 were reserved for it. */
  lemma FirstStepSpent() returns (ops: seq<Op>, row: Task)
    ensures DisciplinedRun(EMPTY, ops) && Run(EMPTY, ops) == Alone(row)
    ensures row.state.Running? && row.attempt.None? && row.interaction.None? && row.interactions == []
    ensures |row.attempts| == 1 && (row.limit, row.used, row.reserved) == (Some(10.0), 6.0, 0.0)
  {
    hide Run, DisciplinedRun;
    ops, row := Queued();
    ops, row := StepRow(ops, row, Begin(0, "a", [], 5.0));
    assert row.attempts[0].status.Created?;
    ops, row := StepRow(ops, row, MoveTry(0, 0, AttemptState.Running, 0.0, NoCode, None));
    assert row.attempts[0].status.Running? && row.attempts[0].granted == 5.0;
    ops, row := StepRow(ops, row, MoveTry(0, 0, AttemptState.Completed, 6.0, NoCode, None));
  }

  /** Its second step runs out of budget, and the user is asked. */
  lemma SecondStepStopped() returns (ops: seq<Op>, row: Task)
    ensures DisciplinedRun(EMPTY, ops) && Run(EMPTY, ops) == Alone(row)
    ensures row.state.Waiting? && row.attempt.None? && (row.limit, row.used) == (Some(10.0), 6.0)
    ensures LastConsumed(row) == 0.0 && Answerable(row, 0, Ticket(true, true, true))
    ensures row.interactions[0].kind.ToppingUp?
  {
    hide Run, DisciplinedRun;
    ops, row := FirstStepSpent();
    ops, row := StepRow(ops, row, Begin(0, "b", [], 4.0));
    assert row.attempts[1].status.Created?;
    ops, row := StepRow(ops, row, MoveTry(0, 1, AttemptState.Running, 0.0, NoCode, None));
    assert row.attempts[1].status.Running? && row.state.Running? && row.reserved == 4.0;
    ops, row := StepRow(ops, row, MoveTry(0, 1, AttemptState.BudgetExceeded, 0.0, NoCode, None));
  }

  /** Any amount is accepted as the answer. One below -4 breaks the bound with nothing consumed since, and from -10
      down the task is queued for good. */
  lemma AnyTopupIsAccepted(amount: real) returns (ops: seq<Op>)
    ensures DisciplinedRun(EMPTY, ops) && |Run(EMPTY, ops).tasks| == 1
    ensures var row := Run(EMPTY, ops).tasks[0];
            && row.state.Queued? && row.limit == Some(10.0 + amount) && row.used == 6.0 && LastConsumed(row) == 0.0
            && (Modest(row) <==> amount >= -4.0) && (Budgeted(row) <==> amount > -10.0)
    ensures amount < -4.0 ==> !GuardedRun(EMPTY, ops, 0)
  {
    hide Run, DisciplinedRun, GuardedRun, AlwaysModest, Total, TotalOf, TakenOut, Apply;
    var row, db;
    ops, row := SecondStepStopped();
    AloneAnswers(row, Ticket(true, true, true), TopupBy(amount));
    ops, db := Step(ops, Alone(row), Reply(0, 0, Ticket(true, true, true), TopupBy(amount), TaskState.Queued));
    OverspendIsOneAttempt(ops, 0);
    if GuardedRun(EMPTY, ops, 0) {
      LastOfAlways(EMPTY, ops, 0);
    }
  }

  lemma {:induction false} LastOfAlways(db: Db, ops: seq<Op>, t: nat)
    requires AlwaysModest(db, ops, t)
    ensures ModestAt(Run(db, ops), t)
    decreases |ops|
  {
    if ops != [] {
      LastOfAlways(Apply(db, ops[0]), ops[1..], t);
    }
  }
}
