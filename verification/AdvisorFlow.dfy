/** The task row under the driver: the ledger's invariant holds in every run without any promise from its
    callers, and where the driver is agrees with the state of the task. */
module AdvisorFlow {
  import opened Prelude
  import opened States
  import opened TaskRows
  import opened RowProofs
  import opened Packs
  import opened AdvisorSpec
  import opened AdvisorWork
  import LedgerRuns

  predicate AtTheDoor(pc: Pc) {
    pc.Idle? || pc.Begin? || pc.Admit? || pc.Enqueue? || pc.Check?
  }

  /** Before the task is first queued. */
  predicate Entering(pc: Pc) {
    pc.Idle? || pc.Begin? || pc.Admit? || pc.Enqueue?
  }

  /** Where the driver can be, given the row. */
  ghost predicate Placed(pack: Pack, w: World) {
    && (w.row.state.Received? || w.row.state.Validating? ==> Entering(w.pc) && w.row.attempts == [])
    && (w.pc.Admit? || w.pc.Enqueue? ==> w.row.attempts == [])
    && (w.pc.Admit? || w.pc.Enqueue? ==> w.row.state.Validating? || Terminal(w.row.state))
    && (w.row.state.Succeeded? ==> w.row.cursor == |pack| && (w.pc.Idle? || w.pc.Begin? || w.pc.Check?))
    && (w.pc.HardStop? ==> w.row.limit.Some?)
    && (w.pc.Settle? && w.pc.branch.Overspent? ==> w.row.limit.Some?)
    && (w.pc.Settle? && w.pc.branch == Interrupted(true) ==> Terminal(w.row.state))
  }

  // ---------- the row's own invariant ----------

  lemma OthersKeepRow(row: Task, other: Other)
    requires RowInv(row)
    ensures RowInv(RowAfter(row, other))
  {
    hide RowInv;
    match other {
      case Cancel =>
        LedgerRuns.ColumnsKeep(row, true, row.cursor);
        var flagged := row.(cancel := true, version := row.version + 1);
        if Move(flagged, TaskState.Cancelled, None).Ok? {
          MoveKeeps(flagged, TaskState.Cancelled, None);
        }
      case Answered(i, ticket, decision) =>
        if Answer(row, i, ticket, decision, TaskState.Queued).Ok? {
          AnswerKeeps(row, i, ticket, decision, TaskState.Queued);
        }
      case EnvironmentBack(_) =>
        if row.interaction.None? && Move(row, TaskState.Queued, None).Ok? {
          MoveKeeps(row, TaskState.Queued, None);
        }
      case ApprovalsExpire => ExpireKeeps(row);
      case ThreadMoves => LedgerRuns.ColumnsKeep(row, row.cancel, row.cursor);
      case TurnComes =>
        if QueuedBehind(row) {
          LedgerRuns.UntaggedKeeps(row);
        }
      case TurnAsks(kind, why, step) =>
        if RowAfter(row, other) != row {
          AskKeeps(row, kind, why, step, false);
        }
    }
  }

  lemma SettlingKeepsRow(pack: Pack, w: World)
    requires RowInv(w.row) && Placed(pack, w) && w.pc.Settle? && w.pc.i < |pack|
    ensures RowInv(SettleAs(pack, w).row)
  {
    hide RowInv, MoveAttempt;
    var Settle(i, a, reworks, turn, branch) := w.pc;
    forall target: AttemptState, failure: Failure, output: Option<(string, nat)>
      ensures MoveAttempt(w.row, a, target, turn.cost, failure, output).Ok?
              && (target.BudgetExceeded? ==> w.row.limit.Some?) ==>
                RowInv(MoveAttempt(w.row, a, target, turn.cost, failure, output).value)
    {
      if && MoveAttempt(w.row, a, target, turn.cost, failure, output).Ok?
         && (target.BudgetExceeded? ==> w.row.limit.Some?)
      {
        MoveAttemptKeeps(w.row, a, target, turn.cost, failure, output);
      }
    }
  }

  /** A state move by the driver never takes a task out of a wait it should be answered out of. */
  lemma DriverMovesKeepRow(pack: Pack, w: World, target: TaskState, reason: Option<WaitingReason>)
    requires RowInv(w.row) && Move(w.row, target, reason).Ok?
    requires (w.row.state.Waiting? && !Terminal(target) ==> false) && reason != Some(Resource)
    ensures RowInv(Move(w.row, target, reason).value)
  {
    MoveKeeps(w.row, target, reason);
  }

  lemma TickKeepsRow(pack: Pack, w: World, admitted: bool, turn: Turn)
    requires RowInv(w.row) && Placed(pack, w)
    ensures RowInv(Tick(pack, w, admitted, turn).row)
  {
    hide RowInv, MoveAttempt, OpenAttempt, SettleAs, Inputs, Failures;
    var row := w.row;
    LedgerRuns.ColumnsKeep(row, row.cancel, row.cursor);
    if Tick(pack, w, admitted, turn).row != row {
      match w.pc {
        case Begin => DriverMovesKeepRow(pack, w, TaskState.Validating, None);
        case Admit => if !admitted { DriverMovesKeepRow(pack, w, TaskState.Rejected, None); }
        case Enqueue => DriverMovesKeepRow(pack, w, TaskState.Queued, None);
        case Opening(i, inputs, _) => OpenAttemptKeeps(row, pack[i].id, inputs, pack[i].reserve);
        case HardStop => AskKeeps(row, ToppingUp, Resource, "", false);
        case Unask(_, a) => MoveAttemptKeeps(row, a, AttemptState.Cancelled, 0.0, AskedFirst, None);
        case AskFirst(i) => AskKeeps(row, Question, Input, pack[i].id, true);
        case InTurn(_, a, _) => MoveAttemptKeeps(row, a, AttemptState.Running, 0.0, NoCode, None);
        case Settle(_, _, _, _, _) => SettlingKeepsRow(pack, w);
        case Advance(_) => LedgerRuns.ColumnsKeep(row, row.cancel, row.cursor + 1);
        case Judged(i, _, _, _) =>
          LedgerRuns.ColumnsKeep(row, row.cancel, IndexOf(pack, pack[i].backTo.value).value);
        case Requeue => DriverMovesKeepRow(pack, w, TaskState.Queued, None);
        case AskUser(i) => AskKeeps(row, InputWanted, Input, pack[i].id, false);
        case WaitEnvironment => DriverMovesKeepRow(pack, w, TaskState.Waiting, Some(Environment));
        case CancelTask => DriverMovesKeepRow(pack, w, TaskState.Cancelled, None);
        case FailTask => DriverMovesKeepRow(pack, w, TaskState.Failed, None);
        case Close => DriverMovesKeepRow(pack, w, TaskState.Running, None);
        case Succeed => DriverMovesKeepRow(pack, w, TaskState.Succeeded, None);
        case _ =>
      }
    }
  }

  // ---------- the driver's place ----------

  /** Other writers leave a finished task finished, keep a limit once there is one, and put a task into
      a wait only after its first attempt. */
  ghost predicate Undisturbed(row: Task, after: Task) {
    && after.attempts == row.attempts && after.cursor == row.cursor
    && (row.limit.Some? ==> after.limit.Some?)
    && (Terminal(row.state) ==> after.state == row.state)
    && (after.state == row.state || after.state.Cancelled?
        || (after.state.Waiting? && row.attempts != [])
        || (row.state.Waiting? && (after.state.Queued? || after.state.Failed?)))
  }

  lemma OthersDoNotDisturb(row: Task, other: Other)
    requires OneWait(row)
    ensures Undisturbed(row, RowAfter(row, other))
  {
    match other {
      case Answered(i, ticket, decision) =>
        if Answer(row, i, ticket, decision, TaskState.Queued).Ok? {
          assert row.state.Waiting?;
        }
      case _ =>
    }
  }

  lemma OthersKeepPlace(pack: Pack, w: World, other: Other)
    requires RowInv(w.row) && Placed(pack, w)
    ensures Placed(pack, Elsewhere(w, other))
  {
    hide RowAfter;
    OthersDoNotDisturb(w.row, other);
  }

  lemma MovedState(row: Task, a: nat, target: AttemptState, cost: Amount, failure: Failure,
                   output: Option<(string, nat)>)
    requires MoveAttempt(row, a, target, cost, failure, output).Ok?
    ensures var after := MoveAttempt(row, a, target, cost, failure, output).value;
            && after.state == (if target.BudgetExceeded? then TaskState.Waiting else row.state)
            && after.limit == row.limit && after.cursor == row.cursor && after.cancel == row.cancel
            && after.attempts != []
  {
    MovedIs(row, a, target, cost, failure, output);
  }

  lemma SettleKeepsPlace(pack: Pack, w: World)
    requires PackOk(pack) && WorkInv(pack, w) && Placed(pack, w) && w.pc.Settle?
    ensures w.pc.i < |pack| && Placed(pack, SettleAs(pack, w))
  {
    hide MoveAttempt, Steps, UpToDate, SentBack;
    var Settle(i, a, reworks, turn, branch) := w.pc;
    forall target: AttemptState, failure: Failure, output: Option<(string, nat)>
      ensures MoveAttempt(w.row, a, target, turn.cost, failure, output).Ok? ==>
                var after := MoveAttempt(w.row, a, target, turn.cost, failure, output).value;
                && after.state == (if target.BudgetExceeded? then TaskState.Waiting else w.row.state)
                && after.limit == w.row.limit && after.attempts != [] && after.cursor == w.row.cursor
    {
      if MoveAttempt(w.row, a, target, turn.cost, failure, output).Ok? {
        MovedState(w.row, a, target, turn.cost, failure, output);
      }
    }
  }

  lemma OpenKeepsPlace(pack: Pack, w: World)
    requires WorkInv(pack, w) && Placed(pack, w) && w.pc.Opening?
    ensures w.pc.i < |pack| && Placed(pack, OpenStep(pack, w))
  {
    hide Steps, Inputs, Failures;
  }

  lemma DoorKeepsPlace(pack: Pack, w: World, admitted: bool, turn: Turn)
    requires WorkInv(pack, w) && Placed(pack, w) && AtTheDoor(w.pc)
    ensures Placed(pack, Tick(pack, w, admitted, turn))
  {
    StepsBound(pack, w);
    hide Steps, Locals, Failures, Inputs, TaskMoves;
  }

  /** The actions that move the task, ask, or only read. */
  lemma PlainKeepsPlace(pack: Pack, w: World, admitted: bool, turn: Turn)
    requires WorkInv(pack, w) && Placed(pack, w) && !AtTheDoor(w.pc)
    requires !w.pc.Settle? && !w.pc.Opening? && !w.pc.Unask? && !w.pc.InTurn? && !w.pc.Judged?
    ensures Placed(pack, Tick(pack, w, admitted, turn))
  {
    forall target: TaskState, reason: Option<WaitingReason>
      ensures Move(w.row, target, reason).Ok? ==> Put(w.row, Move(w.row, target, reason).value, target)
    {
    }
    forall kind: Kind, why: WaitingReason, step: string, first: bool
      ensures Ask(w.row, kind, why, step, first).Ok? ==>
                Put(w.row, Ask(w.row, kind, why, step, first).value, TaskState.Waiting)
    {
    }
    hide Move, Ask, Steps, UpToDate, Failures, Inputs, TaskMoves, AnsweredFirst;
  }

  lemma JudgeKeepsPlace(pack: Pack, w: World)
    requires WorkInv(pack, w) && Placed(pack, w) && w.pc.Judged?
    ensures w.pc.i < |pack| && Placed(pack, Judge(pack, w))
  {
    hide Steps, UpToDate, Failures, Inputs, LastOf, TimesBack;
  }

  predicate Put(row: Task, after: Task, state: TaskState) {
    after.state == state && after.attempts == row.attempts && after.cursor == row.cursor && after.limit == row.limit
  }

  lemma TickKeepsPlace(pack: Pack, w: World, admitted: bool, turn: Turn)
    requires PackOk(pack) && WorkInv(pack, w) && Placed(pack, w)
    ensures Placed(pack, Tick(pack, w, admitted, turn))
  {
    hide MoveAttempt, SettleAs, OpenStep, Steps, PackOk, UpToDate, Failures, Inputs, TaskMoves, Judge, CheckStep, Move,
      Ask;
    match w.pc {
      case Settle(_, _, _, _, _) => SettleKeepsPlace(pack, w);
      case Opening(_, _, _) => OpenKeepsPlace(pack, w);
      case Judged(_, _, _, _) => JudgeKeepsPlace(pack, w);
      case Unask(_, a) =>
        if MoveAttempt(w.row, a, AttemptState.Cancelled, 0.0, AskedFirst, None).Ok? {
          MovedState(w.row, a, AttemptState.Cancelled, 0.0, AskedFirst, None);
        }
      case InTurn(_, a, _) =>
        if MoveAttempt(w.row, a, AttemptState.Running, 0.0, NoCode, None).Ok? {
          MovedState(w.row, a, AttemptState.Running, 0.0, NoCode, None);
        }
      case _ =>
        if AtTheDoor(w.pc) {
          DoorKeepsPlace(pack, w, admitted, turn);
        } else {
          PlainKeepsPlace(pack, w, admitted, turn);
        }
    }
  }
}
