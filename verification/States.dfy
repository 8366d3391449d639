/** The state words of a task and of an attempt, and the moves between them. */
module States {
  import opened Prelude

  datatype TaskState =
    | Received | Validating | Queued | Running | Waiting
    | Succeeded | Rejected | Failed | Cancelled

  datatype WaitingReason = Input | Approval | Resource | Environment

  datatype AttemptState =
    | Created | Running | Suspended
    | Completed | Failed | BudgetExceeded | Cancelled | Abandoned

  datatype Wheel = User | Advisor

  function TaskMoves(state: TaskState): set<TaskState> {
    match state
    case Received => {TaskState.Validating, TaskState.Cancelled}
    case Validating => {TaskState.Queued, TaskState.Waiting, TaskState.Rejected, TaskState.Cancelled}
    case Queued => {TaskState.Running, TaskState.Waiting, TaskState.Failed, TaskState.Cancelled}
    case Running =>
      {TaskState.Queued, TaskState.Waiting, TaskState.Succeeded, TaskState.Failed, TaskState.Cancelled}
    case Waiting => {TaskState.Validating, TaskState.Queued, TaskState.Failed, TaskState.Cancelled}
    case _ => {}
  }

  function AttemptMoves(state: AttemptState): set<AttemptState> {
    match state
    case Created => {AttemptState.Running, AttemptState.Cancelled, AttemptState.Failed}
    case Running =>
      {AttemptState.Suspended, AttemptState.Completed, AttemptState.Failed,
       AttemptState.BudgetExceeded, AttemptState.Cancelled}
    case Suspended => {AttemptState.Running, AttemptState.Abandoned, AttemptState.Cancelled}
    case _ => {}
  }

  predicate Terminal(state: TaskState) {
    state.Succeeded? || state.Rejected? || state.Failed? || state.Cancelled?
  }

  predicate Ended(state: AttemptState) {
    state.Completed? || state.Failed? || state.BudgetExceeded? || state.Cancelled? || state.Abandoned?
  }

  /** The check every writer goes through: the move is in the table, and WAITING says what for. */
  predicate ValidMove(current: TaskState, target: TaskState, reason: Option<WaitingReason>) {
    target in TaskMoves(current) && (target.Waiting? ==> reason.Some?)
  }

  function WheelAfter(state: TaskState): Option<Wheel> {
    if Terminal(state) then Some(User) else None
  }

  /** Terminal words are exactly the ones with no way out, for tasks and for attempts alike. */
  lemma TerminalIsFinal(task: TaskState, attempt: AttemptState)
    ensures Terminal(task) <==> TaskMoves(task) == {}
    ensures Ended(attempt) <==> AttemptMoves(attempt) == {}
  {
    assert task.Received? ==> TaskState.Validating in TaskMoves(task);
    assert task.Validating? || task.Waiting? || task.Running? ==> TaskState.Queued in TaskMoves(task);
    assert task.Queued? ==> TaskState.Running in TaskMoves(task);
    assert attempt.Created? || attempt.Suspended? ==> AttemptState.Running in AttemptMoves(attempt);
    assert attempt.Running? ==> AttemptState.Failed in AttemptMoves(attempt);
  }

  /** The moves of a task read from the other end: only a running task succeeds, only the queue leads to running, only
      a task being validated is rejected, any open one can be cancelled, and none is received twice. */
  lemma WaysIn(from: TaskState, to: TaskState, reason: Option<WaitingReason>)
    ensures ValidMove(from, to, reason)
       <==> match to
            case Received => false
            case Validating => from.Received? || from.Waiting?
            case Queued => from.Validating? || from.Running? || from.Waiting?
            case Running => from.Queued?
            case Waiting => (from.Validating? || from.Queued? || from.Running?) && reason != None
            case Succeeded => from.Running?
            case Rejected => from.Validating?
            case Failed => from.Queued? || from.Running? || from.Waiting?
            case Cancelled => !Terminal(from)
  {
  }

  /** And those of an attempt: only a running one completes or spends too much, only a suspended one is abandoned. */
  lemma AttemptWaysIn(from: AttemptState, to: AttemptState)
    ensures to in AttemptMoves(from)
       <==> match to
            case Created => false
            case Running => from.Created? || from.Suspended?
            case Suspended => from.Running?
            case Completed => from.Running?
            case Failed => from.Created? || from.Running?
            case BudgetExceeded => from.Running?
            case Cancelled => !Ended(from)
            case Abandoned => from.Suspended?
  {
  }
}
