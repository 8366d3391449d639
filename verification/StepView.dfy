/** The rail of steps a user sees, computed from a task and its attempts alone, and why it agrees with what
    the interpreter did. */
module StepView {
  import opened Prelude
  import opened States
  import opened TaskRows
  import opened RowProofs
  import opened Packs
  import opened AdvisorSpec
  import opened AdvisorWork
  import opened AdvisorFlow
  import opened AdvisorBounds
  import opened AdvisorRuns

  datatype Outcome = Accepted | Rejected | Failed | OverBudget | Withdrawn | InProgress

  datatype Shown =
    | AcceptedStep | FailedStep | CancelledStep | WentBack | NotReached
    | WaitingStep | Reworking | RunningStep | PendingStep | Redo

  function OutcomeOf(attempt: Attempt): Outcome {
    match attempt.status
    case Completed => Outcome.Accepted
    case Failed => if attempt.failure.Acceptance? then Outcome.Rejected else Outcome.Failed
    case BudgetExceeded => OverBudget
    case Cancelled => Outcome.Withdrawn
    case Abandoned => Outcome.Withdrawn
    case _ => InProgress
  }

  /** The attempts of one step, in the order they were made. */
  function Mine(attempts: seq<Attempt>, id: string): seq<Attempt> {
    if attempts == [] then []
    else
      var last := attempts[|attempts| - 1];
      Mine(attempts[..|attempts| - 1], id) + if last.step == id then [last] else []
  }

  /** How one step is shown, from the outcome of its last attempt. */
  function Show(index: nat, last: Option<Outcome>, state: TaskState, current: nat): Shown {
    if Terminal(state) then
      if last == Some(Outcome.Accepted) && (state.Succeeded? || index < current) then AcceptedStep
      else if index == current && state.Failed? then FailedStep
      else if index == current && state.Cancelled? then CancelledStep
      else if last == Some(Outcome.Rejected) && index > current then WentBack
      else NotReached
    else if index == current then
      if state.Waiting? then WaitingStep
      else if last == Some(Outcome.Rejected) then Reworking
      else RunningStep
    else if index < current then if last == Some(Outcome.Accepted) then AcceptedStep else PendingStep
    else if last == Some(Outcome.Rejected) then WentBack
    else if last == Some(Outcome.Accepted) then Redo
    else PendingStep
  }

  function LastOutcome(mine: seq<Attempt>): Option<Outcome> {
    if mine == [] then None else Some(OutcomeOf(mine[|mine| - 1]))
  }

  function StepStatus(pack: Pack, row: Task, index: nat): Shown
    requires index < |pack|
  {
    Show(index, LastOutcome(Mine(row.attempts, pack[index].id)), row.state, row.cursor)
  }

  /** The whole rail, step by step. */
  method StepsView(pack: Pack, row: Task) returns (out: seq<Shown>)
    ensures |out| == |pack| && forall i :: 0 <= i < |pack| ==> out[i] == StepStatus(pack, row, i)
  {
    out := [];
    for index := 0 to |pack|
      invariant |out| == index && forall i :: 0 <= i < index ==> out[i] == StepStatus(pack, row, i)
    {
      var mine := [];
      for k := 0 to |row.attempts|
        invariant mine == Mine(row.attempts[..k], pack[index].id)
      {
        assert row.attempts[..k + 1][..k] == row.attempts[..k];
        if row.attempts[k].step == pack[index].id {
          mine := mine + [row.attempts[k]];
        }
      }
      assert row.attempts[..|row.attempts|] == row.attempts;
      out := out + [Show(index, LastOutcome(mine), row.state, row.cursor)];
    }
  }

  lemma {:induction false} LastOfMine(attempts: seq<Attempt>, id: string)
    ensures Mine(attempts, id) == [] <==> LastOf(attempts, id).None?
    ensures LastOf(attempts, id).Some? ==>
              Mine(attempts, id)[|Mine(attempts, id)| - 1] == attempts[LastOf(attempts, id).value]
  {
    if attempts != [] {
      LastOfMine(attempts[..|attempts| - 1], id);
    }
  }

  /** Every step before the cursor is shown accepted, finished task or not: the fallback for such a step
      that was not accepted is never reached. A task that succeeded shows every step accepted. */
  lemma BehindTheCursor(pack: Pack, w: World, i: nat)
    requires PackOk(pack) && Reachable(pack, w) && i < |pack|
    requires i < w.row.cursor || w.row.state.Succeeded?
    ensures StepStatus(pack, w.row, i) == AcceptedStep
  {
    ReachableKeeps(pack, w);
    assert UpToDate(pack, w, i);
    LastOfMine(w.row.attempts, pack[i].id);
  }

  /** A step the cursor has not reached is shown as sent back exactly if its newest attempt was not accepted, and then
      it did go back itself; as to be redone exactly if its newest attempt was accepted and the task is unfinished, and
      then a later step did go back; as pending exactly if it was never tried. */
  lemma AheadOfTheCursor(pack: Pack, w: World, i: nat)
    requires PackOk(pack) && Reachable(pack, w) && w.row.cursor < i < |pack|
    ensures var (shown, id) := (StepStatus(pack, w.row, i), pack[i].id);
            && shown in {WentBack, Redo, PendingStep, NotReached}
            && (shown.WentBack? <==> LastIs(w.row.attempts, id, Reject))
            && (shown.Redo? <==> Open(w.row) && LastIs(w.row.attempts, id, Accept))
            && (shown.PendingStep? <==> Open(w.row) && Mine(w.row.attempts, id) == [])
            && (shown.WentBack? ==> id in w.backs)
            && (shown.Redo? ==> SentBackFrom(pack, w.backs, i + 1))
  {
    ReachableKeeps(pack, w);
    assert SentBack(pack, w, i);
    LastOfMine(w.row.attempts, pack[i].id);
  }

  /** The step at the cursor is never shown accepted. In an open task it waits exactly when the task does, and
      is being redone only after it was not accepted; in a finished one it shows how the task ended. */
  lemma AtTheCursor(pack: Pack, w: World)
    requires PackOk(pack) && Reachable(pack, w) && w.row.cursor < |pack|
    ensures var shown := StepStatus(pack, w.row, w.row.cursor);
            && (shown.WaitingStep? <==> w.row.state.Waiting?)
            && (shown.FailedStep? <==> w.row.state.Failed?)
            && (shown.CancelledStep? <==> w.row.state.Cancelled?)
            && (shown.NotReached? <==> w.row.state.Rejected?)
            && (shown.Reworking? <==> Open(w.row) && !w.row.state.Waiting?
                                      && LastIs(w.row.attempts, pack[w.row.cursor].id, Reject))
            && !shown.AcceptedStep?
  {
    ReachableKeeps(pack, w);
    hide WorkInv, RowInv, Bounded;
    LastOfMine(w.row.attempts, pack[w.row.cursor].id);
  }
}
