/** The advisor as a state machine: the interpreter of an expert pack, one store action per step, with the
    local variables it holds between two actions. Anything may happen between two steps: a crash, an
    answer, a cancel, a question the running turn asks. */
module AdvisorSpec {
  import opened Prelude
  import opened States
  import opened TaskRows
  import opened Packs

  /** How a turn came back, and what the acceptance rules made of it. */
  datatype Turn = Turn(cost: Amount, stopped: bool, lost: bool, failed: bool, accepted: bool, noData: bool)

  datatype Branch = Interrupted(over: bool) | StoppedByUser | Lost | Errored | Overspent | Accepted | Refused

  /** Where the driver is. `i` is the step, `a` its attempt, `reworks` how often the step had failed before. */
  datatype Pc =
    | Idle                 // nobody drives
    | Begin                // driving starts, or the task has just become VALIDATING
    | Admit                // the task was found VALIDATING
    | Enqueue              // its workflow is bound
    | Check                // the head of the loop
    | Opening(i: nat, inputs: seq<(string, nat)>, reworks: nat)
    | HardStop             // the budget does not cover the next attempt
    | Began(i: nat, a: nat, reworks: nat)
    | Unask(i: nat, a: nat)      // the step asks first: its attempt is withdrawn
    | AskFirst(i: nat)
    | InTurn(i: nat, a: nat, reworks: nat)
    | Read(i: nat, a: nat, reworks: nat, turn: Turn)
    | Settle(i: nat, a: nat, reworks: nat, turn: Turn, branch: Branch)
    | Advance(i: nat)      // accepted, the cursor still to move
    | Judged(i: nat, a: nat, reworks: nat, noData: bool)     // not accepted
    | Requeue
    | AskUser(i: nat)
    | WaitEnvironment
    | CancelTask
    | FailTask
    | File                 // every step accepted: the hand-back is filed
    | Close
    | Succeed

  datatype World = World(
    row: Task,
    arts: map<string, nat>,     // the latest version of every artifact
    backs: seq<string>,         // the steps that went back, one entry a time
    pc: Pc,
    turns: nat,
    resumes: nat,
    crashes: nat)

  // ---------- what a step finds ----------

  function Failures(attempts: seq<Attempt>, id: string): nat {
    if attempts == [] then 0
    else
      var last := attempts[|attempts| - 1];
      Failures(attempts[..|attempts| - 1], id)
      + (if last.step == id && last.status.Failed? && last.failure.Acceptance? then 1 else 0)
  }

  function TimesBack(backs: seq<string>, id: string): nat {
    if backs == [] then 0
    else TimesBack(backs[..|backs| - 1], id) + (if backs[|backs| - 1] == id then 1 else 0)
  }

  /** The newest version of every input a step reads. */
  function Inputs(refs: seq<string>, arts: map<string, nat>): Option<seq<(string, nat)>> {
    if refs == [] then Some([])
    else
      var before := Inputs(refs[..|refs| - 1], arts);
      var name := refs[|refs| - 1];
      if before.None? || name !in arts then None else Some(before.value + [(name, arts[name])])
  }

  predicate AnsweredFirst(row: Task, id: string) {
    exists k :: 0 <= k < |row.interactions|
                && row.interactions[k].kind.Question? && row.interactions[k].askBefore
                && row.interactions[k].status.Consumed? && row.interactions[k].step == id
  }

  function NextVersion(arts: map<string, nat>, name: string): nat {
    if name in arts then arts[name] + 1 else 1
  }

  // ---------- the driver ----------

  /** The driver stops with an exception, or its process dies. */
  function Die(w: World): World {
    w.(pc := Idle, crashes := w.crashes + 1)
  }

  /** A write of the task row; a refused one raises. */
  function Wrote(w: World, r: Result<Task>, next: Pc): World {
    if r.Ok? then w.(row := r.value, pc := next) else Die(w)
  }

  function Branching(row: Task, turn: Turn): Branch {
    if row.cancel then Interrupted(Terminal(row.state))
    else if turn.stopped then StoppedByUser
    else if turn.lost then Lost
    else if turn.failed then Errored
    else if row.limit.Some? && turn.cost > row.limit.value - row.used then Overspent
    else if turn.accepted then Accepted
    else Refused
  }

  function SettleAs(pack: Pack, w: World): World
    requires w.pc.Settle? && w.pc.i < |pack|
  {
    var Settle(i, a, reworks, turn, branch) := w.pc;
    match branch
    case Interrupted(over) =>
      Wrote(w, MoveAttempt(w.row, a, AttemptState.Cancelled, turn.cost, CancelledByUser, None),
            if over then Idle else CancelTask)
    case StoppedByUser =>
      Wrote(w, MoveAttempt(w.row, a, AttemptState.Failed, turn.cost, Stopped, None), AskUser(i))
    case Lost =>
      Wrote(w, MoveAttempt(w.row, a, AttemptState.Failed, turn.cost, EnvironmentLost, None), WaitEnvironment)
    case Errored =>
      Wrote(w, MoveAttempt(w.row, a, AttemptState.Failed, turn.cost, TurnError, None), FailTask)
    case Overspent =>
      Wrote(w, MoveAttempt(w.row, a, AttemptState.BudgetExceeded, turn.cost, NoCode, None), Idle)
    case Accepted =>
      var version := NextVersion(w.arts, pack[i].output);
      var r := MoveAttempt(w.row, a, AttemptState.Completed, turn.cost, NoCode, Some((pack[i].output, version)));
      if r.Err? then Die(w) else w.(row := r.value, arts := w.arts[pack[i].output := version], pc := Advance(i))
    case Refused =>
      Wrote(w, MoveAttempt(w.row, a, AttemptState.Failed, turn.cost, Acceptance, None),
            Judged(i, a, reworks, turn.noData))
  }

  function Judge(pack: Pack, w: World): World
    requires w.pc.Judged? && w.pc.i < |pack|
  {
    var Judged(i, a, reworks, noData) := w.pc;
    var step := pack[i];
    if noData then w.(pc := AskUser(i))
    else if reworks < step.maxReworks then w.(pc := Requeue)
    else if GoesBack(step) && TimesBack(w.backs, step.id) < step.maxBacks then
      var target := IndexOf(pack, step.backTo.value);
      if target.None? then Die(w)
      else
        w.(backs := w.backs + [step.id], row := w.row.(cursor := target.value, version := w.row.version + 1),
           pc := Requeue)
    else w.(pc := AskUser(i))
  }

  function CheckStep(pack: Pack, w: World): World {
    var row := w.row;
    if !row.state.Queued? && !row.state.Running? then w.(pc := Idle)
    else if row.cancel then w.(pc := CancelTask)
    else if row.cursor >= |pack| then w.(pc := File)
    else
      var step := pack[row.cursor];
      var inputs := Inputs(step.inputRefs, w.arts);
      if inputs.None? then w.(pc := FailTask)
      else w.(pc := Opening(row.cursor, inputs.value, Failures(row.attempts, step.id)))
  }

  function OpenStep(pack: Pack, w: World): World
    requires w.pc.Opening? && w.pc.i < |pack|
  {
    var Opening(i, inputs, reworks) := w.pc;
    var r := OpenAttempt(w.row, pack[i].id, inputs, pack[i].reserve);
    if r == Err(BudgetExhausted) then w.(pc := HardStop) else Wrote(w, r, Began(i, |w.row.attempts|, reworks))
  }

  /** One action of the driver. A pack keeps to its steps, so `i` is one of them. */
  function Tick(pack: Pack, w: World, admitted: bool, turn: Turn): World {
    var row := w.row;
    match w.pc
    case Idle => w
    case Begin =>
      if row.state.Received? then Wrote(w, Move(row, TaskState.Validating, None), Begin)
      else w.(pc := if row.state.Validating? then Admit else Check)
    case Admit =>
      if !admitted then Wrote(w, Move(row, TaskState.Rejected, None), Idle)
      else w.(row := row.(version := row.version + 1), pc := Enqueue)
    case Enqueue => Wrote(w, Move(row, TaskState.Queued, None), Check)
    case Check => CheckStep(pack, w)
    case Opening(i, _, _) => if i < |pack| then OpenStep(pack, w) else Die(w)
    case HardStop => Wrote(w, Ask(row, ToppingUp, Resource, "", false), Idle)
    case Began(i, a, reworks) =>
      if i >= |pack| then Die(w)
      else if pack[i].asksBefore && !AnsweredFirst(row, pack[i].id) then w.(pc := Unask(i, a))
      else w.(pc := InTurn(i, a, reworks), turns := w.turns + 1)
    case Unask(i, a) =>
      Wrote(w, MoveAttempt(row, a, AttemptState.Cancelled, 0.0, AskedFirst, None), AskFirst(i))
    case AskFirst(i) => if i < |pack| then Wrote(w, Ask(row, Question, Input, pack[i].id, true), Idle) else Die(w)
    case InTurn(i, a, reworks) =>
      Wrote(w, MoveAttempt(row, a, AttemptState.Running, 0.0, NoCode, None), Read(i, a, reworks, turn))
    case Read(i, a, reworks, result) => w.(pc := Settle(i, a, reworks, result, Branching(row, result)))
    case Settle(i, _, _, _, _) => if i < |pack| then SettleAs(pack, w) else Die(w)
    case Advance(_) =>
      w.(row := row.(cursor := row.cursor + 1, version := row.version + 1),
         pc := if row.cursor + 1 >= |pack| then File else Requeue)
    case Judged(i, _, _, _) => if i < |pack| then Judge(pack, w) else Die(w)
    case Requeue =>
      if row.state.Running? then Wrote(w, Move(row, TaskState.Queued, None), Check) else w.(pc := Check)
    case AskUser(i) => if i < |pack| then Wrote(w, Ask(row, InputWanted, Input, pack[i].id, false), Idle) else Die(w)
    case WaitEnvironment => Wrote(w, Move(row, TaskState.Waiting, Some(Environment)), Idle)
    case CancelTask => Wrote(w, Move(row, TaskState.Cancelled, None), Idle)
    case FailTask => Wrote(w, Move(row, TaskState.Failed, None), Idle)
    case File => w.(arts := w.arts[HANDBACK := NextVersion(w.arts, HANDBACK)], pc := Close)
    case Close =>
      if row.state.Queued? then Wrote(w, Move(row, TaskState.Running, None), Succeed) else w.(pc := Succeed)
    case Succeed => Wrote(w, Move(row, TaskState.Succeeded, None), Idle)
  }

  // ---------- everybody else ----------

  /** What others write into the task's row: the user, the runner, the end of another expert's task. */
  datatype Other =
    | Cancel
    | Answered(interaction: nat, ticket: Ticket, decision: Decision)
    | EnvironmentBack(online: bool)
    | ApprovalsExpire
    | ThreadMoves
    | TurnComes                    // the expert before it has finished
    | TurnAsks(kind: Kind, why: WaitingReason, step: string)

  function OrSame(row: Task, r: Result<Task>): Task {
    if r.Ok? then r.value else row
  }

  function RowAfter(row: Task, other: Other): Task {
    match other
    case Cancel =>
      var flagged := row.(cancel := true, version := row.version + 1);
      if Terminal(row.state) then row
      else if row.state.Running? then flagged
      else OrSame(row, Move(flagged, TaskState.Cancelled, None))
    case Answered(i, ticket, decision) => OrSame(row, Answer(row, i, ticket, decision, TaskState.Queued))
    case EnvironmentBack(online) =>
      if || !row.state.Waiting? || row.reason != Some(Environment) || row.cancel || row.attempt.Some?
         || row.interaction.Some? || !online
      then row
      else OrSame(row, Move(row, TaskState.Queued, None))
    case ApprovalsExpire => ExpireApprovals(row)
    case ThreadMoves => row.(version := row.version + 1)
    case TurnComes => if QueuedBehind(row) then row.(tagged := false, version := row.version + 1) else row
    case TurnAsks(kind, why, step) =>
      // only a turn asks, about a tool or a question of its own, and never for budget
      if row.attempts == [] || !(kind.ToolApproval? || kind.Question?) || why.Resource? then row
      else OrSame(row, Ask(row, kind, why, step, false))
  }

  function Elsewhere(w: World, other: Other): World {
    var after := RowAfter(w.row, other);
    w.(row := after,
       resumes := if w.row.state.Waiting? && Open(after) && !after.state.Waiting? then w.resumes + 1
                  else w.resumes)
  }

  // ---------- runs ----------

  datatype Event = Drive | Act(admitted: bool, turn: Turn) | Crash | Meanwhile(other: Other)

  function Next(pack: Pack, w: World, e: Event): World {
    match e
    case Drive => if w.pc.Idle? then w.(pc := Begin) else w
    case Act(admitted, turn) => Tick(pack, w, admitted, turn)
    case Crash => if w.pc.Idle? then w else Die(w)
    case Meanwhile(other) => Elsewhere(w, other)
  }

  function After(pack: Pack, w: World, events: seq<Event>): World
    decreases |events|
  {
    if events == [] then w else After(pack, Next(pack, w, events[0]), events[1..])
  }
}
