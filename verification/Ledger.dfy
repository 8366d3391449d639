/** The ledger as the program runs it: rows in a store, written one statement at a time inside transactions
    that nest, where only the outermost one commits or rolls back. Every transaction is proved equal to its
    one-step form in LedgerSpec, so what is proved of runs there holds of this object. */
module LedgerService {
  import opened Prelude
  import opened States
  import opened TaskRows
  import opened RowProofs
  import opened LedgerSpec
  import opened LedgerRuns
  import WheelProofs
  import LedgerOutcomes

  /** Whether a place is taken does not depend on the row that asks for it. */
  lemma TakenByOthers(was: seq<Task>, now: seq<Task>, t: nat, project: nat)
    requires |was| == |now| && forall u :: 0 <= u < |was| && u != t ==> was[u] == now[u]
    ensures Taken(was, t, project) <==> Taken(now, t, project)
  {
    forall u | 0 <= u < |was| && u != t
      ensures Holds(was[u]) && was[u].project == project <==> Holds(now[u]) && now[u].project == project
    {
    }
  }

  /** A row that has its project's place already cannot find it taken. */
  lemma PlaceIsMine(was: seq<Task>, now: seq<Task>, t: nat, row: Task)
    requires WheelProofs.OnePerProject(was) && t < |was|
    requires row.project == was[t].project && (Holds(row) ==> Holds(was[t]))
    requires |was| == |now| && forall u :: 0 <= u < |was| && u != t ==> was[u] == now[u]
    ensures !(Holds(row) && Taken(now, t, row.project))
  {
    TakenByOthers(was, now, t, row.project);
  }

  /** An answer is refused, or its row is freed and the task moves on. */
  lemma RespondIs(db: Db, t: nat, i: nat, ticket: Ticket, decision: Decision, resume: TaskState)
    requires t < |db.tasks| && i < |db.tasks[t].interactions|
    ensures Respond(db, t, i, ticket, decision, resume)
         == if !Answerable(db.tasks[t], i, ticket) then Err(InteractionRejected)
            else if ToppedUp(db.tasks[t], i, decision) && !Budgeted(db.tasks[t]) then Err(InvalidBudget)
            else if Holds(db.tasks[t]) && Taken(db.tasks, t, db.tasks[t].project) then Err(ProjectBusy)
            else LedgerSpec.Transition(db.(tasks := db.tasks[t := Freed(db.tasks[t], i, decision)]), t,
                                       AnswerTarget(db.tasks[t].interactions[i].kind, decision, resume), None, None)
  {
    hide Taken, LedgerSpec.Transition;
  }

  /** A transaction on one row: the row's own outcome, written if the unique index allows. */
  lemma RowOpIs(db: Db, op: Op)
    requires RowOp(op)
    ensures Outcome(db, op)
         == if op.task >= |db.tasks| then Err(NotFound)
            else
              var r := RowOutcome(db.tasks[op.task], op);
              if r.Err? then Err(r.fault)
              else if Holds(r.value) && Taken(db.tasks, op.task, r.value.project) then Err(ProjectBusy)
              else Ok(db.(tasks := db.tasks[op.task := r.value]))
  {
    hide RowOutcome, Taken;
  }

  lemma NothingToAnswer(db: Db, t: nat, i: nat, ticket: Ticket, decision: Decision, resume: TaskState)
    requires t >= |db.tasks| || i >= |db.tasks[t].interactions|
    ensures Respond(db, t, i, ticket, decision, resume) == Err(NotFound)
  {
  }

  /** The row of a state move as its own write leaves it, before pending interactions are withdrawn. */
  ghost function Stepped(task: Task, target: TaskState, reason: Option<WaitingReason>): Task {
    var to := task.(state := target, reason := reason, version := task.version + 1);
    if Terminal(target) then to.(attempt := None, interaction := None) else to
  }

  ghost function Step(db: Db, t: nat, target: TaskState, expected: Option<nat>, reason: Option<WaitingReason>)
    : Result<Db>
  {
    if t >= |db.tasks| then Err(NotFound)
    else if !ValidMove(db.tasks[t].state, target, reason) then Err(InvalidTransition)
    else if expected.Some? && expected.value != db.tasks[t].version then Err(StaleVersion)
    else
      var row := Stepped(db.tasks[t], target, reason);
      if Holds(row) && Taken(db.tasks, t, row.project) then Err(ProjectBusy)
      else Ok(db.(tasks := db.tasks[t := row]))
  }

  function PendingWithdrawn(db: Db, t: nat): Db
    requires t < |db.tasks|
  {
    db.(tasks := db.tasks[t := db.tasks[t].(interactions := WithdrawPending(db.tasks[t].interactions))])
  }

  /** A transition is that write, then what a finished task lets go of, then the next in line. */
  lemma TransitionIs(db: Db, t: nat, target: TaskState, expected: Option<nat>, reason: Option<WaitingReason>)
    ensures var step := Step(db, t, target, expected, reason);
            LedgerSpec.Transition(db, t, target, expected, reason)
            == if step.Err? || !Terminal(target) then step
               else if db.tasks[t].session >= |db.sessions| then Err(NotFound)
               else StartNext(ReturnWheel(PendingWithdrawn(step.value, t), t), db.tasks[t].project)
  {
    hide Taken, StartNext, ReturnWheel, WithdrawPending;
    var step := Step(db, t, target, expected, reason);
    if step.Ok? && Terminal(target) {
      assert PendingWithdrawn(step.value, t).tasks == db.tasks[t := Move(db.tasks[t], target, reason).value];
    }
  }

  ghost function MovedColumns(row: Task, a: nat, target: AttemptState, consumed: Amount, attempt: Attempt,
                              used: real, reserved: real): Task
    requires a < |row.attempts|
  {
    row.(attempts := row.attempts[a := attempt], used := used, reserved := reserved, version := row.version + 1,
         attempt := if Ended(target) then None else row.attempt,
         journal := row.journal + Lines(row, a, target, consumed))
  }

  lemma MovedColumnsAre(row: Task, a: nat, target: AttemptState, consumed: Amount, failure: Failure,
                        output: Option<(string, nat)>, attempt: Attempt, used: real, reserved: real)
    requires a < |row.attempts|
    requires used == row.used + consumed
    requires reserved == AfterCharge(row.reserved, row.attempts[a].granted, consumed) - Back(row, a, target, consumed)
    requires var was := row.attempts[a];
             attempt == was.(status := target, consumed := was.consumed + consumed,
                             failure := if Ended(target) then failure else was.failure,
                             output := if Ended(target) && output.Some? then output else was.output)
    ensures MovedColumns(row, a, target, consumed, attempt, used, reserved)
         == Moved(row, a, target, consumed, failure, output)
  {
    hide Lines, Back, AfterCharge;
  }

  lemma MovedStands(row: Task, a: nat, target: AttemptState, consumed: Amount,
                    failure: Failure, output: Option<(string, nat)>)
    requires a < |row.attempts|
    ensures var moved := Moved(row, a, target, consumed, failure, output);
            moved.project == row.project && (Holds(moved) <==> Holds(row))
  {
  }

  class Ledger {
    var sessions: seq<Session>
    var tasks: seq<Task>
    var depth: nat         // how many transactions are open around the current statement
    var saved: Db          // what the outermost open transaction rolls back to

    constructor ()
      ensures Rows() == EMPTY && depth == 0
    {
      sessions, tasks := [], [];
      depth := 0;
      saved := EMPTY;
    }

    function Rows(): Db
      reads this
    {
      Db(sessions, tasks)
    }

    // ---------- transactions ----------

    /** The statements inside a transaction did what `spec` says, or stopped with its fault. */
    twostate predicate Ran(new spec: Result<Db>, failed: bool, fault: Fault)
      reads this
    {
      && depth == old(depth) && saved == old(saved)
      && (spec.Ok? ==> !failed && Rows() == spec.value)
      && (spec.Err? ==> failed && fault == spec.fault)
    }

    /** A whole transaction did what `spec` says; a refused one left no trace once the outermost ended. */
    twostate predicate Committed(new spec: Result<Db>, failed: bool, fault: Fault)
      reads this
    {
      && depth == old(depth)
      && (depth > 0 ==> saved == old(saved))
      && (spec.Ok? ==> !failed && Rows() == spec.value)
      && (spec.Err? ==> failed && fault == spec.fault && (depth == 0 ==> Rows() == old(Rows())))
    }

    static function FaultOf<T>(r: Result<T>): Fault {
      if r.Err? then r.fault else NotFound
    }

    method Enter()
      modifies this`depth, this`saved
      ensures depth == old(depth) + 1
      ensures saved == if old(depth) == 0 then old(Rows()) else old(saved)
    {
      if depth == 0 { saved := Rows(); }
      depth := depth + 1;
    }

    method Leave(failed: bool)
      requires depth > 0
      modifies this
      ensures depth == old(depth) - 1 && saved == old(saved)
      ensures Rows() == if failed && depth == 0 then saved else old(Rows())
    {
      depth := depth - 1;
      if failed && depth == 0 {
        sessions, tasks := saved.sessions, saved.tasks;
      }
    }

    // ---------- statements ----------

    method GetTask(t: nat) returns (r: Result<Task>)
      ensures r == if t < |tasks| then Ok(tasks[t]) else Err(NotFound)
    {
      if t >= |tasks| { return Err(NotFound); }
      return Ok(tasks[t]);
    }

    method GetSession(s: nat) returns (r: Result<Session>)
      ensures r == if s < |sessions| then Ok(sessions[s]) else Err(NotFound)
    {
      if s >= |sessions| { return Err(NotFound); }
      return Ok(sessions[s]);
    }

    /** The columns of `row`, over the child rows the store has. */
    function Stored(t: nat, expected: nat, row: Task): Task
      requires t < |tasks|
      reads this
    {
      row.(version := expected + 1, attempts := tasks[t].attempts, interactions := tasks[t].interactions,
           journal := tasks[t].journal)
    }

    /** Compare and swap: writes only over the expected version, and only if the unique index allows. */
    method CasTask(t: nat, expected: nat, row: Task) returns (r: Result<nat>)
      requires t < |tasks|
      modifies this`tasks
      ensures tasks == if r.Ok? then old(tasks[t := Stored(t, expected, row)]) else old(tasks)
      ensures r == if old(tasks[t].version) != expected then Err(StaleVersion)
                   else if Holds(row) && Taken(old(tasks), t, row.project) then Err(ProjectBusy)
                   else Ok(expected + 1)
    {
      if tasks[t].version != expected { return Err(StaleVersion); }
      if Holds(row) && Taken(tasks, t, row.project) { return Err(ProjectBusy); }
      tasks := tasks[t := Stored(t, expected, row)];
      return Ok(expected + 1);
    }

    method CasSessionWheel(s: nat, expected: nat, wheel: Wheel, active: Option<nat>) returns (r: Result<nat>)
      requires s < |sessions|
      modifies this`sessions
      ensures r == if old(sessions[s].version) == expected then Ok(expected + 1) else Err(StaleVersion)
      ensures r.Ok? ==> Rows() == SetWheel(old(Rows()), s, wheel, active)
      ensures r.Err? ==> sessions == old(sessions)
    {
      if sessions[s].version != expected { return Err(StaleVersion); }
      sessions := sessions[s := sessions[s].(wheel := wheel, active := active, version := expected + 1)];
      return Ok(expected + 1);
    }

    method Append(t: nat, line: Entry)
      requires t < |tasks|
      modifies this`tasks
      ensures tasks == old(tasks[t := tasks[t].(journal := tasks[t].journal + [line])])
    {
      tasks := tasks[t := tasks[t].(journal := tasks[t].journal + [line])];
    }

    method InsertAttempt(t: nat, attempt: Attempt) returns (id: nat)
      requires t < |tasks|
      modifies this`tasks
      ensures id == old(|tasks[t].attempts|)
      ensures tasks == old(tasks[t := tasks[t].(attempts := tasks[t].attempts + [attempt])])
    {
      id := |tasks[t].attempts|;
      tasks := tasks[t := tasks[t].(attempts := tasks[t].attempts + [attempt])];
    }

    method UpdateAttempt(t: nat, a: nat, attempt: Attempt)
      requires t < |tasks| && a < |tasks[t].attempts|
      modifies this`tasks
      ensures tasks == old(tasks[t := tasks[t].(attempts := tasks[t].attempts[a := attempt])])
    {
      tasks := tasks[t := tasks[t].(attempts := tasks[t].attempts[a := attempt])];
    }

    method InsertInteraction(t: nat, interaction: Interaction) returns (id: nat)
      requires t < |tasks|
      modifies this`tasks
      ensures id == old(|tasks[t].interactions|)
      ensures tasks == old(tasks[t := tasks[t].(interactions := tasks[t].interactions + [interaction])])
    {
      id := |tasks[t].interactions|;
      tasks := tasks[t := tasks[t].(interactions := tasks[t].interactions + [interaction])];
    }

    /** Atomic: of all answers to one interaction, at most one gets through here. */
    method ConsumeInteraction(t: nat, i: nat, inTime: bool) returns (ok: bool)
      requires t < |tasks| && i < |tasks[t].interactions|
      modifies this`tasks
      ensures ok == (old(tasks[t].interactions[i].status.Pending?) && inTime)
      ensures tasks == if !ok then old(tasks) else
                         old(tasks[t := tasks[t].(interactions :=
                           tasks[t].interactions[i := tasks[t].interactions[i].(status := Consumed)])])
    {
      ok := tasks[t].interactions[i].status.Pending? && inTime;
      if ok {
        tasks := tasks[t := tasks[t].(interactions :=
                   tasks[t].interactions[i := tasks[t].interactions[i].(status := Consumed)])];
      }
    }

    method CancelPendingInteractions(t: nat)
      requires t < |tasks|
      modifies this`tasks
      ensures tasks == old(tasks[t := tasks[t].(interactions := WithdrawPending(tasks[t].interactions))])
    {
      tasks := tasks[t := tasks[t].(interactions := WithdrawPending(tasks[t].interactions))];
    }

    // ---------- the wheel and the queue ----------

    /** The caller holds the session's row lock, so the swap cannot lose a race. */
    method GiveWheel(s: nat, session: Session, t: nat)
      requires s < |sessions| && sessions[s] == session
      modifies this`sessions
      ensures Rows() == SetWheel(old(Rows()), s, Advisor, Some(t))
    {
      var r := CasSessionWheel(s, session.version, Advisor, Some(t));
      assert r.Ok?;
    }

    method StartNextQueued(project: nat) returns (r: Result<()>)
      modifies this`sessions, this`tasks
      ensures Ran(StartNext(old(Rows()), project), r.Err?, FaultOf(r))
    {
      var next := NextQueued(tasks, project);
      if next.None? { return Ok(()); }
      var row := tasks[next.value];
      var session :- GetSession(row.session);
      if session.wheel != User || session.active.Some? { return Ok(()); }
      var _ :- CasTask(next.value, row.version, row.(tagged := false));
      GiveWheel(row.session, session, next.value);
      return Ok(());
    }

    // ---------- handover ----------

    method HandoverSteps(req: Request) returns (r: Result<nat>)
      modifies this`sessions, this`tasks
      ensures var spec := Handover(old(Rows()), req);
              && (spec.Ok? ==> r == Ok(spec.value.1) && Rows() == spec.value.0)
              && (spec.Err? ==> r == Err(spec.fault))
    {
      var prior := FindKey(tasks, req.key);
      if prior.Some? {
        if tasks[prior.value].digest != req.digest { return Err(IdempotencyConflict); }
        return Ok(prior.value);
      }
      var session :- GetSession(req.session);
      if session.wheel != User || session.active.Some? { return Err(WheelHeld); }
      if session.project.None? { return Err(ProjectRequired); }
      if !req.online { return Err(EnvironmentOffline); }
      var busy := ActiveTask(tasks, session.project.value);
      var tagged := req.clientTag;
      if busy.Some? { tagged := true; }
      var id := |tasks|;
      var row := NewTask(req.session, session.project.value, req.key, req.digest, req.limit, tagged);
      tasks := tasks + [row.(journal := [])];
      if busy.None? {
        GiveWheel(req.session, session, id);
      }
      if req.limit.Some? {
        Append(id, Entry(Topup, None, req.limit.value));
      }
      assert tasks[id].journal == row.journal;
      assert tasks == old(tasks) + [row];
      return Ok(id);
    }

    method HandOver(req: Request) returns (r: Result<nat>)
      modifies this
      ensures var spec := Handover(old(Rows()), req);
              && Committed(if spec.Ok? then Ok(spec.value.0) else Err(spec.fault), r.Err?, FaultOf(r))
              && (spec.Ok? ==> r == Ok(spec.value.1))
    {
      Enter();
      r := HandoverSteps(req);
      Leave(r.Err?);
    }

    // ---------- state moves ----------

    /** A task that ended: the wheel back to the user, and nothing of it left to answer. */
    method LetGo(t: nat) returns (r: Result<()>)
      requires t < |tasks|
      modifies this`sessions, this`tasks
      ensures r == if old(tasks[t].session) < |old(sessions)| then Ok(()) else Err(NotFound)
      ensures r.Ok? ==> Rows() == ReturnWheel(PendingWithdrawn(old(Rows()), t), t)
    {
      var session :- GetSession(tasks[t].session);
      if session.active == Some(t) {
        var back := CasSessionWheel(tasks[t].session, session.version, User, None);
        assert back.Ok?;
      }
      CancelPendingInteractions(t);
      return Ok(());
    }

    method StepTask(t: nat, target: TaskState, expected: Option<nat>, reason: Option<WaitingReason>)
      returns (r: Result<nat>)
      modifies this`tasks
      ensures Ran(Step(old(Rows()), t, target, expected, reason), r.Err?, FaultOf(r))
      ensures r.Ok? ==> r.value == old(tasks[t].version) + 1
    {
      hide Taken;
      var task :- GetTask(t);
      if !ValidMove(task.state, target, reason) { return Err(InvalidTransition); }
      var version := if expected.None? then task.version else expected.value;
      var fields := task.(state := target, reason := reason);
      if Terminal(target) {
        fields := fields.(attempt := None, interaction := None);
      }
      r := CasTask(t, version, fields);
    }

    method TransitionSteps(t: nat, target: TaskState, expected: Option<nat>, reason: Option<WaitingReason>)
      returns (r: Result<nat>)
      modifies this`sessions, this`tasks
      ensures Ran(LedgerSpec.Transition(old(Rows()), t, target, expected, reason), r.Err?, FaultOf(r))
      ensures r.Ok? ==> t < old(|tasks|) && r.value == old(tasks[t].version) + 1
    {
      TransitionIs(Rows(), t, target, expected, reason);
      hide LedgerSpec.Transition, StartNext, ReturnWheel, Taken, WithdrawPending;
      var written :- StepTask(t, target, expected, reason);
      if WheelAfter(target).Some? {
        var project := tasks[t].project;
        var _ :- LetGo(t);
        var _ :- StartNextQueued(project);
      }
      return Ok(written);
    }

    method Transition(t: nat, target: TaskState, expected: Option<nat>, reason: Option<WaitingReason>)
      returns (r: Result<nat>)
      modifies this
      ensures Committed(LedgerSpec.Transition(old(Rows()), t, target, expected, reason), r.Err?, FaultOf(r))
      ensures r.Ok? ==> t < old(|tasks|) && r.value == old(tasks[t].version) + 1
    {
      Enter();
      r := TransitionSteps(t, target, expected, reason);
      Leave(r.Err?);
    }

    method ResumeSteps(t: nat, session: nat, online: bool) returns (r: Result<bool>)
      requires depth > 0
      modifies this
      ensures Ran(LedgerSpec.ResumeEnvironment(old(Rows()), t, session, online), r.Err?, FaultOf(r))
      ensures r.Ok? ==> (r.value <==> Rows() != old(Rows()))
    {
      var task :- GetTask(t);
      if || task.session != session || !task.state.Waiting? || task.reason != Some(Environment)
         || task.cancel || task.attempt.Some? || task.interaction.Some?
      {
        return Ok(false);
      }
      var holder :- GetSession(session);
      if holder.active != Some(t) || holder.wheel != Advisor { return Ok(false); }
      if !online { return Ok(false); }
      hide LedgerSpec.Transition;
      var version :- Transition(t, TaskState.Queued, Some(task.version), None);
      TransitionRows(old(Rows()), t, TaskState.Queued, Some(task.version), None);
      return Ok(true);
    }

    method ResumeEnvironment(t: nat, session: nat, online: bool) returns (r: Result<bool>)
      modifies this
      ensures Committed(LedgerSpec.ResumeEnvironment(old(Rows()), t, session, online), r.Err?, FaultOf(r))
      ensures r.Ok? ==> (r.value <==> Rows() != old(Rows()))
      ensures WheelProofs.WheelInv(old(Rows())) ==>
                (r == Ok(true) <==> LedgerOutcomes.MachineIsBack(old(Rows()), t, session, online))
    {
      if WheelProofs.WheelInv(Rows()) {
        LedgerOutcomes.ResumesExactly(Rows(), t, session, online);
      }
      hide WheelProofs.WheelInv, LedgerSpec.ResumeEnvironment;
      Enter();
      r := ResumeSteps(t, session, online);
      Leave(r.Err?);
    }

    method CancelSteps(t: nat) returns (r: Result<bool>)
      requires depth > 0
      modifies this
      ensures Ran(LedgerSpec.RequestCancel(old(Rows()), t), r.Err?, FaultOf(r))
      ensures r.Ok? ==> t < old(|tasks|) && r.value == old(tasks[t].state.Running? || tasks[t].state.Waiting?)
    {
      hide LedgerSpec.Transition, Taken;
      var task :- GetTask(t);
      if Terminal(task.state) { return Ok(false); }
      var version :- CasTask(t, task.version, task.(cancel := true));
      if !task.state.Running? {
        var _ :- Transition(t, TaskState.Cancelled, Some(version), None);
        return Ok(task.state.Waiting?);
      }
      return Ok(true);
    }

    /** The intent is recorded first; a task that is not in a turn ends here. Says whether a turn of it
        has to be interrupted. */
    method RequestCancel(t: nat) returns (r: Result<bool>)
      modifies this
      ensures Committed(LedgerSpec.RequestCancel(old(Rows()), t), r.Err?, FaultOf(r))
      ensures r.Ok? ==> t < old(|tasks|) && r.value == old(tasks[t].state.Running? || tasks[t].state.Waiting?)
    {
      Enter();
      r := CancelSteps(t);
      Leave(r.Err?);
    }

    // ---------- attempts ----------

    method OpenAttemptSteps(t: nat, step: string, inputs: seq<(string, nat)>, reserve: Amount) returns (r: Result<nat>)
      modifies this`sessions, this`tasks
      ensures Ran(Outcome(old(Rows()), Begin(t, step, inputs, reserve)), r.Err?, FaultOf(r))
      ensures r.Ok? ==> t < old(|tasks|) && r.value == old(|tasks[t].attempts|)
    {
      RowOpIs(Rows(), Begin(t, step, inputs, reserve));
      hide Taken, Outcome;
      var task :- GetTask(t);
      if task.attempt.Some? { return Err(StaleVersion); }
      if !Budgeted(task) { return Err(InvalidBudget); }
      if !Affordable(task, reserve) { return Err(BudgetExhausted); }
      var id := InsertAttempt(t, Attempt(step, inputs, AttemptState.Created, reserve, 0.0, NoCode, None));
      var fields := task.(reserved := task.reserved + reserve, attempt := Some(id));
      if task.state.Queued? {
        fields := fields.(state := TaskState.Running, reason := None);
      }
      TakenByOthers(old(tasks), tasks, t, task.project);
      var _ :- CasTask(t, task.version, fields);
      if reserve > 0.0 {
        Append(t, Entry(Reserve, Some(id), reserve));
      }
      return Ok(id);
    }

    method OpenAttempt(t: nat, step: string, inputs: seq<(string, nat)>, reserve: Amount) returns (r: Result<nat>)
      modifies this
      ensures Committed(Outcome(old(Rows()), Begin(t, step, inputs, reserve)), r.Err?, FaultOf(r))
      ensures r.Ok? ==> t < old(|tasks|) && r.value == old(|tasks[t].attempts|)
    {
      Enter();
      r := OpenAttemptSteps(t, step, inputs, reserve);
      Leave(r.Err?);
    }

    method AskSteps(t: nat, kind: Kind, reason: WaitingReason, step: string, askBefore: bool) returns (r: Result<nat>)
      modifies this`sessions, this`tasks
      ensures Ran(Outcome(old(Rows()), AskFor(t, kind, reason, step, askBefore)), r.Err?, FaultOf(r))
      ensures r.Ok? ==> t < old(|tasks|) && r.value == old(|tasks[t].interactions|)
    {
      RowOpIs(Rows(), AskFor(t, kind, reason, step, askBefore));
      hide Taken, Outcome;
      var task :- GetTask(t);
      if !ValidMove(task.state, TaskState.Waiting, Some(reason)) { return Err(InvalidTransition); }
      var id := InsertInteraction(t, Interaction(kind, Pending, task.version + 1, step, askBefore));
      TakenByOthers(old(tasks), tasks, t, task.project);
      var _ :- CasTask(t, task.version,
                       task.(state := TaskState.Waiting, reason := Some(reason), interaction := Some(id)));
      return Ok(id);
    }

    method OpenInteraction(t: nat, kind: Kind, reason: WaitingReason, step: string, askBefore: bool)
      returns (r: Result<nat>)
      modifies this
      ensures Committed(Outcome(old(Rows()), AskFor(t, kind, reason, step, askBefore)), r.Err?, FaultOf(r))
      ensures r.Ok? ==> t < old(|tasks|) && r.value == old(|tasks[t].interactions|)
    {
      Enter();
      r := AskSteps(t, kind, reason, step, askBefore);
      Leave(r.Err?);
    }

    /** The charge and what an ending attempt gives back, each with its line in the journal. */
    method BookCharge(t: nat, a: nat, target: AttemptState, consumed: Amount) returns (used: real, reserved: real)
      requires t < |tasks| && a < |tasks[t].attempts|
      modifies this`tasks
      ensures used == old(tasks[t].used) + consumed
      ensures reserved == old(AfterCharge(tasks[t].reserved, tasks[t].attempts[a].granted, consumed)
                              - Back(tasks[t], a, target, consumed))
      ensures tasks == old(tasks[t := tasks[t].(journal := tasks[t].journal + Lines(tasks[t], a, target, consumed))])
    {
      var granted := tasks[t].attempts[a].granted;
      used, reserved := tasks[t].used, tasks[t].reserved;
      if consumed > 0.0 {
        used := used + consumed;
        reserved := Pos(reserved - Min(consumed, granted));
        Append(t, Entry(Consume, Some(a), consumed));
      }
      if Ended(target) {
        var leftover := granted - consumed;
        if leftover > 0.0 && reserved > 0.0 {
          var back := Min(leftover, reserved);
          reserved := reserved - back;
          Append(t, Entry(EntryKind.Release, Some(a), back));
        }
      }
      assert tasks[t].journal == old(tasks[t].journal + Lines(tasks[t], a, target, consumed));
    }

    /** The attempt's own row, its charge, and the task row, in the statements of the program. */
    method ChargeAttempt(t: nat, a: nat, target: AttemptState, consumed: Amount,
                         failure: Failure, output: Option<(string, nat)>)
      returns (r: Result<nat>)
      requires t < |tasks| && a < |tasks[t].attempts| && target in AttemptMoves(tasks[t].attempts[a].status)
      requires WheelProofs.OnePerProject(tasks)
      modifies this`tasks
      ensures r.Ok? && tasks == old(tasks)[t := Moved(old(tasks[t]), a, target, consumed, failure, output)]
    {
      hide Lines, Back, AfterCharge;
      var task := tasks[t];
      var was := task.attempts[a];
      var fields := was.(status := target);
      if Ended(target) {
        fields := fields.(failure := failure);
        if output.Some? { fields := fields.(output := output); }
      }
      if consumed > 0.0 {
        fields := fields.(consumed := was.consumed + consumed);
      }
      var used, reserved := BookCharge(t, a, target, consumed);
      var row := task.(used := used, reserved := reserved);
      if Ended(target) {
        row := row.(attempt := None);
      }
      UpdateAttempt(t, a, fields);
      PlaceIsMine(old(tasks), tasks, t, row);
      hide Taken;
      r := CasTask(t, task.version, row);
      assert tasks[t] == MovedColumns(task, a, target, consumed, fields, used, reserved);
      hide Stored;
      MovedColumnsAre(task, a, target, consumed, failure, output, fields, used, reserved);
    }

    method AttemptSteps(t: nat, a: nat, target: AttemptState, consumed: Amount,
                        failure: Failure, output: Option<(string, nat)>)
      returns (r: Result<()>)
      requires WheelProofs.OnePerProject(tasks)
      modifies this`sessions, this`tasks
      ensures Ran(Outcome(old(Rows()), MoveTry(t, a, target, consumed, failure, output)), r.Err?, FaultOf(r))
    {
      hide Moved;
      var task :- GetTask(t);
      if a >= |task.attempts| { return Err(NotFound); }
      if target !in AttemptMoves(task.attempts[a].status) { return Err(InvalidTransition); }
      if !Budgeted(task) { return Err(InvalidBudget); }
      MovedIs(task, a, target, consumed, failure, output);
      ghost var moved := Moved(task, a, target, consumed, failure, output);
      assert moved.project == task.project && (Holds(moved) <==> Holds(task)) by {
        MovedStands(task, a, target, consumed, failure, output);
      }
      var charged := ChargeAttempt(t, a, target, consumed, failure, output);
      assert Taken(tasks, t, task.project) <==> Taken(old(tasks), t, task.project) by {
        TakenByOthers(old(tasks), tasks, t, task.project);
      }
      hide Taken;
      if target.BudgetExceeded? {
        var _ :- AskSteps(t, ToppingUp, Resource, "", false);
        assert tasks == old(tasks)[t := Ask(moved, ToppingUp, Resource, "", false).value];
      }
      return Ok(());
    }

    method AttemptTransition(t: nat, a: nat, target: AttemptState, consumed: Amount,
                             failure: Failure, output: Option<(string, nat)>)
      returns (r: Result<()>)
      requires WheelProofs.OnePerProject(tasks)
      modifies this
      ensures Committed(Outcome(old(Rows()), MoveTry(t, a, target, consumed, failure, output)), r.Err?, FaultOf(r))
    {
      Enter();
      r := AttemptSteps(t, a, target, consumed, failure, output);
      Leave(r.Err?);
    }

    // ---------- answers ----------

    /** Everything that can refuse an answer; an answer that passes is used up. */
    method TakeAnswer(t: nat, i: nat, ticket: Ticket) returns (r: Result<()>)
      requires t < |tasks| && i < |tasks[t].interactions|
      modifies this`tasks
      ensures r == if old(Answerable(tasks[t], i, ticket)) then Ok(()) else Err(InteractionRejected)
      ensures r.Ok? ==>
                tasks == old(tasks[t := tasks[t].(interactions :=
                           tasks[t].interactions[i := tasks[t].interactions[i].(status := Consumed)])])
    {
      if !ticket.token { return Err(InteractionRejected); }
      if !ticket.subject { return Err(InteractionRejected); }
      var ok := ConsumeInteraction(t, i, ticket.inTime);
      if !ok { return Err(InteractionRejected); }
      if tasks[t].interaction != Some(i) { return Err(InteractionRejected); }
      if tasks[t].version != tasks[t].interactions[i].target { return Err(InteractionRejected); }
      return Ok(());
    }

    /** The task row lets go of the answered interaction; more budget is booked in the same commit. */
    method FreeTask(t: nat, i: nat, decision: Decision) returns (r: Result<nat>)
      requires t < |tasks| && i < |tasks[t].interactions|
      modifies this`tasks
      ensures r.Err? <==> old(ToppedUp(tasks[t], i, decision) && !Budgeted(tasks[t]))
                          || old(Holds(tasks[t]) && Taken(tasks, t, tasks[t].project))
      ensures r.Err? ==> r.fault == if old(ToppedUp(tasks[t], i, decision) && !Budgeted(tasks[t])) then InvalidBudget
                                    else ProjectBusy
      ensures r.Ok? ==>
                tasks == old(tasks[t := Freed(tasks[t], i, decision).(interactions := tasks[t].interactions)])
    {
      var task := tasks[t];
      if ToppedUp(task, i, decision) {
        if !Budgeted(task) { return Err(InvalidBudget); }
        var base := if task.limit.Some? then task.limit.value else 0.0;
        r := CasTask(t, task.version, task.(limit := Some(base + decision.amount), interaction := None));
        if r.Ok? {
          Append(t, Entry(Topup, None, decision.amount));
        }
      } else {
        r := CasTask(t, task.version, task.(interaction := None));
      }
    }

    /** An answer consumed, and its task's row free of it. */
    method AcceptAnswer(t: nat, i: nat, ticket: Ticket, decision: Decision) returns (r: Result<nat>)
      requires t < |tasks| && i < |tasks[t].interactions|
      modifies this`tasks
      ensures r.Ok? ==> tasks == old(tasks[t := Freed(tasks[t], i, decision)])
      ensures r.Ok? <==> && old(Answerable(tasks[t], i, ticket))
                         && !old(ToppedUp(tasks[t], i, decision) && !Budgeted(tasks[t]))
                         && !old(Holds(tasks[t]) && Taken(tasks, t, tasks[t].project))
      ensures r.Err? ==> r.fault == if !old(Answerable(tasks[t], i, ticket)) then InteractionRejected
                                    else if old(ToppedUp(tasks[t], i, decision) && !Budgeted(tasks[t]))
                                    then InvalidBudget
                                    else ProjectBusy
    {
      hide Taken, Answerable;
      ghost var freed := Freed(tasks[t], i, decision);
      var _ :- TakeAnswer(t, i, ticket);
      TakenByOthers(old(tasks), tasks, t, tasks[t].project);
      r := FreeTask(t, i, decision);
      assert r.Ok? ==> tasks[t] == freed;
    }

    method RespondSteps(t: nat, i: nat, ticket: Ticket, decision: Decision, resume: TaskState) returns (r: Result<nat>)
      requires depth > 0
      modifies this
      ensures Ran(Respond(old(Rows()), t, i, ticket, decision, resume), r.Err?, FaultOf(r))
    {
      if t >= |tasks| || i >= |tasks[t].interactions| {
        NothingToAnswer(Rows(), t, i, ticket, decision, resume);
        return Err(NotFound);
      }
      hide LedgerSpec.Transition, Taken, Respond, Answerable, Freed, Holds;
      RespondIs(Rows(), t, i, ticket, decision, resume);
      var kind := tasks[t].interactions[i].kind;
      var _ :- AcceptAnswer(t, i, ticket, decision);
      var target := resume;
      if kind.ToppingUp? {
        target := if decision.TopupBy? then TaskState.Queued else TaskState.Failed;
      } else if decision.Stop? {
        target := TaskState.Failed;
      }
      r := Transition(t, target, None, None);
    }

    /** Consumed at most once, and only as the answer to the wait the task is in. */
    method RespondInteraction(t: nat, i: nat, ticket: Ticket, decision: Decision, resume: TaskState)
      returns (r: Result<nat>)
      modifies this
      ensures Committed(Respond(old(Rows()), t, i, ticket, decision, resume), r.Err?, FaultOf(r))
    {
      Enter();
      r := RespondSteps(t, i, ticket, decision, resume);
      Leave(r.Err?);
    }

    // ---------- any request at all ----------

    /** The remaining writers of these rows: sessions, expiry of approvals, the cursor, other columns. */
    method WriteRest(op: Op) returns (r: Result<()>)
      requires op.NewSession? || op.AttachProject? || op.Expire? || op.SetCursor? || op.Touch?
      modifies this`sessions, this`tasks
      ensures Ran(Outcome(old(Rows()), op), r.Err?, FaultOf(r))
      ensures r.Err? ==> Rows() == old(Rows())
    {
      match op {
        case NewSession(project) =>
          sessions := sessions + [Session(User, None, project, 0)];
        case AttachProject(s, home) =>
          if s < |sessions| && sessions[s].project.None? {
            sessions := sessions[s := sessions[s].(project := Some(home))];
          }
        case Expire(t) =>
          if t >= |tasks| { return Err(NotFound); }
          if Holds(tasks[t]) && Taken(tasks, t, tasks[t].project) { return Err(ProjectBusy); }
          tasks := tasks[t := ExpireApprovals(tasks[t])];
        case SetCursor(t, cursor) =>
          var task :- GetTask(t);
          var _ :- CasTask(t, task.version, task.(cursor := cursor));
        case Touch(t) =>
          var task :- GetTask(t);
          var _ :- CasTask(t, task.version, task);
      }
      return Ok(());
    }

    /** Whatever is asked of the ledger, it leaves exactly the state the one-step model says. */
    method Perform(op: Op)
      requires depth == 0 && WheelProofs.OnePerProject(tasks)
      modifies this
      ensures depth == 0 && Rows() == Apply(old(Rows()), op)
    {
      hide Handover, LedgerSpec.Transition, LedgerSpec.RequestCancel, LedgerSpec.ResumeEnvironment, Respond, RowOutcome,
        Rewrite;
      match op {
        case HandOver(req) => var _ := HandOver(req);
        case MoveTo(t, target, expected, reason) => var _ := Transition(t, target, expected, reason);
        case Cancel(t) => var _ := RequestCancel(t);
        case Resume(t, session, online) => var _ := ResumeEnvironment(t, session, online);
        case Begin(t, step, inputs, reserve) => var _ := OpenAttempt(t, step, inputs, reserve);
        case MoveTry(t, a, to, consumed, failure, output) =>
          var _ := AttemptTransition(t, a, to, consumed, failure, output);
        case AskFor(t, kind, why, step, askBefore) => var _ := OpenInteraction(t, kind, why, step, askBefore);
        case Reply(t, i, ticket, decision, resume) => var _ := RespondInteraction(t, i, ticket, decision, resume);
        case _ => var _ := WriteRest(op);
      }
    }
  }
}
