/** The ledger's transactions over all sessions and tasks, as functions from one committed state to the
    next. Positions in `sessions` and `tasks` are ids, and position order is creation order. */
module LedgerSpec {
  import opened Prelude
  import opened States
  import opened TaskRows
  import opened RowProofs

  datatype Session = Session(wheel: Wheel, active: Option<nat>, project: Option<nat>, version: nat)

  datatype Db = Db(sessions: seq<Session>, tasks: seq<Task>)

  // ---------- reads ----------

  /** The task that has the one place of a project, if any. */
  function ActiveTask(tasks: seq<Task>, project: nat): (r: Option<nat>)
    ensures r.Some? ==> r.value < |tasks| && Holds(tasks[r.value]) && tasks[r.value].project == project
    ensures forall t :: 0 <= t < |tasks| && Holds(tasks[t]) && tasks[t].project == project ==>
                          r.Some? && r.value <= t
  {
    if tasks == [] then None
    else
      var r := ActiveTask(tasks[..|tasks| - 1], project);
      var last := tasks[|tasks| - 1];
      if r.Some? then r
      else if Holds(last) && last.project == project then Some(|tasks| - 1)
      else None
  }

  /** The earliest task of a project still waiting behind another. */
  function NextQueued(tasks: seq<Task>, project: nat): (r: Option<nat>)
    ensures r.Some? ==> r.value < |tasks| && QueuedBehind(tasks[r.value]) && tasks[r.value].project == project
    ensures forall t :: 0 <= t < |tasks| && QueuedBehind(tasks[t]) && tasks[t].project == project ==>
                          r.Some? && r.value <= t
  {
    if tasks == [] then None
    else
      var r := NextQueued(tasks[..|tasks| - 1], project);
      var last := tasks[|tasks| - 1];
      if r.Some? then r
      else if QueuedBehind(last) && last.project == project then Some(|tasks| - 1)
      else None
  }

  function FindKey(tasks: seq<Task>, key: nat): (r: Option<nat>)
    ensures r.Some? ==> r.value < |tasks| && tasks[r.value].key == key
    ensures forall t :: 0 <= t < |tasks| && tasks[t].key == key ==> r.Some?
  {
    if tasks == [] then None
    else if tasks[|tasks| - 1].key == key then Some(|tasks| - 1)
    else FindKey(tasks[..|tasks| - 1], key)
  }

  /** Some other task already has the project's place. */
  predicate Taken(tasks: seq<Task>, t: nat, project: nat) {
    exists u :: 0 <= u < |tasks| && u != t && Holds(tasks[u]) && tasks[u].project == project
  }

  predicate Free(session: Session) {
    session.wheel.User? && session.active.None?
  }

  // ---------- writes ----------

  /** One write of a task row, refused when it would break the unique index on projects. */
  function Write(db: Db, t: nat, row: Task): Result<Db> {
    if t >= |db.tasks| then Err(NotFound)
    else if Holds(row) && Taken(db.tasks, t, row.project) then Err(ProjectBusy)
    else Ok(db.(tasks := db.tasks[t := row]))
  }

  function SetWheel(db: Db, s: nat, wheel: Wheel, active: Option<nat>): Db
    requires s < |db.sessions|
  {
    db.(sessions := db.sessions[s := db.sessions[s].(wheel := wheel, active := active,
                                                     version := db.sessions[s].version + 1)])
  }

  /** The expert next in line starts, unless its conversation is busy with something else. */
  function StartNext(db: Db, project: nat): Result<Db> {
    var next := NextQueued(db.tasks, project);
    if next.None? then Ok(db)
    else
      var row := db.tasks[next.value];
      if row.session >= |db.sessions| then Err(NotFound)
      else if !Free(db.sessions[row.session]) then Ok(db)
      else
        var written :- Write(db, next.value, row.(tagged := false, version := row.version + 1));
        Ok(SetWheel(written, row.session, Advisor, Some(next.value)))
  }

  /** The wheel goes back to the user, if this task has it. */
  function ReturnWheel(db: Db, t: nat): Db
    requires t < |db.tasks| && db.tasks[t].session < |db.sessions|
  {
    var s := db.tasks[t].session;
    if db.sessions[s].active == Some(t) then SetWheel(db, s, User, None) else db
  }

  // ---------- the transactions ----------

  function Transition(db: Db, t: nat, target: TaskState, expected: Option<nat>, reason: Option<WaitingReason>)
    : Result<Db>
  {
    if t >= |db.tasks| then Err(NotFound)
    else
      var moved :- Move(db.tasks[t], target, reason);
      if expected.Some? && expected.value != db.tasks[t].version then Err(StaleVersion)
      else
        var written :- Write(db, t, moved);
        if !Terminal(target) then Ok(written)
        else if moved.session >= |db.sessions| then Err(NotFound)
        else StartNext(ReturnWheel(written, t), moved.project)
  }

  datatype Request = Request(
    session: nat, key: nat, digest: nat, limit: Option<real>,
    clientTag: bool,       // the caller's own client_context already has queued_behind
    online: bool)

  /** Idempotent: the same key with the same digest answers with the task it made the first time. */
  function Handover(db: Db, req: Request): Result<(Db, nat)> {
    var prior := FindKey(db.tasks, req.key);
    if prior.Some? then
      if db.tasks[prior.value].digest != req.digest then Err(IdempotencyConflict)
      else Ok((db, prior.value))
    else if req.session >= |db.sessions| then Err(NotFound)
    else if !Free(db.sessions[req.session]) then Err(WheelHeld)
    else if db.sessions[req.session].project.None? then Err(ProjectRequired)
    else if !req.online then Err(EnvironmentOffline)
    else
      var project := db.sessions[req.session].project.value;
      var behind := ActiveTask(db.tasks, project);
      var row := NewTask(req.session, project, req.key, req.digest, req.limit, req.clientTag || behind.Some?);
      var inserted := db.(tasks := db.tasks + [row]);
      Ok((if behind.Some? then inserted else SetWheel(inserted, req.session, Advisor, Some(|db.tasks|)),
          |db.tasks|))
  }

  function RequestCancel(db: Db, t: nat): Result<Db> {
    if t >= |db.tasks| then Err(NotFound)
    else if Terminal(db.tasks[t].state) then Ok(db)
    else
      var row := db.tasks[t];
      var flagged :- Write(db, t, row.(cancel := true, version := row.version + 1));
      if row.state.Running? then Ok(flagged)
      else Transition(flagged, t, TaskState.Cancelled, Some(row.version + 1), None)
  }

  function ResumeEnvironment(db: Db, t: nat, session: nat, online: bool): Result<Db> {
    if t >= |db.tasks| then Err(NotFound)
    else
      var row := db.tasks[t];
      if || row.session != session || !row.state.Waiting? || row.reason != Some(Environment)
         || row.cancel || row.attempt.Some? || row.interaction.Some?
      then Ok(db)
      else if session >= |db.sessions| then Err(NotFound)
      else if db.sessions[session].active != Some(t) || !db.sessions[session].wheel.Advisor? || !online then Ok(db)
      else Transition(db, t, TaskState.Queued, Some(row.version), None)
  }

  function Respond(db: Db, t: nat, i: nat, ticket: Ticket, decision: Decision, resume: TaskState): Result<Db> {
    if t >= |db.tasks| || i >= |db.tasks[t].interactions| then Err(NotFound)
    else if !Answerable(db.tasks[t], i, ticket) then Err(InteractionRejected)
    else if ToppedUp(db.tasks[t], i, decision) && !Budgeted(db.tasks[t]) then Err(InvalidBudget)
    else
      var freed :- Write(db, t, Freed(db.tasks[t], i, decision));
      Transition(freed, t, AnswerTarget(db.tasks[t].interactions[i].kind, decision, resume), None, None)
  }

  /** A transaction that only rewrites the row of one task. */
  function Rewrite(db: Db, t: nat, row: Result<Task>): Result<Db> {
    var after :- row;
    Write(db, t, after)
  }
}
