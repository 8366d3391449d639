/** What the ledger's transactions come to, told by the columns before and after: when each is accepted, and where
    it leaves the task, its conversation and its budget. */
module LedgerOutcomes {
  import opened Prelude
  import opened States
  import opened TaskRows
  import opened RowProofs
  import opened LedgerSpec
  import opened WheelProofs
  import opened LedgerRuns
  import opened History

  // ---------- an answer ----------

  /** An accepted answer releases its task to where the user sent it: on a question about budget back to the queue
      if and only if it is a top-up with an amount, and to its end otherwise; on any other question to its end if
      the user says stop, whatever `resume` is, and else exactly to `resume`. */
  lemma AnswerLeads(db: Db, t: nat, i: nat, ticket: Ticket, decision: Decision, resume: TaskState)
    requires Respond(db, t, i, ticket, decision, resume).Ok?
    ensures t < |db.tasks| && i < |db.tasks[t].interactions|
    ensures var after := Respond(db, t, i, ticket, decision, resume).value.tasks;
            && |after| == |db.tasks|
            && var (was, now, kind) := (db.tasks[t], after[t], db.tasks[t].interactions[i].kind);
            && (kind.ToppingUp? ==> (now.state.Queued? <==> decision.TopupBy?)
                                    && (now.state.Failed? <==> !decision.TopupBy?))
            && (!kind.ToppingUp? && decision.Stop? ==> now.state.Failed?)
            && (!kind.ToppingUp? && !decision.Stop? ==> now.state == resume)
            && now.interaction.None? && (Terminal(now.state) ==> now.attempt.None?)
            && (now.limit, now.journal)
               == (if kind.ToppingUp? && decision.TopupBy?
                   then (Some((if was.limit.Some? then was.limit.value else 0.0) + decision.amount),
                         was.journal + [Entry(Topup, None, decision.amount)])
                   else (was.limit, was.journal))
  {
    hide Transition;
    var freed := Write(db, t, Freed(db.tasks[t], i, decision)).value;
    TransitionRows(freed, t, AnswerTarget(db.tasks[t].interactions[i].kind, decision, resume), None, None);
  }

  /** An answer is accepted if and only if it carries the right token for the right subject in time, its question is
      pending and the one the task waits for, the row has not been written since it was put, a budget that is topped
      up can be read, and the state it resumes in is one a waiting task may move to. */
  lemma AcceptedExactly(db: Db, t: nat, i: nat, ticket: Ticket, decision: Decision, resume: TaskState)
    requires LedgerInv(db) && t < |db.tasks| && i < |db.tasks[t].interactions|
    ensures var (row, asked) := (db.tasks[t], db.tasks[t].interactions[i]);
            Respond(db, t, i, ticket, decision, resume).Ok?
            <==> && ticket.token && ticket.subject && ticket.inTime
                 && asked.status.Pending? && row.interaction == Some(i) && asked.target == row.version
                 && (if asked.kind.ToppingUp? then decision.TopupBy? && row.limit.Some? ==> row.limit.value > 0.0
                     else decision.Stop? || resume.Queued? || resume.Validating? || resume.Failed? || resume.Cancelled?)
  {
    hide Transition, WheelInv, Booked, Conserved, WithinLimit, OneLive;
    var row := db.tasks[t];
    assert RowInv(row);
    if Answerable(row, i, ticket) && (ToppedUp(row, i, decision) ==> Budgeted(row)) {
      var freed := Freed(row, i, decision);
      var target := AnswerTarget(row.interactions[i].kind, decision, resume);
      LeavesTheWait(row, i, decision, resume);
      hide Move, Freed, AnswerTarget, OneWait, CappedWait;
      RewriteKeeps(db, t, freed);
      var mid := Write(db, t, freed).value;
      if Move(freed, target, None).Ok? {
        MoveIsTaken(mid, t, target, None);
      } else {
        RefusedMove(mid, t, target, None);
      }
    }
  }

  lemma LeavesTheWait(row: Task, i: nat, decision: Decision, resume: TaskState)
    requires i < |row.interactions| && row.state.Waiting?
    ensures var kind := row.interactions[i].kind;
            Move(Freed(row, i, decision), AnswerTarget(kind, decision, resume), None).Ok?
            <==> kind.ToppingUp? || decision.Stop?
                 || resume.Queued? || resume.Validating? || resume.Failed? || resume.Cancelled?
  {
  }

  lemma RefusedMove(db: Db, t: nat, target: TaskState, reason: Option<WaitingReason>)
    requires t < |db.tasks| && Move(db.tasks[t], target, reason).Err?
    ensures Transition(db, t, target, None, reason).Err?
  {
  }

  /** An expected version is the version the row has. */
  lemma StaleIsRefused(db: Db, t: nat, target: TaskState, expected: Option<nat>, reason: Option<WaitingReason>)
    requires Transition(db, t, target, expected, reason).Ok?
    ensures t < |db.tasks| && (expected.Some? ==> expected.value == db.tasks[t].version)
    ensures Transition(db, t, target, expected, reason) == Transition(db, t, target, None, reason)
  {
  }

  /** Stop stops: whatever the task was to resume in, it has failed, no attempt of it goes on, and its conversation
      has the wheel back unless its next queued task takes it; and it stays failed in every later run. */
  lemma StopStops(db: Db, t: nat, i: nat, ticket: Ticket, resume: TaskState, ops: seq<Op>)
    requires LedgerInv(db) && Respond(db, t, i, ticket, Stop, resume).Ok?
    ensures var after := Respond(db, t, i, ticket, Stop, resume).value;
            && t < |after.tasks| && after.tasks[t].state.Failed? && after.tasks[t].attempt.None?
            && var s := after.tasks[t].session;
            && s < |after.sessions| && after.sessions[s].active != Some(t)
            && (after.sessions[s].wheel.User?
                || exists u: nat :: u < |db.tasks| && after.sessions[s].active == Some(u) && QueuedBehind(db.tasks[u])
                                && db.tasks[u].session == s)
    ensures var later := Run(Respond(db, t, i, ticket, Stop, resume).value, ops).tasks;
            t < |later| && later[t].state.Failed?
  {
    hide Transition, Run;
    var after := Respond(db, t, i, ticket, Stop, resume).value;
    AnswerLeads(db, t, i, ticket, Stop, resume);
    var freed := Freed(db.tasks[t], i, Stop);
    var target := AnswerTarget(db.tasks[t].interactions[i].kind, Stop, resume);
    FreedKeeps(db.tasks[t], i, ticket, Stop);
    RewriteKeeps(db, t, freed);
    TransitionKeeps(Write(db, t, freed).value, t, target, None, None);
    TransitionRows(Write(db, t, freed).value, t, target, None, None);
    hide Respond, RowInv, ActiveTask, NextQueued;
    EveryRunIsLater(after, ops);
    WheelAfterStop(db, after, t);
  }

  lemma WheelAfterStop(db: Db, after: Db, t: nat)
    requires WheelInv(db) && WheelInv(after) && t < |db.tasks| && |after.tasks| == |db.tasks|
    requires Holds(db.tasks[t]) && !Open(after.tasks[t]) && after.tasks[t].session == db.tasks[t].session
    requires forall u :: 0 <= u < |db.tasks| && u != t ==>
               after.tasks[u] == db.tasks[u] || (QueuedBehind(db.tasks[u]) && after.tasks[u] == Untagged(db.tasks[u]))
    ensures var s := after.tasks[t].session;
            && s < |after.sessions| && after.sessions[s].active != Some(t)
            && (after.sessions[s].wheel.User?
                || exists u: nat :: u < |db.tasks| && after.sessions[s].active == Some(u) && QueuedBehind(db.tasks[u])
                                && db.tasks[u].session == s)
  {
    hide ActiveTask, NextQueued, OnePerProject, NobodyStranded;
    var s := after.tasks[t].session;
    if after.sessions[s].wheel.Advisor? {
      var u := after.sessions[s].active.value;
      assert Holds(after.tasks[u]) && u != t;
      assert db.sessions[s].active == Some(t);
    }
  }

  // ---------- a machine that is back ----------

  /** The task waits for its machine and for nothing else, its conversation still has it as the active one, and the
      machine is back. */
  predicate MachineIsBack(db: Db, t: nat, session: nat, online: bool) {
    && t < |db.tasks| && session < |db.sessions| && online
    && db.tasks[t].session == session
    && db.tasks[t].state == TaskState.Waiting && db.tasks[t].reason == Some(Environment) && !db.tasks[t].cancel
    && db.tasks[t].attempt == None && db.tasks[t].interaction == None
    && db.sessions[session].active == Some(t) && db.sessions[session].wheel == Advisor
  }

  /** Then, and only then, the task is queued again; nothing else in the ledger changes. */
  lemma ResumesExactly(db: Db, t: nat, session: nat, online: bool)
    requires WheelInv(db)
    ensures var r := ResumeEnvironment(db, t, session, online);
            if MachineIsBack(db, t, session, online) then
              && r.Ok? && r.value.sessions == db.sessions && |r.value.tasks| == |db.tasks|
              && r.value.tasks[t].state.Queued? && r.value.tasks[t].reason.None?
              && r.value.tasks[t] == db.tasks[t].(state := TaskState.Queued, reason := None,
                                                  version := db.tasks[t].version + 1)
              && forall u :: 0 <= u < |db.tasks| && u != t ==> r.value.tasks[u] == db.tasks[u]
            else r == Ok(db) || (r == Err(NotFound) && (t >= |db.tasks| || session >= |db.sessions|))
  {
    if !MachineIsBack(db, t, session, online) {
      hide WheelInv, Transition;
    } else {
      RewriteKeeps(db, t, db.tasks[t].(state := TaskState.Queued, reason := None, version := db.tasks[t].version + 1));
    }
  }

  // ---------- opening an attempt ----------

  /** An attempt opens if and only if none is open, a limit is above zero, and what is used, reserved and to be
      reserved fits within it; an attempt that just fits is opened. Then the row has one more attempt, live and newly
      made, and a queued task runs. */
  lemma OpensExactly(row: Task, step: string, inputs: seq<(string, nat)>, reserve: Amount)
    ensures var r := OpenAttempt(row, step, inputs, reserve);
            && (r.Ok? <==> && row.attempt == None
                           && (row.limit.Some? ==>
                                 row.limit.value > 0.0 && row.used + row.reserved + reserve <= row.limit.value))
            && (r.Err? ==> r.fault == if row.attempt.Some? then StaleVersion
                                      else if row.limit.value <= 0.0 then InvalidBudget else BudgetExhausted)
            && (r.Ok? ==>
                  var (now, n) := (r.value, |row.attempts|);
                  && |now.attempts| == n + 1 && now.attempts[..n] == row.attempts && now.attempt == Some(n)
                  && now.attempts[n].status.Created? && now.attempts[n].step == step && now.attempts[n].inputs == inputs
                  && now.attempts[n].granted == reserve && now.attempts[n].consumed == 0.0
                  && now.reserved == row.reserved + reserve && now.used == row.used && now.limit == row.limit
                  && now.state == (if row.state.Queued? then TaskState.Running else row.state)
                  && now.interactions == row.interactions && now.interaction == row.interaction)
  {
  }

  // ---------- a handover ----------

  /** Somebody of the project is at work. */
  predicate AtWork(tasks: seq<Task>, project: nat) {
    exists u :: 0 <= u < |tasks| && Holds(tasks[u]) && tasks[u].project == project
  }

  /** A new request is taken if and only if its conversation has the wheel and no active task, belongs to a project,
      and the machine is online. The new task has done nothing yet; its conversation hands over the wheel exactly if
      nobody of the project is at work, and no other row changes. */
  lemma HandsOverExactly(db: Db, req: Request)
    requires forall u :: 0 <= u < |db.tasks| ==> db.tasks[u].key != req.key
    ensures var r := Handover(db, req);
            && (r.Ok? <==> && req.session < |db.sessions| && req.online
                           && db.sessions[req.session].wheel == User && db.sessions[req.session].active == None
                           && db.sessions[req.session].project != None)
            && (r.Err? ==> r.fault == if req.session >= |db.sessions| then NotFound
                                      else if !Free(db.sessions[req.session]) then WheelHeld
                                      else if db.sessions[req.session].project == None then ProjectRequired
                                      else EnvironmentOffline)
    ensures var r := Handover(db, req);
            r.Ok? ==>
              var (after, t, s) := (r.value.0, r.value.1, req.session);
              var project := db.sessions[s].project.value;
              && t == |db.tasks| && |after.tasks| == t + 1 && after.tasks[..t] == db.tasks
              && var row := after.tasks[t];
              && row.state.Received? && row.attempts == [] && row.interactions == [] && row.limit == req.limit
              && (row.session, row.project, row.used, row.reserved) == (s, project, 0.0, 0.0)
              && (row.tagged <==> req.clientTag || AtWork(db.tasks, project))
              && |after.sessions| == |db.sessions|
              && (forall v :: 0 <= v < |db.sessions| && v != s ==> after.sessions[v] == db.sessions[v])
              && (if AtWork(db.tasks, project) then after.sessions[s] == db.sessions[s]
                  else after.sessions[s].wheel == Advisor && after.sessions[s].active == Some(t))
  {
    hide NextQueued;
    if req.session < |db.sessions| && db.sessions[req.session].project.Some? {
      var project := db.sessions[req.session].project.value;
      assert ActiveTask(db.tasks, project).Some? <==> AtWork(db.tasks, project);
      hide ActiveTask;
    }
  }
}
