/** Who has the wheel, and who waits behind whom: the joint invariant of sessions and tasks. */
module WheelProofs {
  import opened Prelude
  import opened States
  import opened TaskRows
  import opened RowProofs
  import opened LedgerSpec

  /** A task belongs to the project its conversation belongs to. */
  ghost predicate Homed(db: Db) {
    forall t :: 0 <= t < |db.tasks| ==>
                  && db.tasks[t].session < |db.sessions|
                  && db.sessions[db.tasks[t].session].project == Some(db.tasks[t].project)
  }

  /** A session's active task is its one unfinished task that is not queued behind another, and the
      wheel is with the advisor exactly when there is one. */
  ghost predicate WheelMatches(db: Db) {
    && (forall s :: 0 <= s < |db.sessions| ==> (db.sessions[s].wheel.Advisor? <==> db.sessions[s].active.Some?))
    && (forall s :: 0 <= s < |db.sessions| && db.sessions[s].active.Some? ==>
                      var t := db.sessions[s].active.value;
                      t < |db.tasks| && db.tasks[t].session == s && Holds(db.tasks[t]))
    && (forall t :: 0 <= t < |db.tasks| && Holds(db.tasks[t]) && db.tasks[t].session < |db.sessions| ==>
                      db.sessions[db.tasks[t].session].active == Some(t))
  }

  /** One expert per project at a time. */
  ghost predicate OnePerProject(tasks: seq<Task>) {
    forall t, u | 0 <= t < |tasks| && 0 <= u < |tasks| && Holds(tasks[t]) && Holds(tasks[u]) ::
      tasks[t].project == tasks[u].project ==> t == u
  }

  /** Whoever is queued has somebody to wait for. */
  ghost predicate NobodyStranded(tasks: seq<Task>) {
    forall t :: 0 <= t < |tasks| && QueuedBehind(tasks[t]) ==> ActiveTask(tasks, tasks[t].project).Some?
  }

  ghost predicate WheelInv(db: Db) {
    Homed(db) && WheelMatches(db) && OnePerProject(db.tasks) && NobodyStranded(db.tasks)
  }

  /** What keeps a session busy is a task of the session's own project. */
  lemma BusyAtHome(db: Db, s: nat)
    requires Homed(db) && WheelMatches(db) && s < |db.sessions| && db.sessions[s].active.Some?
    ensures var t := db.sessions[s].active.value;
            t < |db.tasks| && Holds(db.tasks[t]) && db.sessions[s].project == Some(db.tasks[t].project)
  {
  }

  /** A project keeps its active expert as long as that expert's row keeps the place. */
  lemma LeaderStays(was: seq<Task>, now: seq<Task>, project: nat)
    requires ActiveTask(was, project).Some? && |was| <= |now|
    requires var a := ActiveTask(was, project).value; Holds(now[a]) && now[a].project == project
    ensures ActiveTask(now, project).Some?
  {
    hide ActiveTask, NextQueued;
  }

  // ---------- rewriting one row ----------

  /** `row` takes its project's place exactly when `was` does, in the same conversation. */
  predicate SameStanding(was: Task, row: Task) {
    && row.session == was.session && row.project == was.project
    && (Holds(row) <==> Holds(was))
    && (QueuedBehind(row) ==> QueuedBehind(was))
  }

  lemma RewriteKeeps(db: Db, t: nat, row: Task)
    requires WheelInv(db) && t < |db.tasks| && SameStanding(db.tasks[t], row)
    ensures WheelInv(db.(tasks := db.tasks[t := row]))
    ensures Write(db, t, row) == Ok(db.(tasks := db.tasks[t := row]))
  {
    hide ActiveTask, NextQueued;
    var tasks := db.tasks[t := row];
    forall u | 0 <= u < |tasks| && QueuedBehind(tasks[u])
      ensures ActiveTask(tasks, tasks[u].project).Some?
    {
      assert QueuedBehind(db.tasks[u]);
      var a := ActiveTask(db.tasks, tasks[u].project).value;
      assert Holds(tasks[a]) && tasks[a].project == tasks[u].project;
    }
  }

  // ---------- the end of a task ----------

  /** Everything but "nobody stranded" in one project, which has no active task at this moment. */
  ghost predicate Vacant(db: Db, project: nat) {
    && Homed(db) && WheelMatches(db) && OnePerProject(db.tasks)
    && (forall t :: 0 <= t < |db.tasks| && db.tasks[t].project == project ==> !Holds(db.tasks[t]))
    && (forall t :: 0 <= t < |db.tasks| && QueuedBehind(db.tasks[t]) && db.tasks[t].project != project ==>
                      ActiveTask(db.tasks, db.tasks[t].project).Some?)
  }

  /** When a project has no active task, the busy check cannot hold back its next expert: a conversation
      of the project could only be busy with a task of the same project. */
  lemma NextIsFree(db: Db, project: nat)
    requires Vacant(db, project) && NextQueued(db.tasks, project).Some?
    ensures var next := db.tasks[NextQueued(db.tasks, project).value];
            next.session < |db.sessions| && Free(db.sessions[next.session])
  {
    hide ActiveTask, NextQueued;
    var s := db.tasks[NextQueued(db.tasks, project).value].session;
    if db.sessions[s].active.Some? {
      BusyAtHome(db, s);
    }
  }

  /** Task `t` stops waiting its turn, and its conversation hands it the wheel. */
  function Appointed(db: Db, t: nat): Db
    requires t < |db.tasks| && db.tasks[t].session < |db.sessions|
  {
    var row := db.tasks[t].(tagged := false, version := db.tasks[t].version + 1);
    SetWheel(db.(tasks := db.tasks[t := row]), row.session, Advisor, Some(t))
  }

  lemma AppointedMatches(db: Db, t: nat)
    requires Homed(db) && WheelMatches(db) && t < |db.tasks| && QueuedBehind(db.tasks[t])
    requires Free(db.sessions[db.tasks[t].session])
    ensures Homed(Appointed(db, t)) && WheelMatches(Appointed(db, t))
  {
    var after := Appointed(db, t);
    var s := db.tasks[t].session;
    forall u | 0 <= u < |after.tasks| && Holds(after.tasks[u]) && after.tasks[u].session < |after.sessions|
      ensures after.sessions[after.tasks[u].session].active == Some(u)
    {
      if u != t {
        assert Holds(db.tasks[u]);
      }
    }
  }

  lemma AppointedKeeps(db: Db, t: nat)
    requires t < |db.tasks| && Vacant(db, db.tasks[t].project) && QueuedBehind(db.tasks[t])
    requires Free(db.sessions[db.tasks[t].session])
    ensures WheelInv(Appointed(db, t)) && ActiveTask(Appointed(db, t).tasks, db.tasks[t].project) == Some(t)
  {
    hide ActiveTask, NextQueued;
    AppointedMatches(db, t);
    var tasks := Appointed(db, t).tasks;
    assert Holds(tasks[t]);
    forall u | 0 <= u < |tasks| && QueuedBehind(tasks[u])
      ensures ActiveTask(tasks, tasks[u].project).Some?
    {
      if tasks[u].project != db.tasks[t].project {
        var a := ActiveTask(db.tasks, tasks[u].project).value;
        assert Holds(tasks[a]);
      }
    }
  }

  lemma StartNextIs(db: Db, project: nat)
    requires forall t :: 0 <= t < |db.tasks| && db.tasks[t].project == project ==> !Holds(db.tasks[t])
    requires var next := NextQueued(db.tasks, project);
             next.Some? ==> var s := db.tasks[next.value].session; s < |db.sessions| && Free(db.sessions[s])
    ensures var next := NextQueued(db.tasks, project);
            StartNext(db, project) == Ok(if next.None? then db else Appointed(db, next.value))
  {
    var next := NextQueued(db.tasks, project);
    assert next.Some? ==> !Taken(db.tasks, next.value, project);
  }

  lemma NobodyToStart(db: Db, project: nat)
    requires Vacant(db, project) && NextQueued(db.tasks, project).None?
    ensures WheelInv(db) && ActiveTask(db.tasks, project).None?
  {
  }

  /** The earliest queued task, and no other, starts; its conversation hands over the wheel. */
  lemma StartNextFills(db: Db, project: nat)
    requires Vacant(db, project)
    ensures StartNext(db, project).Ok? && WheelInv(StartNext(db, project).value)
    ensures ActiveTask(StartNext(db, project).value.tasks, project) == NextQueued(db.tasks, project)
  {
    var next := NextQueued(db.tasks, project);
    if next.Some? {
      NextIsFree(db, project);
      AppointedKeeps(db, next.value);
    } else {
      NobodyToStart(db, project);
    }
    StartNextIs(db, project);
  }

  /** The row ended, and its wheel back with the user. */
  function Closed(db: Db, t: nat, row: Task): Db
    requires t < |db.tasks| && row.session < |db.sessions|
  {
    ReturnWheel(db.(tasks := db.tasks[t := row]), t)
  }

  lemma ClosingReturnsTheWheel(db: Db, t: nat, row: Task)
    requires WheelInv(db) && t < |db.tasks| && Holds(db.tasks[t])
    requires !Open(row) && row.session == db.tasks[t].session && row.project == db.tasks[t].project
    ensures var after := Closed(db, t, row);
            && after.tasks == db.tasks[t := row]
            && after.sessions[row.session].active.None?
            && Homed(after) && WheelMatches(after)
  {
    var after := Closed(db, t, row);
    forall u | 0 <= u < |after.tasks| && Holds(after.tasks[u]) && after.tasks[u].session < |after.sessions|
      ensures after.sessions[after.tasks[u].session].active == Some(u)
    {
      assert u != t && Holds(db.tasks[u]);
    }
  }

  lemma ClosingVacates(db: Db, t: nat, row: Task)
    requires WheelInv(db) && t < |db.tasks| && Holds(db.tasks[t])
    requires !Open(row) && row.session == db.tasks[t].session && row.project == db.tasks[t].project
    ensures Vacant(Closed(db, t, row), row.project)
    ensures NextQueued(Closed(db, t, row).tasks, row.project) == NextQueued(db.tasks, row.project)
  {
    hide ActiveTask, NextQueued;
    ClosingReturnsTheWheel(db, t, row);
    var tasks := db.tasks[t := row];
    SameQueue(tasks, db.tasks, row.project);
    forall u | 0 <= u < |tasks| && QueuedBehind(tasks[u]) && tasks[u].project != row.project
      ensures ActiveTask(tasks, tasks[u].project).Some?
    {
      assert QueuedBehind(db.tasks[u]);
      var a := ActiveTask(db.tasks, tasks[u].project).value;
      assert Holds(tasks[a]) && tasks[a].project == tasks[u].project;
    }
  }

  /** What ending a task comes down to once its move is valid. */
  lemma EndingIs(db: Db, t: nat, target: TaskState, reason: Option<WaitingReason>)
    requires WheelInv(db) && t < |db.tasks| && Terminal(target) && ValidMove(db.tasks[t].state, target, reason)
    ensures var row := Move(db.tasks[t], target, reason).value;
            && !Open(row) && row.session == db.tasks[t].session && row.project == db.tasks[t].project
            && Transition(db, t, target, None, reason) == StartNext(Closed(db, t, row), row.project)
  {
  }

  /** When the active task of a project ends, the earliest queued task of the project starts at once. */
  lemma EndingTheActiveTask(db: Db, t: nat, target: TaskState, reason: Option<WaitingReason>)
    requires WheelInv(db) && t < |db.tasks| && Holds(db.tasks[t])
    requires Terminal(target) && ValidMove(db.tasks[t].state, target, reason)
    ensures Transition(db, t, target, None, reason).Ok?
    ensures WheelInv(Transition(db, t, target, None, reason).value)
    ensures var project := db.tasks[t].project;
            ActiveTask(Transition(db, t, target, None, reason).value.tasks, project) == NextQueued(db.tasks, project)
  {
    var row := Move(db.tasks[t], target, reason).value;
    EndingIs(db, t, target, reason);
    ClosingVacates(db, t, row);
    StartNextFills(Closed(db, t, row), row.project);
  }

  /** The queued tasks of a project that come before `q`. */
  function Ahead(tasks: seq<Task>, q: nat): set<nat>
    requires q < |tasks|
  {
    set u: nat | 0 <= u < q && QueuedBehind(tasks[u]) && tasks[u].project == tasks[q].project
  }

  /** Two rows change: the one that ended, and the one that starts. */
  lemma EndingWrites(db: Db, t: nat, target: TaskState, reason: Option<WaitingReason>)
    requires WheelInv(db) && t < |db.tasks| && Holds(db.tasks[t])
    requires Terminal(target) && ValidMove(db.tasks[t].state, target, reason)
    ensures var row := Move(db.tasks[t], target, reason).value;
            && Transition(db, t, target, None, reason).Ok?
            && Transition(db, t, target, None, reason).value.tasks
               == Promoted(db.tasks[t := row], NextQueued(db.tasks, row.project))
  {
    hide ActiveTask, NextQueued, StartNext, Vacant;
    var row := Move(db.tasks[t], target, reason).value;
    EndingIs(db, t, target, reason);
    ClosingVacates(db, t, row);
    ClosingReturnsTheWheel(db, t, row);
    hide Transition, Move, Closed, Holds, WheelInv;
    PromotesNext(Closed(db, t, row), row.project);
  }

  /** The row of the task that stops waiting its turn, if there is one. */
  function Promoted(tasks: seq<Task>, next: Option<nat>): seq<Task> {
    if next.None? || next.value >= |tasks| then tasks
    else tasks[next.value := tasks[next.value].(tagged := false, version := tasks[next.value].version + 1)]
  }

  lemma PromotesNext(db: Db, project: nat)
    requires Vacant(db, project)
    ensures StartNext(db, project).Ok?
    ensures StartNext(db, project).value.tasks == Promoted(db.tasks, NextQueued(db.tasks, project))
  {
    hide ActiveTask, NextQueued;
    if NextQueued(db.tasks, project).Some? {
      NextIsFree(db, project);
    }
    StartNextIs(db, project);
  }

  lemma RestMovesUp(was: seq<Task>, now: seq<Task>, t: nat, next: nat, q: nat)
    requires |now| == |was| && t < |was| && next < q < |was|
    requires !QueuedBehind(was[t]) && !QueuedBehind(now[t])
    requires QueuedBehind(was[next]) && was[next].project == was[q].project && !QueuedBehind(now[next])
    requires forall u :: 0 <= u < |was| && u != t && u != next ==> now[u] == was[u]
    requires q != t
    ensures |Ahead(now, q)| == |Ahead(was, q)| - 1
  {
    assert Ahead(now, q) == Ahead(was, q) - {next};
    assert next in Ahead(was, q);
  }

  /** First in, first out: whenever the active expert of a project ends, every queued task of the project moves
      up by exactly one, and the first one starts. */
  lemma QueueMovesUp(db: Db, t: nat, target: TaskState, reason: Option<WaitingReason>, q: nat)
    requires WheelInv(db) && t < |db.tasks| && Holds(db.tasks[t])
    requires Terminal(target) && ValidMove(db.tasks[t].state, target, reason)
    requires q < |db.tasks| && QueuedBehind(db.tasks[q]) && db.tasks[q].project == db.tasks[t].project
    ensures Transition(db, t, target, None, reason).Ok?
    ensures var after := Transition(db, t, target, None, reason).value.tasks;
            && |after| == |db.tasks|
            && if Ahead(db.tasks, q) == {} then ActiveTask(after, db.tasks[q].project) == Some(q)
               else QueuedBehind(after[q]) && |Ahead(after, q)| == |Ahead(db.tasks, q)| - 1
  {
    hide ActiveTask, NextQueued, Transition, WheelInv, Move;
    EndingTheActiveTask(db, t, target, reason);
    EndingWrites(db, t, target, reason);
    EndedRow(db.tasks[t], target, reason);
    var after := Transition(db, t, target, None, reason).value.tasks;
    var next := NextQueued(db.tasks, db.tasks[t].project).value;
    if Ahead(db.tasks, q) == {} {
      assert next !in Ahead(db.tasks, q);
    } else {
      var u :| u in Ahead(db.tasks, q);
      assert next <= u;
      RestMovesUp(db.tasks, after, t, next, q);
    }
  }

  lemma EndedRow(row: Task, target: TaskState, reason: Option<WaitingReason>)
    requires Terminal(target) && ValidMove(row.state, target, reason)
    ensures Move(row, target, reason).Ok? && !Open(Move(row, target, reason).value)
    ensures Move(row, target, reason).value.project == row.project
  {
  }

  /** The conversation of the project's next expert is the one the active expert works in. */
  predicate NextSharesConversation(tasks: seq<Task>, t: nat)
    requires t < |tasks|
  {
    var others := tasks[t := tasks[t].(tagged := false, state := TaskState.Cancelled)];
    var next := NextQueued(others, tasks[t].project);
    var active := ActiveTask(tasks, tasks[t].project);
    next.None? || (active.Some? && tasks[next.value].session == tasks[active.value].session)
  }

  /** Starting the next expert while another is active in the project: nothing happens, or a refusal. */
  lemma StartNextBesides(db: Db, project: nat, active: nat)
    requires WheelInv(db) && active < |db.tasks| && Holds(db.tasks[active]) && db.tasks[active].project == project
    ensures var next := NextQueued(db.tasks, project);
            StartNext(db, project)
            == if next.None? || db.tasks[next.value].session == db.tasks[active].session then Ok(db)
               else Err(ProjectBusy)
  {
    hide ActiveTask, NextQueued;
    var next := NextQueued(db.tasks, project);
    if next.Some? {
      var s := db.tasks[next.value].session;
      assert db.sessions[s].project == Some(project);
      if db.sessions[s].active.Some? {
        BusyAtHome(db, s);
      }
      assert Taken(db.tasks, next.value, project);
    }
  }

  /** Ending a task that is still queued works exactly when nobody else is queued in its project, or the
      first of them shares its conversation with the active expert. Otherwise the ledger tries to start
      that one beside the active expert, the unique index refuses, and the ending is rolled back. */
  lemma EndingAQueuedTask(db: Db, t: nat, target: TaskState, reason: Option<WaitingReason>)
    requires WheelInv(db) && t < |db.tasks| && QueuedBehind(db.tasks[t])
    requires Terminal(target) && ValidMove(db.tasks[t].state, target, reason)
    ensures Transition(db, t, target, None, reason).Ok? <==> NextSharesConversation(db.tasks, t)
    ensures !NextSharesConversation(db.tasks, t) ==> Transition(db, t, target, None, reason) == Err(ProjectBusy)
    ensures Transition(db, t, target, None, reason).Ok? ==>
              && WheelInv(Transition(db, t, target, None, reason).value)
              && ActiveTask(Transition(db, t, target, None, reason).value.tasks, db.tasks[t].project)
                 == ActiveTask(db.tasks, db.tasks[t].project)
  {
    var row := Move(db.tasks[t], target, reason).value;
    EndingIs(db, t, target, reason);
    RewriteKeeps(db, t, row);
    var after := db.(tasks := db.tasks[t := row]);
    assert Closed(db, t, row) == after;
    var active := ActiveTask(db.tasks, row.project).value;
    StartNextBesides(after, row.project, active);
    SameQueue(db.tasks[t := db.tasks[t].(tagged := false, state := TaskState.Cancelled)], after.tasks, row.project);
    assert ActiveTask(after.tasks, row.project) == Some(active);
  }

  lemma SameQueue(a: seq<Task>, b: seq<Task>, project: nat)
    requires |a| == |b|
    requires forall t :: 0 <= t < |a| ==> a[t].project == b[t].project && (QueuedBehind(a[t]) <==> QueuedBehind(b[t]))
    ensures NextQueued(a, project) == NextQueued(b, project)
  {
    var i, j := NextQueued(a, project), NextQueued(b, project);
    if i.Some? {
      assert QueuedBehind(b[i.value]);
    }
    if j.Some? {
      assert QueuedBehind(a[j.value]);
    }
  }

  // ---------- every transaction keeps the invariant ----------

  /** A move that does not end a task keeps its standing; a queued task cannot start by itself. */
  lemma SteppingKeeps(db: Db, t: nat, row: Task)
    requires WheelInv(db) && t < |db.tasks| && Open(db.tasks[t]) && Open(row)
    requires row.session == db.tasks[t].session && row.project == db.tasks[t].project
    requires Write(db, t, row).Ok? && (row.state.Received? ==> QueuedBehind(db.tasks[t]) && row.tagged)
    ensures WheelInv(Write(db, t, row).value)
  {
    hide ActiveTask, NextQueued;
    if QueuedBehind(db.tasks[t]) && Holds(row) {
      assert Taken(db.tasks, t, row.project) by {
        var a := ActiveTask(db.tasks, row.project);
        assert a.Some? && a.value != t;
      }
    }
    RewriteKeeps(db, t, row);
  }

  lemma TransitionKeeps(db: Db, t: nat, target: TaskState, expected: Option<nat>, reason: Option<WaitingReason>)
    requires WheelInv(db) && Transition(db, t, target, expected, reason).Ok?
    ensures WheelInv(Transition(db, t, target, expected, reason).value)
  {
    assert Transition(db, t, target, None, reason) == Transition(db, t, target, expected, reason);
    if !Terminal(target) {
      SteppingKeeps(db, t, Move(db.tasks[t], target, reason).value);
    } else if Holds(db.tasks[t]) {
      EndingTheActiveTask(db, t, target, reason);
    } else {
      EndingAQueuedTask(db, t, target, reason);
    }
  }

  /** A new row joins the end of its project's queue. */
  lemma QueuedJoins(db: Db, row: Task)
    requires WheelInv(db) && QueuedBehind(row) && ActiveTask(db.tasks, row.project).Some?
    requires row.session < |db.sessions| && db.sessions[row.session].project == Some(row.project)
    ensures WheelInv(db.(tasks := db.tasks + [row]))
  {
    hide ActiveTask, NextQueued;
    var tasks := db.tasks + [row];
    forall u | 0 <= u < |tasks| && QueuedBehind(tasks[u])
      ensures ActiveTask(tasks, tasks[u].project).Some?
    {
      LeaderStays(db.tasks, tasks, tasks[u].project);
    }
  }

  lemma ActiveJoinsMatches(db: Db, row: Task)
    requires Homed(db) && WheelMatches(db) && Holds(row)
    requires row.session < |db.sessions| && db.sessions[row.session].project == Some(row.project)
    requires Free(db.sessions[row.session])
    ensures var after := SetWheel(db.(tasks := db.tasks + [row]), row.session, Advisor, Some(|db.tasks|));
            Homed(after) && WheelMatches(after)
  {
  }

  /** A new row takes the vacant place of its project. */
  lemma ActiveJoins(db: Db, row: Task)
    requires WheelInv(db) && Holds(row) && ActiveTask(db.tasks, row.project).None?
    requires row.session < |db.sessions| && db.sessions[row.session].project == Some(row.project)
    requires Free(db.sessions[row.session])
    ensures WheelInv(SetWheel(db.(tasks := db.tasks + [row]), row.session, Advisor, Some(|db.tasks|)))
  {
    hide ActiveTask, NextQueued;
    ActiveJoinsMatches(db, row);
    var tasks := db.tasks + [row];
    forall u | 0 <= u < |tasks| && QueuedBehind(tasks[u])
      ensures ActiveTask(tasks, tasks[u].project).Some?
    {
      assert u < |db.tasks|;
      LeaderStays(db.tasks, tasks, tasks[u].project);
    }
  }

  /** A move its own row allows to the task with the project's place is never refused. */
  lemma MoveIsTaken(db: Db, t: nat, target: TaskState, reason: Option<WaitingReason>)
    requires WheelInv(db) && t < |db.tasks| && Holds(db.tasks[t]) && Move(db.tasks[t], target, reason).Ok?
    ensures Transition(db, t, target, None, reason).Ok?
  {
    if Terminal(target) {
      EndingTheActiveTask(db, t, target, reason);
    } else {
      RewriteKeeps(db, t, Move(db.tasks[t], target, reason).value);
    }
  }

  /** A handover that made a new task keeps the invariant exactly when the caller's own context does not
      say `queued_behind`, or there really is somebody to queue behind. A repeated one changes nothing. */
  lemma HandoverKeeps(db: Db, req: Request)
    requires WheelInv(db) && Handover(db, req).Ok?
    ensures var (after, t) := Handover(db, req).value;
            if FindKey(db.tasks, req.key).Some? then after == db
            else
              && req.session < |db.sessions| && db.sessions[req.session].project.Some?
              && (WheelInv(after) <==>
                  (req.clientTag ==> ActiveTask(db.tasks, db.sessions[req.session].project.value).Some?))
  {
    if FindKey(db.tasks, req.key).None? {
      var project := db.sessions[req.session].project.value;
      var behind := ActiveTask(db.tasks, project);
      var row := NewTask(req.session, project, req.key, req.digest, req.limit, req.clientTag || behind.Some?);
      if behind.Some? {
        QueuedJoins(db, row);
      } else if !req.clientTag {
        ActiveJoins(db, row);
      } else {
        var after := Handover(db, req).value.0;
        assert after.tasks[|db.tasks|] == row && after.sessions[req.session].active == Some(|db.tasks|);
        assert !WheelMatches(after);
      }
    }
  }
}
