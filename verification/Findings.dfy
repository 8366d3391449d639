/** Consequences a caller of the ledger sees, and where its promises stop: runs that show a promise fail
    outside its condition. */
module Findings {
  import opened Prelude
  import opened States
  import opened TaskRows
  import opened RowProofs
  import opened LedgerSpec
  import opened WheelProofs
  import opened LedgerRuns
  import opened History

  // ---------- cancelling ----------

  lemma SameActive(a: seq<Task>, b: seq<Task>, project: nat)
    requires |a| == |b|
    requires forall t :: 0 <= t < |a| ==> a[t].project == b[t].project && (Holds(a[t]) <==> Holds(b[t]))
    ensures ActiveTask(a, project) == ActiveTask(b, project)
  {
    var i, j := ActiveTask(a, project), ActiveTask(b, project);
    if i.Some? {
      assert Holds(b[i.value]);
    }
    if j.Some? {
      assert Holds(a[j.value]);
    }
  }

  /** A cancel goes through unless the task is still queued behind another and the expert after it works
      in a third conversation; then the whole request is rolled back, the intent included. */
  lemma CancelGoesThrough(db: Db, t: nat)
    requires WheelInv(db) && t < |db.tasks|
    ensures var row := db.tasks[t];
            && (RequestCancel(db, t).Ok? <==> (QueuedBehind(row) ==> NextSharesConversation(db.tasks, t)))
            && (RequestCancel(db, t).Err? ==> RequestCancel(db, t) == Err(ProjectBusy))
            && (RequestCancel(db, t).Ok? && Open(row) ==>
                  var after := RequestCancel(db, t).value.tasks;
                  && |after| == |db.tasks| && after[t].cancel
                  && after[t].state == if row.state.Running? then TaskState.Running else TaskState.Cancelled)
  {
    hide ActiveTask, NextQueued, Transition, WheelInv;
    var was := db.tasks[t];
    if Open(was) {
      var row := was.(cancel := true, version := was.version + 1);
      RewriteKeeps(db, t, row);
      var flagged := Write(db, t, row).value;
      if !was.state.Running? {
        CancelOfAFlagged(db, t, flagged);
      }
    }
  }

  lemma CancelOfAFlagged(db: Db, t: nat, flagged: Db)
    requires t < |db.tasks| && Open(db.tasks[t]) && !db.tasks[t].state.Running?
    requires flagged == db.(tasks := db.tasks[t := db.tasks[t].(cancel := true, version := db.tasks[t].version + 1)])
    requires WheelInv(flagged)
    ensures var r := Transition(flagged, t, TaskState.Cancelled, Some(db.tasks[t].version + 1), None);
            && (r.Ok? <==> (QueuedBehind(db.tasks[t]) ==> NextSharesConversation(db.tasks, t)))
            && (r.Err? ==> r == Err(ProjectBusy))
            && (r.Ok? ==> |r.value.tasks| == |db.tasks| && r.value.tasks[t].state.Cancelled? && r.value.tasks[t].cancel)
  {
    hide ActiveTask, NextQueued, WheelInv;
    var r := Transition(flagged, t, TaskState.Cancelled, Some(db.tasks[t].version + 1), None);
    assert r == Transition(flagged, t, TaskState.Cancelled, None, None);
    hide Transition;
    if Holds(flagged.tasks[t]) {
      EndingTheActiveTask(flagged, t, TaskState.Cancelled, None);
    } else {
      EndingAQueuedTask(flagged, t, TaskState.Cancelled, None);
      SameQueue(db.tasks[t := db.tasks[t].(tagged := false, state := TaskState.Cancelled)],
                flagged.tasks[t := flagged.tasks[t].(tagged := false, state := TaskState.Cancelled)],
                db.tasks[t].project);
      SameActive(db.tasks, flagged.tasks, db.tasks[t].project);
    }
    if r.Ok? {
      TransitionRows(flagged, t, TaskState.Cancelled, Some(db.tasks[t].version + 1), None);
    }
  }

  // ---------- handing over again ----------

  ghost predicate UniqueKeys(tasks: seq<Task>) {
    forall t, u | 0 <= t < |tasks| && 0 <= u < |tasks| :: tasks[t].key == tasks[u].key ==> t == u
  }

  lemma OnlyHandoverAddsTasks(db: Db, op: Op)
    requires !op.HandOver?
    ensures |Apply(db, op).tasks| == |db.tasks|
  {
    hide RowOutcome, ActiveTask, NextQueued, Freed, Move;
  }

  lemma {:induction false} KeysStayUnique(db: Db, ops: seq<Op>)
    requires UniqueKeys(db.tasks)
    ensures UniqueKeys(Run(db, ops).tasks)
    decreases |ops|
  {
    if ops != [] {
      ApplyIsLater(db, ops[0]);
      assert UniqueKeys(Apply(db, ops[0]).tasks) by {
        if !ops[0].HandOver? {
          hide Apply;
          OnlyHandoverAddsTasks(db, ops[0]);
        }
      }
      KeysStayUnique(Apply(db, ops[0]), ops[1..]);
    }
  }

  /** Whatever happened since, the same request under the same key answers with the task it made the first
      time and changes nothing; another request under that key is refused. */
  lemma RetryIsIdempotent(db: Db, req: Request, ops: seq<Op>, again: Request)
    requires UniqueKeys(db.tasks) && Handover(db, req).Ok? && again.key == req.key
    ensures var (made, t) := Handover(db, req).value;
            Handover(Run(made, ops), again)
            == if again.digest == req.digest then Ok((Run(made, ops), t)) else Err(IdempotencyConflict)
  {
    hide Run;
    var (made, t) := Handover(db, req).value;
    assert UniqueKeys(made.tasks);
    KeysStayUnique(made, ops);
    EveryRunIsLater(made, ops);
    assert made.tasks[t].key == req.key && made.tasks[t].digest == req.digest;
    assert Run(made, ops).tasks[t].key == again.key;
    assert FindKey(Run(made, ops).tasks, again.key) == Some(t);
  }

  // ---------- what does not hold ----------

  /** A question answered in the middle of a turn puts the task back in the queue while its attempt goes on:
      a live attempt does not mean the task is RUNNING. */
  lemma AnsweredInATurn(row: Task, ticket: Ticket)
    requires row.state.Running? && row.attempt.Some? && ticket == Ticket(true, true, true)
    ensures var asked := Ask(row, ToolApproval, Approval, "", false);
            && asked.Ok?
            && var answered := Answer(asked.value, |row.interactions|, ticket, Other, TaskState.Queued);
            && answered.Ok? && answered.value.state.Queued? && answered.value.attempt == row.attempt
            && answered.value.attempts == row.attempts
  {
    var asked := Ask(row, ToolApproval, Approval, "", false).value;
    assert Answerable(asked, |row.interactions|, ticket);
  }

  /** When a connection dies its pending tool approvals can no longer be answered; every other question can be
      answered exactly as before. */
  lemma ExpiryClosesApprovals(row: Task, i: nat, ticket: Ticket)
    ensures Answerable(ExpireApprovals(row), i, ticket)
       <==> Answerable(row, i, ticket) && !row.interactions[i].kind.ToolApproval?
    ensures ExpireApprovals(row).state == row.state && ExpireApprovals(row).interaction == row.interaction
  {
  }

  // ---------- runs outside the conditions ----------

  lemma {:induction false} OneMore(db: Db, ops: seq<Op>, op: Op)
    ensures Run(db, ops + [op]) == Apply(Run(db, ops), op)
    ensures DisciplinedRun(db, ops + [op]) <==> DisciplinedRun(db, ops) && Disciplined(Run(db, ops), op)
    decreases |ops|
  {
    if ops == [] {
      assert Run(Apply(db, op), []) == Apply(db, op);
    } else {
      assert (ops + [op])[1..] == ops[1..] + [op];
      OneMore(Apply(db, ops[0]), ops[1..], op);
    }
  }

  function HandOverFrom(session: nat, limit: Option<real>, clientTag: bool): Op {
    HandOver(Request(session, session, 0, limit, clientTag, true))
  }

  const HOME := Session(User, None, Some(0), 0)
  const BUSY := Session(Advisor, Some(0), Some(0), 1)

  /** Three conversations of one project ask for an expert; the second cannot cancel while the first works. */
  lemma QueuedCancelRefused() returns (ops: seq<Op>)
    ensures DisciplinedRun(EMPTY, ops) && |Run(EMPTY, ops).tasks| == 3
    ensures QueuedBehind(Run(EMPTY, ops).tasks[1]) && RequestCancel(Run(EMPTY, ops), 1) == Err(ProjectBusy)
  {
    hide Run, DisciplinedRun, RequestCancel, Apply;
    NoOps();
    var db;
    ops, db := Step([], EMPTY, NewSession(Some(0)));
    ops, db := Step(ops, db, NewSession(Some(0)));
    ops, db := Step(ops, db, NewSession(Some(0)));
    ThreeSessions();
    ops, db := Step(ops, db, HandOverFrom(0, None, false));
    FirstAsks();
    ops, db := Step(ops, db, HandOverFrom(1, None, false));
    SecondAsks();
    ops, db := Step(ops, db, HandOverFrom(2, None, false));
    ThirdAsks();
    EveryRunKeeps(EMPTY, ops);
    CancelGoesThrough(db, 1);
    NextInAThirdConversation();
  }

  function Asked(session: nat): Task {
    NewTask(session, 0, session, 0, None, session > 0)
  }

  lemma ThreeSessions()
    ensures Apply(Apply(Apply(EMPTY, NewSession(Some(0))), NewSession(Some(0))), NewSession(Some(0)))
         == Db([HOME, HOME, HOME], [])
  {
  }

  lemma FirstAsks()
    ensures Apply(Db([HOME, HOME, HOME], []), HandOverFrom(0, None, false)) == Db([BUSY, HOME, HOME], [Asked(0)])
  {
  }

  lemma SecondAsks()
    ensures Apply(Db([BUSY, HOME, HOME], [Asked(0)]), HandOverFrom(1, None, false))
         == Db([BUSY, HOME, HOME], [Asked(0), Asked(1)])
  {
    assert Holds([Asked(0)][0]);
  }

  lemma ThirdAsks()
    ensures Apply(Db([BUSY, HOME, HOME], [Asked(0), Asked(1)]), HandOverFrom(2, None, false))
         == Db([BUSY, HOME, HOME], [Asked(0), Asked(1), Asked(2)])
  {
    assert Holds([Asked(0), Asked(1)][0]);
  }

  lemma NextInAThirdConversation()
    ensures !NextSharesConversation([Asked(0), Asked(1), Asked(2)], 1)
  {
    var tasks := [Asked(0), Asked(1), Asked(2)];
    var others := tasks[1 := tasks[1].(tagged := false, state := TaskState.Cancelled)];
    assert QueuedBehind(others[2]) && !QueuedBehind(others[0]) && !QueuedBehind(others[1]);
    assert NextQueued(others, 0) == Some(2);
    assert Holds(tasks[0]) && ActiveTask(tasks, 0) == Some(0);
  }

  lemma NoOps()
    ensures Run(EMPTY, []) == EMPTY && DisciplinedRun(EMPTY, [])
  {
  }

  lemma Step(ops: seq<Op>, db: Db, op: Op) returns (more: seq<Op>, after: Db)
    requires Run(EMPTY, ops) == db
    ensures more == ops + [op] && Run(EMPTY, more) == after == Apply(db, op)
    ensures DisciplinedRun(EMPTY, more) <==> DisciplinedRun(EMPTY, ops) && Disciplined(db, op)
  {
    more, after := ops + [op], Apply(db, op);
    OneMore(EMPTY, ops, op);
  }

  /** A caller that sends its own `queued_behind` gets a task that holds a wheel but not its project: the
      next conversation of the project starts too, and then the first expert cannot take a step. */
  lemma ClientTagLetsTwoStart() returns (ops: seq<Op>)
    ensures var db := Run(EMPTY, ops);
            && |db.sessions| == 2 && |db.tasks| == 2
            && db.sessions[0].wheel.Advisor? && db.sessions[1].wheel.Advisor?
            && db.sessions[0].project == db.sessions[1].project
            && Transition(db, 0, TaskState.Validating, None, None) == Err(ProjectBusy)
  {
    hide Run, DisciplinedRun;
    NoOps();
    var db;
    ops, db := Step([], EMPTY, NewSession(Some(0)));
    ops, db := Step(ops, db, NewSession(Some(0)));
    assert db == Db([HOME, HOME], []);
    ops, db := Step(ops, db, HandOverFrom(0, None, true));
    assert db == Db([BUSY, HOME], [NewTask(0, 0, 0, 0, None, true)]);
    ops, db := Step(ops, db, HandOverFrom(1, None, false));
    assert db.tasks == [NewTask(0, 0, 0, 0, None, true), NewTask(1, 0, 1, 0, None, false)];
    assert Holds(db.tasks[1]);
  }
}
