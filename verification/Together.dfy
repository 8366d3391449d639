/** One task's driver at work in the whole ledger: its store actions are transactions of the ledger, between which
    anybody else's come. What the ledger holds of the task is at all times what the driver's own state machine says,
    and the driver keeps what the ledger asks of its callers. */
module Together {
  import opened Prelude
  import opened States
  import opened TaskRows
  import opened RowProofs
  import opened LedgerSpec
  import opened WheelProofs
  import opened LedgerRuns
  import opened AdvisorLink
  import opened Packs
  import opened AdvisorFlow
  import opened AdvisorBounds
  import S = AdvisorSpec
  import AdvisorWork
  import AdvisorRuns

  /** What the driver of a task holds besides the rows of the ledger. */
  datatype Local = Local(arts: map<string, nat>, backs: seq<string>, pc: S.Pc, turns: nat, resumes: nat, crashes: nat)

  datatype Joint = Joint(db: Db, local: Local)

  function WorldOf(j: Joint, t: nat): S.World
    requires t < |j.db.tasks|
  {
    S.World(j.db.tasks[t], j.local.arts, j.local.backs, j.local.pc, j.local.turns, j.local.resumes, j.local.crashes)
  }

  function LocalOf(w: S.World): Local {
    Local(w.arts, w.backs, w.pc, w.turns, w.resumes, w.crashes)
  }

  // ---------- the driver's transactions ----------

  function EndOf(pack: Pack, w: S.World, t: nat): Op
    requires w.pc.Settle? && w.pc.i < |pack|
  {
    var (target, failure) := SettledAs(w.pc.branch);
    var output := if w.pc.branch.Accepted?
                  then Some((pack[w.pc.i].output, S.NextVersion(w.arts, pack[w.pc.i].output))) else None;
    MoveTry(t, w.pc.a, target, w.pc.turn.cost, failure, output)
  }

  /** Where a refused step sends the cursor, if it goes back. */
  function BackTo(pack: Pack, w: S.World): Option<nat>
    requires w.pc.Judged? && w.pc.i < |pack|
  {
    var step := pack[w.pc.i];
    if w.pc.noData || w.pc.reworks < step.maxReworks then None
    else if GoesBack(step) && S.TimesBack(w.backs, step.id) < step.maxBacks then IndexOf(pack, step.backTo.value)
    else None
  }

  /** The one transaction the driver asks of the ledger in this action, if it asks for any. */
  function Own(pack: Pack, w: S.World, t: nat, admitted: bool): Option<Op> {
    var row := w.row;
    match w.pc
    case Begin => if row.state.Received? then Some(MoveTo(t, TaskState.Validating, None, None)) else None
    case Admit => Some(if admitted then Touch(t) else MoveTo(t, TaskState.Rejected, None, None))
    case Enqueue => Some(MoveTo(t, TaskState.Queued, None, None))
    case Opening(i, inputs, _) =>
      if i < |pack| then Some(Op.Begin(t, pack[i].id, inputs, pack[i].reserve)) else None
    case HardStop => Some(AskFor(t, ToppingUp, Resource, "", false))
    case Unask(_, a) => Some(MoveTry(t, a, AttemptState.Cancelled, 0.0, AskedFirst, None))
    case AskFirst(i) => if i < |pack| then Some(AskFor(t, Question, Input, pack[i].id, true)) else None
    case InTurn(_, a, _) => Some(MoveTry(t, a, AttemptState.Running, 0.0, NoCode, None))
    case Settle(i, _, _, _, _) => if i < |pack| then Some(EndOf(pack, w, t)) else None
    case Advance(_) => Some(SetCursor(t, row.cursor + 1))
    case Judged(i, _, _, _) =>
      if i < |pack| && BackTo(pack, w).Some? then Some(SetCursor(t, BackTo(pack, w).value)) else None
    case Requeue => if row.state.Running? then Some(MoveTo(t, TaskState.Queued, None, None)) else None
    case AskUser(i) => if i < |pack| then Some(AskFor(t, InputWanted, Input, pack[i].id, false)) else None
    case WaitEnvironment => Some(MoveTo(t, TaskState.Waiting, None, Some(Environment)))
    case CancelTask => Some(MoveTo(t, TaskState.Cancelled, None, None))
    case FailTask => Some(MoveTo(t, TaskState.Failed, None, None))
    case Close => if row.state.Queued? then Some(MoveTo(t, TaskState.Running, None, None)) else None
    case Succeed => Some(MoveTo(t, TaskState.Succeeded, None, None))
    case _ => None
  }

  /** What the transaction makes of the task's own row. */
  function OnRow(row: Task, op: Op): Result<Task>
    requires RowOp(op) || op.MoveTo?
  {
    if op.MoveTo? then Move(row, op.target, op.reason) else RowOutcome(row, op)
  }

  lemma OwnIsOfTheTask(pack: Pack, w: S.World, t: nat, admitted: bool)
    requires Own(pack, w, t, admitted).Some?
    ensures var op := Own(pack, w, t, admitted).value; (RowOp(op) || op.MoveTo?) && op.task == t
  {
  }

  /** What an action makes of the world, told by what its transaction makes of the row: with a transaction taken, its
      row; without one, or with a refused one, the row as it was. */
  ghost predicate Through(w: S.World, after: S.World, own: Option<Op>) {
    match own
    case None => after.row == w.row
    case Some(op) =>
      && (RowOp(op) || op.MoveTo?)
      && match OnRow(w.row, op)
         case Ok(row) => after.row == row
         case Err(fault) => if fault.BudgetExhausted? then after == w.(pc := S.HardStop) else after == S.Die(w)
  }

  lemma SettlesThroughOwn(pack: Pack, w: S.World, t: nat)
    requires w.pc.Settle? && w.pc.i < |pack|
    ensures Through(w, S.SettleAs(pack, w), Some(EndOf(pack, w, t)))
  {
    hide MoveAttempt, S.NextVersion;
    OnlyOpeningIsTooDear(w.row);
  }

  lemma JudgesThroughOwn(pack: Pack, w: S.World, t: nat, admitted: bool)
    requires w.pc.Judged? && w.pc.i < |pack|
    ensures Through(w, S.Judge(pack, w), Own(pack, w, t, admitted))
  {
    hide S.TimesBack, IndexOf, GoesBack, MoveAttempt, OpenAttempt, Ask;
  }

  /** The actions that move the task's state. */
  predicate Moves(pc: S.Pc) {
    || pc.Begin? || pc.Enqueue? || pc.Requeue? || pc.WaitEnvironment? || pc.CancelTask? || pc.FailTask? || pc.Close?
    || pc.Succeed? || pc.Admit?
  }

  lemma MovesThroughOwn(pack: Pack, w: S.World, t: nat, admitted: bool, turn: S.Turn)
    requires Moves(w.pc)
    ensures Through(w, S.Tick(pack, w, admitted, turn), Own(pack, w, t, admitted))
  {
    hide Move, MoveAttempt, OpenAttempt, Ask, ExpireApprovals, S.CheckStep, S.OpenStep, S.AnsweredFirst, S.Branching;
    hide S.SettleAs, S.Judge, EndOf, BackTo;
    OnlyOpeningIsTooDear(w.row);
  }

  lemma AsksThroughOwn(pack: Pack, w: S.World, t: nat, admitted: bool, turn: S.Turn)
    requires !Moves(w.pc) && !(w.pc.Settle? && w.pc.i < |pack|) && !(w.pc.Judged? && w.pc.i < |pack|)
    ensures Through(w, S.Tick(pack, w, admitted, turn), Own(pack, w, t, admitted))
  {
    hide Move, Ask, MoveAttempt, OpenAttempt, S.Inputs, S.Failures, S.AnsweredFirst, S.Branching, S.SettleAs, S.Judge;
    hide ExpireApprovals, EndOf, BackTo;
    OnlyOpeningIsTooDear(w.row);
  }

  /** An action of the state machine does to the row what its transaction does. */
  lemma ActsThroughOwn(pack: Pack, w: S.World, t: nat, admitted: bool, turn: S.Turn)
    ensures Through(w, S.Tick(pack, w, admitted, turn), Own(pack, w, t, admitted))
  {
    hide Through;
    if w.pc.Settle? && w.pc.i < |pack| {
      hide S.SettleAs;
      SettlesThroughOwn(pack, w, t);
    } else if w.pc.Judged? && w.pc.i < |pack| {
      hide S.Judge, Own;
      JudgesThroughOwn(pack, w, t, admitted);
    } else {
      hide S.Tick, Own;
      if Moves(w.pc) {
        MovesThroughOwn(pack, w, t, admitted, turn);
      } else {
        AsksThroughOwn(pack, w, t, admitted, turn);
      }
    }
  }

  /** No other transaction of the driver is refused for want of budget. */
  lemma OnlyOpeningIsTooDear(row: Task)
    ensures forall target, reason :: Move(row, target, reason) != Err(BudgetExhausted)
    ensures forall kind, why, step, first :: Ask(row, kind, why, step, first) != Err(BudgetExhausted)
    ensures forall a, target, consumed, failure, output ::
              MoveAttempt(row, a, target, consumed, failure, output) != Err(BudgetExhausted)
  {
  }

  // ---------- everybody together ----------

  datatype Event = Others(op: Op) | Drives | Acts(admitted: bool, turn: S.Turn) | Crashes

  /** The driver's transaction as the ledger takes it. One it refuses raises in the driver, but for an opening that is
      too dear. */
  function Asked(j: Joint, op: Op, after: S.World): Joint {
    match Outcome(j.db, op)
    case Ok(db) => Joint(db, LocalOf(after))
    case Err(fault) =>
      Joint(j.db, if fault.BudgetExhausted? then j.local.(pc := S.HardStop)
                  else j.local.(pc := S.Idle, crashes := j.local.crashes + 1))
  }

  function Next(pack: Pack, j: Joint, t: nat, e: Event): Joint
    requires t < |j.db.tasks|
  {
    var w := WorldOf(j, t);
    match e
    case Others(op) =>
      var db := Apply(j.db, op);
      var left := w.row.state.Waiting? && t < |db.tasks| && Open(db.tasks[t]) && !db.tasks[t].state.Waiting?;
      Joint(db, if left then j.local.(resumes := j.local.resumes + 1) else j.local)
    case Drives => if j.local.pc.Idle? then j.(local := j.local.(pc := S.Pc.Begin)) else j
    case Crashes => if j.local.pc.Idle? then j else j.(local := LocalOf(S.Die(w)))
    case Acts(admitted, turn) =>
      var after := S.Tick(pack, w, admitted, turn);
      var own := Own(pack, w, t, admitted);
      if own.None? then j.(local := LocalOf(after)) else Asked(j, own.value, after)
  }

  /** Others are not the task's driver, and keep to what the ledger asks of its callers. */
  predicate Fair(j: Joint, t: nat, e: Event)
    requires t < |j.db.tasks|
  {
    e.Others? ==>
      && Foreign(e.op, t) && Disciplined(j.db, e.op)
      && (e.op.AskFor? && e.op.task == t ==> j.db.tasks[t].attempts != [])
  }

  lemma StillThere(pack: Pack, j: Joint, t: nat, e: Event)
    requires t < |j.db.tasks| && Fair(j, t, e)
    ensures t < |Next(pack, j, t, e).db.tasks|
  {
    hide Apply, S.Tick, S.RowAfter;
    match e {
      case Others(op) => NothingElseHappens(j.db, op, t);
      case Acts(admitted, turn) =>
        var own := Own(pack, WorldOf(j, t), t, admitted);
        if own.Some? {
          OwnIsOfTheTask(pack, WorldOf(j, t), t, admitted);
          if Outcome(j.db, own.value).Ok? {
            OwnTransactions(j.db, t, own.value);
            OkApplies(j.db, own.value);
          }
        }
      case _ =>
    }
  }

  lemma OkApplies(db: Db, op: Op)
    requires Outcome(db, op).Ok?
    ensures Apply(db, op) == Outcome(db, op).value
  {
  }

  /** The event of the driver's state machine that this is, if it is one at all. */
  lemma SeenAsOne(pack: Pack, j: Joint, t: nat, e: Event) returns (seen: seq<S.Event>)
    requires t < |j.db.tasks| && Fair(j, t, e)
    ensures |seen| <= 1 && t < |Next(pack, j, t, e).db.tasks|
    ensures var after := WorldOf(Next(pack, j, t, e), t);
            after == if seen == [] then WorldOf(j, t) else S.Next(pack, WorldOf(j, t), seen[0])
  {
    hide Apply, S.Tick, S.RowAfter, Outcome, Own, OnRow;
    StillThere(pack, j, t, e);
    var w := WorldOf(j, t);
    match e {
      case Others(op) =>
        NothingElseHappens(j.db, op, t);
        var row := Apply(j.db, op).tasks[t];
        if row == w.row {
          seen := [];
        } else {
          var other :| row == S.RowAfter(w.row, other);
          seen := [S.Meanwhile(other)];
        }
      case Drives => seen := [S.Drive];
      case Crashes => seen := [S.Crash];
      case Acts(admitted, turn) =>
        ActsThroughOwn(pack, w, t, admitted, turn);
        seen := [S.Act(admitted, turn)];
        var own := Own(pack, w, t, admitted);
        if own.Some? {
          OwnSeen(pack, j, t, admitted, turn);
          if WorldOf(Next(pack, j, t, e), t) != S.Tick(pack, w, admitted, turn) {
            seen := [S.Crash];
          }
        }
    }
  }

  /** Where the ledger takes the transaction, the task's row is the state machine's. Where it refuses, that is what
      the row itself refuses, or the driver stops as in a crash. */
  lemma OwnSeen(pack: Pack, j: Joint, t: nat, admitted: bool, turn: S.Turn)
    requires t < |j.db.tasks| && Own(pack, WorldOf(j, t), t, admitted).Some?
    ensures var (w, after) := (WorldOf(j, t), Next(pack, j, t, Acts(admitted, turn)));
            && t < |after.db.tasks| && !w.pc.Idle?
            && (WorldOf(after, t) == S.Tick(pack, w, admitted, turn) || WorldOf(after, t) == S.Die(w))
  {
    hide Apply, S.Tick, Outcome, OnRow;
    var w := WorldOf(j, t);
    var op := Own(pack, w, t, admitted).value;
    OwnIsOfTheTask(pack, w, t, admitted);
    ActsThroughOwn(pack, w, t, admitted, turn);
    RefusedByRow(j.db, t, op);
    if Outcome(j.db, op).Ok? {
      OwnTransactions(j.db, t, op);
      OkApplies(j.db, op);
      OnRowIs(j.db.tasks[t], op);
    }
  }

  lemma OnRowIs(row: Task, op: Op)
    requires RowOp(op) || op.MoveTo?
    ensures OnRow(row, op) == if op.MoveTo? then Move(row, op.target, op.reason) else RowOutcome(row, op)
  {
  }

  /** The ledger refuses a transaction for want of budget exactly if the row does. */
  lemma RefusedByRow(db: Db, t: nat, op: Op)
    requires t < |db.tasks| && (RowOp(op) || op.MoveTo?) && op.task == t
    ensures Outcome(db, op) == Err(BudgetExhausted) <==> OnRow(db.tasks[t], op) == Err(BudgetExhausted)
  {
    OnlyOpeningIsTooDear(db.tasks[t]);
    hide RowOutcome, ActiveTask, NextQueued, Move;
  }

  // ---------- the joint invariant ----------

  ghost predicate JointInv(pack: Pack, j: Joint, t: nat) {
    LedgerInv(j.db) && t < |j.db.tasks| && DriveInv(pack, WorldOf(j, t))
  }

  /** The driver asks nothing of the ledger that its callers must not ask. */
  lemma OwnIsDisciplined(pack: Pack, w: S.World, t: nat, admitted: bool, db: Db)
    requires RowInv(w.row) && Placed(pack, w) && Own(pack, w, t, admitted).Some?
    requires t < |db.tasks| && db.tasks[t] == w.row
    requires OnRow(w.row, Own(pack, w, t, admitted).value).Ok?
    ensures Disciplined(db, Own(pack, w, t, admitted).value)
  {
    hide RowInv, MoveAttempt, OpenAttempt, Ask, BackTo, S.NextVersion;
  }

  lemma OwnKeeps(pack: Pack, j: Joint, t: nat, admitted: bool)
    requires JointInv(pack, j, t) && Own(pack, WorldOf(j, t), t, admitted).Some?
    requires Outcome(j.db, Own(pack, WorldOf(j, t), t, admitted).value).Ok?
    ensures LedgerInv(Apply(j.db, Own(pack, WorldOf(j, t), t, admitted).value))
  {
    var w := WorldOf(j, t);
    var op := Own(pack, w, t, admitted).value;
    OwnIsOfTheTask(pack, w, t, admitted);
    OwnTransactions(j.db, t, op);
    OwnIsDisciplined(pack, w, t, admitted, j.db);
    hide LedgerInv, Disciplined, Apply, Outcome, Own, DriveInv;
    ApplyKeeps(j.db, op);
  }

  lemma TogetherKeeps(pack: Pack, j: Joint, t: nat, e: Event)
    requires PackOk(pack) && JointInv(pack, j, t) && Fair(j, t, e)
    ensures JointInv(pack, Next(pack, j, t, e), t)
  {
    hide PackOk, LedgerInv, DriveInv, Apply, S.Next, S.Tick, Outcome, Own;
    var seen := SeenAsOne(pack, j, t, e);
    if seen != [] {
      NextKeeps(pack, WorldOf(j, t), seen[0]);
    }
    match e {
      case Others(op) => ApplyKeeps(j.db, op);
      case Acts(admitted, _) =>
        var own := Own(pack, WorldOf(j, t), t, admitted);
        if own.Some? && Outcome(j.db, own.value).Ok? {
          OwnKeeps(pack, j, t, admitted);
          OkApplies(j.db, own.value);
        }
      case _ =>
    }
  }

  // ---------- what the unique index refuses ----------

  lemma QueuedIsRefused(db: Db, t: nat)
    requires WheelInv(db) && t < |db.tasks| && QueuedBehind(db.tasks[t])
    ensures Transition(db, t, TaskState.Validating, None, None) == Err(ProjectBusy)
  {
    hide ActiveTask, NextQueued;
    var a := ActiveTask(db.tasks, db.tasks[t].project).value;
    assert Holds(db.tasks[a]) && a != t;
    assert TaskState.Validating in TaskMoves(TaskState.Received);
  }

  /** A queued task can only be about to start. */
  lemma QueuedStarts(pack: Pack, w: S.World, t: nat, admitted: bool)
    requires Placed(pack, w) && QueuedBehind(w.row) && Own(pack, w, t, admitted).Some?
    ensures Own(pack, w, t, admitted).value == MoveTo(t, TaskState.Validating, None, None)
  {
  }

  lemma OwnExpectsNothing(pack: Pack, w: S.World, t: nat, admitted: bool)
    requires Own(pack, w, t, admitted).Some?
    ensures var op := Own(pack, w, t, admitted).value; op.MoveTo? ==> op.expected.None?
  {
  }

  lemma RowOpIsTaken(db: Db, t: nat, op: Op)
    requires WheelInv(db) && t < |db.tasks| && RowOp(op) && op.task == t && RowOutcome(db.tasks[t], op).Ok?
    ensures Outcome(db, op).Ok?
  {
    hide RowOutcome, WheelInv, SameStanding;
    RowOutcomeStanding(db.tasks[t], op);
    RewriteKeeps(db, t, RowOutcome(db.tasks[t], op).value);
  }

  /** Of what its row allows, the ledger refuses the driver one thing only: to start a task that is still queued. */
  lemma OnlyAQueuedTaskIsRefused(pack: Pack, j: Joint, t: nat, admitted: bool)
    requires JointInv(pack, j, t) && Own(pack, WorldOf(j, t), t, admitted).Some?
    requires OnRow(j.db.tasks[t], Own(pack, WorldOf(j, t), t, admitted).value).Ok?
    ensures var outcome := Outcome(j.db, Own(pack, WorldOf(j, t), t, admitted).value);
            && (outcome.Ok? <==> !QueuedBehind(j.db.tasks[t]))
            && (outcome.Err? ==> outcome == Err(ProjectBusy))
  {
    hide Own, WheelInv, AllRows, AdvisorWork.WorkInv, RowInv, Placed, Bounded, Transition, RowOutcome, Move;
    var w := WorldOf(j, t);
    var op := Own(pack, w, t, admitted).value;
    OwnIsOfTheTask(pack, w, t, admitted);
    OwnExpectsNothing(pack, w, t, admitted);
    if QueuedBehind(w.row) {
      QueuedStarts(pack, w, t, admitted);
      QueuedIsRefused(j.db, t);
    } else if op.MoveTo? {
      MoveIsOfTheOpen(w.row, op.target, op.reason);
      MoveIsTaken(j.db, t, op.target, op.reason);
    } else {
      RowOpIsTaken(j.db, t, op);
    }
  }

  lemma MoveIsOfTheOpen(row: Task, target: TaskState, reason: Option<WaitingReason>)
    requires Move(row, target, reason).Ok?
    ensures Open(row)
  {
    TerminalIsFinal(row.state, AttemptState.Created);
  }

  // ---------- whole runs ----------

  function Run(pack: Pack, j: Joint, t: nat, events: seq<Event>): (r: Joint)
    requires t < |j.db.tasks| && FairRun(pack, j, t, events)
    ensures t < |r.db.tasks|
    decreases |events|
  {
    if events == [] then j
    else
      StillThere(pack, j, t, events[0]);
      Run(pack, Next(pack, j, t, events[0]), t, events[1..])
  }

  predicate FairRun(pack: Pack, j: Joint, t: nat, events: seq<Event>)
    decreases |events|
  {
    events == []
    || (&& t < |j.db.tasks| && Fair(j, t, events[0])
        && FairRun(pack, Next(pack, j, t, events[0]), t, events[1..]))
  }

  /** A run of the ledger with the task's driver in it, seen from the task, is a run of the driver's state machine. */
  lemma {:induction false} RunsAreSeen(pack: Pack, j: Joint, t: nat, events: seq<Event>) returns (seen: seq<S.Event>)
    requires t < |j.db.tasks| && FairRun(pack, j, t, events)
    ensures WorldOf(Run(pack, j, t, events), t) == S.After(pack, WorldOf(j, t), seen)
    decreases |events|
  {
    hide Next, Fair, S.Next, WorldOf;
    seen := [];
    if events != [] {
      var first := SeenAsOne(pack, j, t, events[0]);
      var rest := RunsAreSeen(pack, Next(pack, j, t, events[0]), t, events[1..]);
      seen := first + rest;
      if first == [] {
        assert seen == rest;
      } else {
        assert seen[1..] == rest;
      }
    }
  }

  lemma {:induction false} RunsKeepTogether(pack: Pack, j: Joint, t: nat, events: seq<Event>)
    requires PackOk(pack) && JointInv(pack, j, t) && FairRun(pack, j, t, events)
    ensures JointInv(pack, Run(pack, j, t, events), t)
    decreases |events|
  {
    hide Next, Fair, JointInv, PackOk;
    if events != [] {
      assert t < |j.db.tasks|;
      TogetherKeeps(pack, j, t, events[0]);
      RunsKeepTogether(pack, Next(pack, j, t, events[0]), t, events[1..]);
    }
  }

  const FRESH := Local(map[], [], S.Idle, 0, 0, 0)

  lemma MadeByHandover(db: Db, req: Request)
    requires LedgerInv(db) && Disciplined(db, HandOver(req))
    requires FindKey(db.tasks, req.key).None? && Handover(db, req).Ok?
    ensures var (made, t) := Handover(db, req).value;
            t < |made.tasks| && LedgerInv(made) && HandedOver(WorldOf(Joint(made, FRESH), t))
  {
    hide ActiveTask, FindKey, LedgerInv;
    ApplyKeeps(db, HandOver(req));
  }

  /** From the handover of a task on, whatever its driver and everybody else do: the ledger as a whole keeps its
      invariant, and the task is in a state its driver's state machine reaches, so all that is proved of those holds
      of it. */
  lemma OneTaskInItsLedger(pack: Pack, db: Db, req: Request, events: seq<Event>)
    requires PackOk(pack) && LedgerInv(db) && Disciplined(db, HandOver(req))
    requires FindKey(db.tasks, req.key).None? && Handover(db, req).Ok?
    requires var (made, t) := Handover(db, req).value;
             t < |made.tasks| && FairRun(pack, Joint(made, FRESH), t, events)
    ensures var (made, t) := Handover(db, req).value;
            var j := Run(pack, Joint(made, FRESH), t, events);
            LedgerInv(j.db) && AdvisorRuns.Reachable(pack, WorldOf(j, t))
  {
    hide LedgerInv, FairRun, PackOk, HandedOver, DriveInv, Disciplined, Handover, FindKey, Run;
    MadeByHandover(db, req);
    var (made, t) := Handover(db, req).value;
    var start := Joint(made, FRESH);
    FreshInv(pack, WorldOf(start, t));
    RunsKeepTogether(pack, start, t, events);
    var seen := RunsAreSeen(pack, start, t, events);
    assert S.After(pack, WorldOf(start, t), seen) == WorldOf(Run(pack, start, t, events), t);
  }
}
