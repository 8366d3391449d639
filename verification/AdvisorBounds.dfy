/** How many turns a task can take over its whole life, and why driving it always stops. */
module AdvisorBounds {
  import opened Prelude
  import opened States
  import opened TaskRows
  import opened RowProofs
  import opened Packs
  import opened AdvisorSpec
  import opened AdvisorWork
  import opened AdvisorFlow

  // ---------- what the counters still allow ----------

  function AtLeast0(x: int): nat {
    if x > 0 then x else 0
  }

  /** R: how often the steps may be redone. */
  function Reworks(pack: Pack): nat {
    if pack == [] then 0 else Reworks(pack[..|pack| - 1]) + AtLeast0(pack[|pack| - 1].maxReworks)
  }

  /** B: how often the steps may send the work back. */
  function Backs(pack: Pack): nat {
    if pack == [] then 0
    else
      var last := pack[|pack| - 1];
      Backs(pack[..|pack| - 1]) + if GoesBack(last) then AtLeast0(last.maxBacks) else 0
  }

  /** n(1+B)+R. */
  function MaxTurns(pack: Pack): nat {
    |pack| * (1 + Backs(pack)) + Reworks(pack)
  }

  function ReworksLeft(pack: Pack, attempts: seq<Attempt>): nat {
    if pack == [] then 0
    else
      var last := pack[|pack| - 1];
      ReworksLeft(pack[..|pack| - 1], attempts) + AtLeast0(last.maxReworks - Failures(attempts, last.id))
  }

  function BacksLeft(pack: Pack, backs: seq<string>): nat {
    if pack == [] then 0
    else
      var last := pack[|pack| - 1];
      BacksLeft(pack[..|pack| - 1], backs)
      + if GoesBack(last) then AtLeast0(last.maxBacks - TimesBack(backs, last.id)) else 0
  }

  /** What every turn that does not end the drive uses up. */
  function Left(pack: Pack, w: World): int {
    ReworksLeft(pack, w.row.attempts) + |pack| * BacksLeft(pack, w.backs) + |pack| - w.row.cursor
  }

  lemma {:induction false} NothingUsed(pack: Pack)
    ensures ReworksLeft(pack, []) == Reworks(pack) && BacksLeft(pack, []) == Backs(pack)
  {
    if pack != [] {
      NothingUsed(pack[..|pack| - 1]);
    }
  }

  predicate DistinctSteps(pack: Pack) {
    forall i, j | 0 <= i < |pack| && 0 <= j < |pack| :: pack[i].id == pack[j].id ==> i == j
  }

  lemma {:induction false} SameReworks(pack: Pack, was: seq<Attempt>, now: seq<Attempt>)
    requires forall i :: 0 <= i < |pack| ==> Failures(now, pack[i].id) == Failures(was, pack[i].id)
    ensures ReworksLeft(pack, now) == ReworksLeft(pack, was)
  {
    if pack != [] {
      SameReworks(pack[..|pack| - 1], was, now);
    }
  }

  /** One more failure of step `i` uses up one of its reworks, if it has one left. */
  lemma {:induction false} OneRework(pack: Pack, was: seq<Attempt>, now: seq<Attempt>, i: nat)
    requires i < |pack| && DistinctSteps(pack)
    requires Failures(now, pack[i].id) == Failures(was, pack[i].id) + 1
    requires forall j :: 0 <= j < |pack| && j != i ==> Failures(now, pack[j].id) == Failures(was, pack[j].id)
    ensures ReworksLeft(pack, now)
         == ReworksLeft(pack, was) - if Failures(was, pack[i].id) < pack[i].maxReworks then 1 else 0
  {
    if i == |pack| - 1 {
      SameReworks(pack[..|pack| - 1], was, now);
    } else {
      OneRework(pack[..|pack| - 1], was, now, i);
    }
  }

  lemma BackOnce(backs: seq<string>, id: string, other: string)
    ensures TimesBack(backs + [id], other) == TimesBack(backs, other) + if other == id then 1 else 0
  {
    assert (backs + [id])[..|backs|] == backs;
  }

  lemma {:induction false} SameBacks(pack: Pack, backs: seq<string>, id: string)
    requires forall j :: 0 <= j < |pack| ==> pack[j].id != id
    ensures BacksLeft(pack, backs + [id]) == BacksLeft(pack, backs)
  {
    if pack != [] {
      SameBacks(pack[..|pack| - 1], backs, id);
      BackOnce(backs, id, pack[|pack| - 1].id);
    }
  }

  lemma {:induction false} OneBack(pack: Pack, backs: seq<string>, i: nat)
    requires i < |pack| && DistinctSteps(pack)
    requires GoesBack(pack[i]) && TimesBack(backs, pack[i].id) < pack[i].maxBacks
    ensures BacksLeft(pack, backs + [pack[i].id]) == BacksLeft(pack, backs) - 1
  {
    var last := pack[|pack| - 1];
    BackOnce(backs, pack[i].id, last.id);
    if i == |pack| - 1 {
      SameBacks(pack[..|pack| - 1], backs, pack[i].id);
    } else {
      OneBack(pack[..|pack| - 1], backs, i);
    }
  }

  // ---------- the account of turns ----------

  /** A turn could still begin without a resume or a restart. */
  function Armed(w: World): nat {
    match w.pc
    case Idle => Ready(w.row.state)
    case Begin => Ready(w.row.state)
    case Admit => Ready(w.row.state)
    case Enqueue => Ready(w.row.state)
    case Check => Ready(w.row.state)
    case CancelTask => 0
    case FailTask => 0
    case WaitEnvironment => 0
    case AskUser(_) => 0
    case _ => 1
  }

  function Ready(state: TaskState): nat {
    if state.Received? || state.Validating? || state.Queued? || state.Running? then 1 else 0
  }

  /** A turn has begun that has not used up anything yet. */
  function Unaccounted(pack: Pack, w: World): nat {
    match w.pc
    case InTurn(_, _, _) => 1
    case Read(_, _, _, _) => 1
    case Settle(_, _, _, _, _) => 1
    case Advance(_) => 1
    case Judged(i, _, reworks, _) => if i < |pack| && reworks < pack[i].maxReworks then 0 else 1
    case _ => 0
  }

  ghost predicate Bounded(pack: Pack, w: World) {
    && w.turns + Left(pack, w) + Armed(w)
       <= MaxTurns(pack) + 1 + w.resumes + w.crashes + Unaccounted(pack, w)
    && (Armed(w) == 0 && Left(pack, w) == 0 ==> w.turns <= MaxTurns(pack) + w.resumes + w.crashes)
  }

  /** The whole invariant of a driven task. */
  ghost predicate DriveInv(pack: Pack, w: World) {
    WorkInv(pack, w) && RowInv(w.row) && Placed(pack, w) && Bounded(pack, w)
  }

  /** Reading the account off: the bound, in every reachable state. */
  lemma BoundHolds(pack: Pack, w: World)
    requires WorkInv(pack, w) && Bounded(pack, w)
    ensures w.turns <= MaxTurns(pack) + w.resumes + w.crashes
  {
    hide UpToDate, SentBack, ReworksLeft, BacksLeft, MaxTurns;
    LeftIsPositive(pack, w);
  }

  lemma LeftIsPositive(pack: Pack, w: World)
    requires w.row.cursor <= |pack|
    ensures Left(pack, w) >= 0 && (w.row.cursor < |pack| ==> Left(pack, w) >= 1)
  {
  }

  /** An action that uses up nothing: it may only disarm, or be paid for by a resume or a restart. */
  lemma Idling(pack: Pack, w: World, after: World)
    requires Bounded(pack, w) && Left(pack, after) == Left(pack, w) && after.turns == w.turns
    requires Unaccounted(pack, w) == 0 && Unaccounted(pack, after) == 0
    requires after.resumes >= w.resumes && after.crashes >= w.crashes
    requires Armed(after) <= Armed(w) + (after.resumes - w.resumes) + (after.crashes - w.crashes)
    ensures Bounded(pack, after)
  {
    hide Left, MaxTurns;
  }

  lemma SameLeft(pack: Pack, w: World, after: World)
    requires SameWork(w.row, after.row) && after.backs == w.backs
    ensures Left(pack, after) == Left(pack, w)
  {
  }

  lemma DyingKeepsBound(pack: Pack, w: World)
    requires Bounded(pack, w)
    ensures Bounded(pack, Die(w))
  {
    hide Left, MaxTurns;
    SameLeft(pack, w, Die(w));
  }

  lemma OthersKeepBound(pack: Pack, w: World, other: Other)
    requires RowInv(w.row) && Placed(pack, w) && Bounded(pack, w)
    ensures Bounded(pack, Elsewhere(w, other))
  {
    hide Left, MaxTurns, RowAfter;
    OthersDoNotDisturb(w.row, other);
    SameLeft(pack, w, Elsewhere(w, other));
  }

  // ---------- every action keeps the account ----------

  /** What a move of the attempt in hand does to the account. */
  lemma MovingInHandCounts(pack: Pack, w: World, after: World, i: nat, a: nat, reworks: nat, status: AttemptState,
                           target: AttemptState, cost: Amount, failure: Failure, output: Option<(string, nat)>)
    requires PackOk(pack) && Steps(pack, w) && InHand(pack, w, i, a, reworks, status) && !Ended(status)
    requires MoveAttempt(w.row, a, target, cost, failure, output) == Ok(after.row) && after.backs == w.backs
    ensures Left(pack, after)
         == Left(pack, w)
            - if target.Failed? && failure.Acceptance? && reworks < pack[i].maxReworks then 1 else 0
  {
    hide MoveAttempt, Failures, LastOf, UpToDate, SentBack;
    MovingInHand(pack, w, i, a, reworks, status, Ok(after.row), target, cost, failure, output);
    if target.Failed? && failure.Acceptance? {
      OneRework(pack, w.row.attempts, after.row.attempts, i);
    } else {
      SameReworks(pack, w.row.attempts, after.row.attempts);
    }
  }

  function SettledAs(branch: Branch): (AttemptState, Failure) {
    match branch
    case Interrupted(_) => (AttemptState.Cancelled, CancelledByUser)
    case StoppedByUser => (AttemptState.Failed, Stopped)
    case Lost => (AttemptState.Failed, EnvironmentLost)
    case Errored => (AttemptState.Failed, TurnError)
    case Overspent => (AttemptState.BudgetExceeded, NoCode)
    case Accepted => (AttemptState.Completed, NoCode)
    case Refused => (AttemptState.Failed, Acceptance)
  }

  lemma SettleKeepsBound(pack: Pack, w: World)
    requires PackOk(pack) && DriveInv(pack, w) && w.pc.Settle?
    ensures w.pc.i < |pack| && Bounded(pack, SettleAs(pack, w))
  {
    hide MoveAttempt, Left, MaxTurns, RowInv, Steps;
    var Settle(i, a, reworks, turn, branch) := w.pc;
    var after := SettleAs(pack, w);
    var output := if branch.Accepted? then Some((pack[i].output, NextVersion(w.arts, pack[i].output))) else None;
    var (target, failure) := SettledAs(branch);
    if MoveAttempt(w.row, a, target, turn.cost, failure, output).Err? {
      DyingKeepsBound(pack, w);
    } else {
      MovingInHandCounts(pack, w, after, i, a, reworks, AttemptState.Running, target, turn.cost, failure, output);
      MovedState(w.row, a, target, turn.cost, failure, output);
      LeftIsPositive(pack, w);
    }
  }

  lemma JudgeKeepsBound(pack: Pack, w: World)
    requires PackOk(pack) && DriveInv(pack, w) && w.pc.Judged?
    ensures w.pc.i < |pack| && Bounded(pack, Judge(pack, w))
  {
    hide RowInv, UpToDate, SentBack, MaxTurns, ReworksLeft, BacksLeft;
    var i := w.pc.i;
    var after := Judge(pack, w);
    LeftIsPositive(pack, w);
    if after.backs != w.backs {
      OneBack(pack, w.backs, i);
      assert |pack| * BacksLeft(pack, after.backs) == |pack| * BacksLeft(pack, w.backs) - |pack|;
      assert Left(pack, after) <= Left(pack, w) - 1;
    } else {
      SameLeft(pack, w, after);
    }
  }

  lemma OpenKeepsLeft(pack: Pack, w: World)
    requires w.pc.Opening? && w.pc.i < |pack|
    ensures Left(pack, OpenStep(pack, w)) == Left(pack, w)
  {
    hide OpenAttempt, Failures;
    var Opening(i, inputs, reworks) := w.pc;
    var r := OpenAttempt(w.row, pack[i].id, inputs, pack[i].reserve);
    var after := OpenStep(pack, w);
    if r.Ok? {
      OpeningAppends(w.row, pack[i].id, inputs, pack[i].reserve);
      forall j | 0 <= j < |pack|
        ensures Failures(after.row.attempts, pack[j].id) == Failures(w.row.attempts, pack[j].id)
      {
        LastSnoc(w.row.attempts, after.row.attempts[|w.row.attempts|], pack[j].id);
      }
      SameReworks(pack, w.row.attempts, after.row.attempts);
    }
  }

  lemma OpenKeepsBound(pack: Pack, w: World)
    requires PackOk(pack) && DriveInv(pack, w) && w.pc.Opening?
    ensures w.pc.i < |pack| && Bounded(pack, OpenStep(pack, w))
  {
    hide OpenAttempt, RowInv, UpToDate, SentBack, MaxTurns, Left;
    OpenKeepsLeft(pack, w);
    if OpenStep(pack, w).pc.Idle? {
      DyingKeepsBound(pack, w);
    } else {
      Idling(pack, w, OpenStep(pack, w));
    }
  }

  lemma TurnKeepsBound(pack: Pack, w: World, admitted: bool, turn: Turn)
    requires PackOk(pack) && DriveInv(pack, w) && (w.pc.Unask? || w.pc.InTurn?)
    ensures Bounded(pack, Tick(pack, w, admitted, turn))
  {
    hide MoveAttempt, Left, MaxTurns, RowInv, Steps;
    var after := Tick(pack, w, admitted, turn);
    if after.pc.Idle? {
      DyingKeepsBound(pack, w);
    } else if w.pc.Unask? {
      var reworks: nat :| InHand(pack, w, w.pc.i, w.pc.a, reworks, AttemptState.Created);
      MovingInHandCounts(pack, w, after, w.pc.i, w.pc.a, reworks, AttemptState.Created, AttemptState.Cancelled, 0.0,
                         AskedFirst, None);
      Idling(pack, w, after);
    } else {
      MovingInHandCounts(pack, w, after, w.pc.i, w.pc.a, w.pc.reworks, AttemptState.Created, AttemptState.Running, 0.0,
                         NoCode, None);
    }
  }

  lemma AdvanceKeepsBound(pack: Pack, w: World, after: World)
    requires PackOk(pack) && DriveInv(pack, w) && w.pc.Advance?
    requires after == w.(row := w.row.(cursor := w.row.cursor + 1, version := w.row.version + 1),
                         pc := if w.row.cursor + 1 >= |pack| then File else Requeue)
    ensures Bounded(pack, after)
  {
    hide RowInv, UpToDate, SentBack, MaxTurns, ReworksLeft, BacksLeft;
    assert Left(pack, after) == Left(pack, w) - 1;
  }

  lemma MoveExits(pack: Pack, w: World, target: TaskState, reason: Option<WaitingReason>)
    requires Bounded(pack, w) && Unaccounted(pack, w) == 0 && Ready(target) == 0
    ensures Bounded(pack, Wrote(w, Move(w.row, target, reason), Idle))
  {
    hide Left, MaxTurns, TaskMoves;
    SameLeft(pack, w, Wrote(w, Move(w.row, target, reason), Idle));
  }

  lemma AskExits(pack: Pack, w: World, kind: Kind, why: WaitingReason, step: string, askBefore: bool)
    requires Bounded(pack, w) && Unaccounted(pack, w) == 0
    ensures Bounded(pack, Wrote(w, Ask(w.row, kind, why, step, askBefore), Idle))
  {
    hide Left, MaxTurns, TaskMoves;
    SameLeft(pack, w, Wrote(w, Ask(w.row, kind, why, step, askBefore), Idle));
  }

  /** The actions that end the drive. */
  predicate Exits(pc: Pc) {
    || pc.HardStop? || pc.AskFirst? || pc.AskUser? || pc.WaitEnvironment? || pc.CancelTask? || pc.FailTask?
    || pc.Succeed?
  }

  lemma ExitKeepsBound(pack: Pack, w: World, admitted: bool, turn: Turn)
    requires PackOk(pack) && DriveInv(pack, w) && Exits(w.pc)
    ensures Bounded(pack, Tick(pack, w, admitted, turn))
  {
    hide Bounded, Move, Ask, RowInv, Steps, PackOk;
    match w.pc {
      case HardStop => AskExits(pack, w, ToppingUp, Resource, "", false);
      case AskFirst(i) => AskExits(pack, w, Question, Input, pack[i].id, true);
      case AskUser(i) => AskExits(pack, w, InputWanted, Input, pack[i].id, false);
      case WaitEnvironment => MoveExits(pack, w, TaskState.Waiting, Some(Environment));
      case CancelTask => MoveExits(pack, w, TaskState.Cancelled, None);
      case FailTask => MoveExits(pack, w, TaskState.Failed, None);
      case Succeed => MoveExits(pack, w, TaskState.Succeeded, None);
    }
  }

  lemma DoorKeepsBound(pack: Pack, w: World, admitted: bool, turn: Turn)
    requires PackOk(pack) && DriveInv(pack, w) && AtTheDoor(w.pc)
    ensures Bounded(pack, Tick(pack, w, admitted, turn))
  {
    assert Move(w.row, TaskState.Queued, None).Ok? ==> !Terminal(w.row.state);
    hide Left, MaxTurns, RowInv, Steps, Failures, Inputs, PackOk, Locals, TaskMoves;
    SameLeft(pack, w, Tick(pack, w, admitted, turn));
  }

  lemma PlainKeepsBound(pack: Pack, w: World, admitted: bool, turn: Turn)
    requires PackOk(pack) && DriveInv(pack, w)
    requires w.pc.Began? || w.pc.Read? || w.pc.Requeue? || w.pc.File? || w.pc.Close?
    ensures Bounded(pack, Tick(pack, w, admitted, turn))
  {
    hide Left, MaxTurns, RowInv, Steps, Failures, Inputs, PackOk, Locals, TaskMoves, Branching, AnsweredFirst;
    SameLeft(pack, w, Tick(pack, w, admitted, turn));
  }

  lemma TickKeepsBound(pack: Pack, w: World, admitted: bool, turn: Turn)
    requires PackOk(pack) && DriveInv(pack, w)
    ensures Bounded(pack, Tick(pack, w, admitted, turn))
  {
    hide MoveAttempt, Left, MaxTurns, RowInv, Steps, SettleAs, Judge, OpenStep, Bounded, Move, Ask;
    var after := Tick(pack, w, admitted, turn);
    match w.pc {
      case Opening(_, _, _) => OpenKeepsBound(pack, w);
      case Unask(_, _) => TurnKeepsBound(pack, w, admitted, turn);
      case InTurn(_, _, _) => TurnKeepsBound(pack, w, admitted, turn);
      case Settle(_, _, _, _, _) => SettleKeepsBound(pack, w);
      case Advance(_) => AdvanceKeepsBound(pack, w, after);
      case Judged(_, _, _, _) => JudgeKeepsBound(pack, w);
      case _ =>
        if Exits(w.pc) {
          ExitKeepsBound(pack, w, admitted, turn);
        } else if AtTheDoor(w.pc) {
          DoorKeepsBound(pack, w, admitted, turn);
        } else {
          PlainKeepsBound(pack, w, admitted, turn);
        }
    }
  }

  lemma NextKeeps(pack: Pack, w: World, e: Event)
    requires PackOk(pack) && DriveInv(pack, w)
    ensures DriveInv(pack, Next(pack, w, e))
  {
    hide Left, MaxTurns, RowInv, Steps, Tick, RowAfter, PackOk;
    NextKeepsWork(pack, w, e);
    match e {
      case Act(admitted, turn) =>
        TickKeepsRow(pack, w, admitted, turn);
        TickKeepsPlace(pack, w, admitted, turn);
        TickKeepsBound(pack, w, admitted, turn);
      case Meanwhile(other) =>
        OthersKeepRow(w.row, other);
        OthersKeepPlace(pack, w, other);
        OthersKeepBound(pack, w, other);
      case Crash => DyingKeepsBound(pack, w);
      case Drive =>
        SameLeft(pack, w, Next(pack, w, e));
    }
  }

  /** A task just handed over to an expert, as the ledger makes it, and nobody driving yet. */
  predicate HandedOver(w: World) {
    var row := w.row;
    && (row.limit.Some? ==> row.limit.value > 0.0)
    && row == NewTask(row.session, row.project, row.key, row.digest, row.limit, row.tagged)
    && w == World(row, map[], [], Idle, 0, 0, 0)
  }

  lemma FreshInv(pack: Pack, w: World)
    requires PackOk(pack) && HandedOver(w)
    ensures DriveInv(pack, w)
  {
    var row := w.row;
    NewTaskInv(row, row.session, row.project, row.key, row.digest, row.limit, row.tagged);
    hide RowInv;
    NothingUsed(pack);
    assert |pack| * (1 + Backs(pack)) == |pack| + |pack| * Backs(pack);
    assert Left(pack, w) == MaxTurns(pack) by { hide Reworks, Backs, ReworksLeft, BacksLeft; }
    hide Left, MaxTurns;
  }

  lemma {:induction false} EveryDriveKeeps(pack: Pack, w: World, events: seq<Event>)
    requires PackOk(pack) && DriveInv(pack, w)
    ensures DriveInv(pack, After(pack, w, events))
    decreases |events|
  {
    hide DriveInv, Next;
    if events != [] {
      NextKeeps(pack, w, events[0]);
      EveryDriveKeeps(pack, Next(pack, w, events[0]), events[1..]);
    }
  }

  // ---------- driving always stops ----------

  /** Where the driver is on its way through one step. */
  function Rank(pack: Pack, w: World): nat {
    match w.pc
    case Idle => 0
    case Begin => if w.row.state.Received? then 13 else 12
    case Admit => 11
    case Enqueue => 10
    case Judged(i, _, reworks, _) => if i < |pack| && reworks < pack[i].maxReworks then 10 else 2
    case Requeue => 9
    case Check => 8
    case Opening(_, _, _) => 7
    case Began(_, _, _) => 6
    case Unask(_, _) => 5
    case InTurn(_, _, _) => 5
    case Read(_, _, _, _) => 4
    case Settle(_, _, _, _, _) => 3
    case File => 3
    case Close => 2
    case Advance(_) => 2
    case _ => 1
  }
}
