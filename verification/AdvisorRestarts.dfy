/** Tasks that were interrupted: exactly when a crash, a cancel or an expired approval lets a task go on, and
    when it never moves again. */
module AdvisorRestarts {
  import opened Prelude
  import opened States
  import opened TaskRows
  import opened RowProofs
  import opened Packs
  import opened AdvisorSpec
  import opened AdvisorWork
  import opened AdvisorFlow
  import opened AdvisorBounds
  import opened AdvisorRuns

  // ---------- short runs ----------

  lemma AfterOne(pack: Pack, w: World, e: Event, rest: seq<Event>)
    ensures After(pack, w, [e] + rest) == After(pack, Next(pack, w, e), rest)
  {
    hide Next;
    assert ([e] + rest)[1..] == rest;
  }

  lemma AfterNone(pack: Pack, w: World)
    ensures After(pack, w, []) == w
  {
  }

  lemma One(pack: Pack, w: World, a: Event)
    ensures After(pack, w, [a]) == Next(pack, w, a)
  {
    hide Next, After;
    assert [a] == [a] + [];
    AfterOne(pack, w, a, []);
    AfterNone(pack, Next(pack, w, a));
  }

  lemma Two(pack: Pack, w: World, a: Event, b: Event)
    ensures After(pack, w, [a, b]) == Next(pack, Next(pack, w, a), b)
  {
    hide Next, After;
    assert [a, b] == [a] + [b];
    AfterOne(pack, w, a, [b]);
    One(pack, Next(pack, w, a), b);
  }

  lemma Four(pack: Pack, w: World, a: Event, b: Event, c: Event, d: Event)
    ensures After(pack, w, [a, b, c, d]) == Next(pack, Next(pack, Next(pack, Next(pack, w, a), b), c), d)
  {
    hide Next, After;
    assert [a, b, c, d] == [a] + [b, c, d] && [b, c, d] == [b] + [c, d];
    AfterOne(pack, w, a, [b, c, d]);
    AfterOne(pack, Next(pack, w, a), b, [c, d]);
    Two(pack, Next(pack, Next(pack, w, a), b), c, d);
  }

  lemma RowOfDrive(pack: Pack, w: World)
    requires DriveInv(pack, w)
    ensures RowInv(w.row)
  {
  }

  // ---------- the end is final ----------

  lemma EndStays(pack: Pack, w: World, e: Event)
    requires RowInv(w.row) && Terminal(w.row.state)
    ensures Next(pack, w, e).row.state == w.row.state
  {
    match e {
      case Meanwhile(other) =>
        hide RowAfter;
        OthersDoNotDisturb(w.row, other);
      case Act(admitted, turn) => EndTick(pack, w, admitted, turn);
      case _ =>
    }
  }

  lemma EndTick(pack: Pack, w: World, admitted: bool, turn: Turn)
    requires Terminal(w.row.state)
    ensures Tick(pack, w, admitted, turn).row.state == w.row.state
  {
    hide Failures, Inputs;
    TerminalIsFinal(w.row.state, AttemptState.Created);
    if w.pc.Settle? && w.pc.i < |pack| {
      EndSettle(pack, w);
    }
  }

  lemma EndSettle(pack: Pack, w: World)
    requires Terminal(w.row.state) && w.pc.Settle? && w.pc.i < |pack|
    ensures SettleAs(pack, w).row.state == w.row.state
  {
    hide MoveAttempt;
    forall a: nat, target: AttemptState, cost: Amount, failure: Failure, output: Option<(string, nat)>
      ensures MoveAttempt(w.row, a, target, cost, failure, output).Ok? ==>
                MoveAttempt(w.row, a, target, cost, failure, output).value.state == w.row.state
    {
      if MoveAttempt(w.row, a, target, cost, failure, output).Ok? {
        EndMoved(w.row, a, target, cost, failure, output);
      }
    }
  }

  lemma EndMoved(row: Task, a: nat, target: AttemptState, cost: Amount, failure: Failure,
                 output: Option<(string, nat)>)
    requires Terminal(row.state) && MoveAttempt(row, a, target, cost, failure, output).Ok?
    ensures MoveAttempt(row, a, target, cost, failure, output).value.state == row.state
  {
    MovedIs(row, a, target, cost, failure, output);
    TerminalIsFinal(row.state, target);
  }

  // ---------- turns after the end ----------

  predicate AsksFirst(pack: Pack, row: Task, i: nat)
    requires i < |pack|
  {
    pack[i].asksBefore && !AnsweredFirst(row, pack[i].id)
  }

  /** The driver is past its look at the task, and nothing but its own step keeps it from a turn. */
  predicate TurnIsDue(pack: Pack, w: World) {
    match w.pc
    case Began(i, _, _) => i < |pack| && !AsksFirst(pack, w.row, i)
    case Opening(i, inputs, _) =>
      && i < |pack| && !AsksFirst(pack, w.row, i)
      && OpenAttempt(w.row, pack[i].id, inputs, pack[i].reserve).Ok?
    case _ => false
  }

  function TurnsDue(pack: Pack, w: World): nat {
    w.turns + if TurnIsDue(pack, w) then 1 else 0
  }

  lemma EndedTurns(pack: Pack, w: World, admitted: bool, turn: Turn)
    requires Terminal(w.row.state)
    ensures TurnsDue(pack, Tick(pack, w, admitted, turn)) <= TurnsDue(pack, w)
  {
    hide MoveAttempt, Move, Ask, Inputs, Failures, Branching;
    if w.pc.Opening? && w.pc.i < |pack| && TurnIsDue(pack, Tick(pack, w, admitted, turn)) {
      hide AnsweredFirst;
      OpeningAnswersNone(w.row, pack[w.pc.i].id, w.pc.inputs, pack[w.pc.i].reserve);
    }
  }

  lemma OpeningAnswersNone(row: Task, step: string, inputs: seq<(string, nat)>, reserve: Amount)
    requires OpenAttempt(row, step, inputs, reserve).Ok?
    ensures AnsweredFirst(OpenAttempt(row, step, inputs, reserve).value, step) <==> AnsweredFirst(row, step)
  {
  }

  /** What the others still write into the row of a finished task. */
  ghost predicate Untouched(row: Task, after: Task) {
    && after.state == row.state && after.attempt == row.attempt
    && (after.limit, after.reserved, after.used) == (row.limit, row.reserved, row.used)
    && |after.interactions| == |row.interactions|
    && (forall k :: 0 <= k < |row.interactions| ==> after.interactions[k].kind == row.interactions[k].kind)
    && (forall k :: 0 <= k < |row.interactions| && !row.interactions[k].kind.ToolApproval? ==>
                      after.interactions[k] == row.interactions[k])
  }

  lemma OthersLeaveTheEnd(row: Task, other: Other)
    requires Terminal(row.state) && OneWait(row)
    ensures Untouched(row, RowAfter(row, other))
  {
    TerminalIsFinal(row.state, AttemptState.Created);
  }

  lemma UntouchedIsDue(pack: Pack, w: World, after: World)
    requires Untouched(w.row, after.row) && after.pc == w.pc
    ensures TurnIsDue(pack, after) <==> TurnIsDue(pack, w)
  {
    forall id ensures AnsweredFirst(after.row, id) <==> AnsweredFirst(w.row, id) {
      SameAnswers(w.row, after.row, id);
      SameAnswers(after.row, w.row, id);
    }
    hide AnsweredFirst;
  }

  lemma SameAnswers(row: Task, after: Task, id: string)
    requires Untouched(row, after) || Untouched(after, row)
    ensures AnsweredFirst(row, id) ==> AnsweredFirst(after, id)
  {
    if AnsweredFirst(row, id) {
      var k :| 0 <= k < |row.interactions|
               && row.interactions[k].kind.Question? && row.interactions[k].askBefore
               && row.interactions[k].status.Consumed? && row.interactions[k].step == id;
      assert after.interactions[k].kind == row.interactions[k].kind;
      assert after.interactions[k] == row.interactions[k];
    }
  }

  lemma EndedStep(pack: Pack, w: World, e: Event)
    requires RowInv(w.row) && Terminal(w.row.state)
    ensures TurnsDue(pack, Next(pack, w, e)) <= TurnsDue(pack, w)
  {
    match e {
      case Act(admitted, turn) => EndedTurns(pack, w, admitted, turn);
      case Meanwhile(other) =>
        hide RowAfter, TurnIsDue;
        OthersLeaveTheEnd(w.row, other);
        UntouchedIsDue(pack, w, Elsewhere(w, other));
      case _ =>
    }
  }

  lemma {:induction false} EndedRun(pack: Pack, w: World, events: seq<Event>)
    requires PackOk(pack) && DriveInv(pack, w) && Terminal(w.row.state)
    ensures After(pack, w, events).turns <= TurnsDue(pack, w)
    decreases |events|
  {
    hide DriveInv, Next, TurnIsDue;
    if events != [] {
      RowOfDrive(pack, w);
      EndStays(pack, w, events[0]);
      EndedStep(pack, w, events[0]);
      NextKeeps(pack, w, events[0]);
      EndedRun(pack, Next(pack, w, events[0]), events[1..]);
    }
  }

  const ANY := Turn(0.0, false, false, false, false, false)

  /** A finished task takes one more turn at the most, and takes it, in some continuation, if and only if its driver
      is already past its look at the task: in front of an opening that goes through, or just behind it, in a step
      that has nothing to ask first. */
  lemma OneLateTurn(pack: Pack, w: World)
    requires PackOk(pack) && Reachable(pack, w) && Terminal(w.row.state)
    ensures forall events :: After(pack, w, events).turns <= w.turns + 1
    ensures (exists events :: After(pack, w, events).turns > w.turns) <==> TurnIsDue(pack, w)
  {
    ReachableKeeps(pack, w);
    hide DriveInv, PackOk;
    forall events ensures After(pack, w, events).turns <= TurnsDue(pack, w) {
      EndedRun(pack, w, events);
    }
    if TurnIsDue(pack, w) {
      TakesTheTurn(pack, w);
    }
  }

  lemma TakesTheTurn(pack: Pack, w: World)
    requires TurnIsDue(pack, w)
    ensures exists events :: After(pack, w, events).turns > w.turns
  {
    hide After;
    var act := Act(true, ANY);
    var next := Next(pack, w, act);
    if w.pc.Began? {
      One(pack, w, act);
      assert After(pack, w, [act]).turns > w.turns;
    } else {
      Two(pack, w, act, act);
      OpeningAnswersNone(w.row, pack[w.pc.i].id, w.pc.inputs, pack[w.pc.i].reserve);
      assert After(pack, w, [act, act]).turns > w.turns;
    }
  }

  // ---------- a task on its way ----------

  lemma EmptyOrSome(refs: seq<string>)
    ensures refs == [] || refs[0] in refs
  {
  }

  lemma FirstReadsNothing(pack: Pack)
    requires PackOk(pack)
    ensures pack[0].inputRefs == []
  {
    assert ReadsEarlier(pack, 0) && forall name :: !Provided(pack, 0, name);
    EmptyOrSome(pack[0].inputRefs);
  }

  /** A task without a limit, bound to its expert and queued. */
  lemma FirstCheck(pack: Pack) returns (w: World)
    requires PackOk(pack)
    ensures Reachable(pack, w) && w.pc.Check? && w.arts == map[] && w.turns == 0
    ensures w.row == NewTask(0, 0, 0, 0, None, false).(state := TaskState.Queued, version := 3)
  {
    hide Reachable, PackOk, OpenStep, CheckStep, SettleAs, Judge, MoveAttempt, Ask, AnsweredFirst, Branching;
    var act := Act(true, ANY);
    w := World(NewTask(0, 0, 0, 0, None, false), map[], [], Idle, 0, 0, 0);
    Starts(pack, w);
    OneMoreReachable(pack, w, Drive);
    w := Next(pack, w, Drive);
    OneMoreReachable(pack, w, act);
    w := Next(pack, w, act);
    OneMoreReachable(pack, w, act);
    w := Next(pack, w, act);
    OneMoreReachable(pack, w, act);
    w := Next(pack, w, act);
    OneMoreReachable(pack, w, act);
    w := Next(pack, w, act);
  }

  /** Its driver has looked and is about to open its first attempt. */
  lemma FirstOpening(pack: Pack) returns (w: World)
    requires PackOk(pack)
    ensures Reachable(pack, w) && w.pc == Opening(0, [], 0) && w.turns == 0
    ensures w.row == NewTask(0, 0, 0, 0, None, false).(state := TaskState.Queued, version := 3)
  {
    FirstReadsNothing(pack);
    w := FirstCheck(pack);
    hide Reachable;
    OneMoreReachable(pack, w, Act(true, ANY));
    w := Next(pack, w, Act(true, ANY));
  }

  lemma Starts(pack: Pack, w: World)
    requires HandedOver(w)
    ensures Reachable(pack, w)
  {
    AfterNone(pack, w);
  }

  /** The same task in the turn of its first step. */
  lemma FirstTurn(pack: Pack) returns (w: World)
    requires PackOk(pack) && !pack[0].asksBefore
    ensures Reachable(pack, w) && w.pc.Read? && w.row.state.Running? && w.row.interactions == []
    ensures w.row.attempt == Some(0) && |w.row.attempts| == 1 && !w.row.cancel && w.row.limit.None?
  {
    w := FirstOpening(pack);
    hide Reachable, PackOk;
    var act := Act(true, ANY);
    OneMoreReachable(pack, w, act);
    w := Next(pack, w, act);
    OneMoreReachable(pack, w, act);
    w := Next(pack, w, act);
    assert w.pc.InTurn? && w.row.attempts[0].status.Created?;
    OneMoreReachable(pack, w, act);
    w := Next(pack, w, act);
  }

  /** A cancel that lands between the driver's look and its opening ends the task, and the turn is still due. */
  lemma CancelledStillTakesATurn(pack: Pack)
    requires PackOk(pack) && !pack[0].asksBefore
    ensures exists w :: Reachable(pack, w) && w.row.state.Cancelled? && w.turns == 0 && TurnIsDue(pack, w)
  {
    var w := FirstOpening(pack);
    hide Reachable, PackOk, After;
    OneMoreReachable(pack, w, Meanwhile(Cancel));
    w := Next(pack, w, Meanwhile(Cancel));
    assert Reachable(pack, w) && w.row.state.Cancelled? && w.turns == 0 && TurnIsDue(pack, w);
  }

  // ---------- crashes in a turn ----------

  /** Ended by a user, or with an attempt left open and a driver that cannot get past it. */
  ghost predicate Stranded(pack: Pack, w: World, turns: nat, attempts: nat) {
    || w.row.state.Cancelled? || w.row.state.Failed?
    || (&& Open(w.row) && w.row.attempt.Some? && w.row.cursor < |pack|
        && w.turns == turns && |w.row.attempts| == attempts
        && (w.pc.Idle? || w.pc.Begin? || w.pc.Check? || w.pc.Opening? || w.pc.CancelTask?))
  }

  lemma StrandedTick(pack: Pack, w: World, turns: nat, attempts: nat, admitted: bool, turn: Turn)
    requires PackOk(pack) && DriveInv(pack, w) && Stranded(pack, w, turns, attempts) && Open(w.row)
    ensures Stranded(pack, Tick(pack, w, admitted, turn), turns, attempts)
  {
    InputsAreThere(pack, w);
    hide Failures, Inputs, TaskMoves, Steps, Booked, Conserved, WithinLimit, CappedWait, Bounded, PackOk, Locals;
  }

  lemma OthersKeepAttempt(row: Task, other: Other)
    requires OneWait(row)
    ensures RowAfter(row, other).attempt == row.attempt || Terminal(RowAfter(row, other).state)
  {
  }

  lemma StrandedOther(row: Task, other: Other)
    requires OneWait(row) && Open(row)
    ensures var after := RowAfter(row, other);
            && |after.attempts| == |row.attempts| && after.cursor == row.cursor
            && (after.state.Cancelled? || after.state.Failed? || (Open(after) && after.attempt == row.attempt))
  {
    hide RowAfter;
    OthersKeepAttempt(row, other);
    OthersDoNotDisturb(row, other);
  }

  lemma StrandedStep(pack: Pack, w: World, turns: nat, attempts: nat, e: Event)
    requires PackOk(pack) && DriveInv(pack, w) && Stranded(pack, w, turns, attempts)
    ensures Stranded(pack, Next(pack, w, e), turns, attempts)
  {
    hide WorkInv, Placed, Bounded, Booked, Conserved, WithinLimit, CappedWait, RowAfter, Tick, PackOk;
    if Terminal(w.row.state) {
      EndStays(pack, w, e);
    } else {
      match e {
        case Meanwhile(other) => StrandedOther(w.row, other);
        case Act(admitted, turn) => StrandedTick(pack, w, turns, attempts, admitted, turn);
        case _ =>
      }
    }
  }

  lemma {:induction false} EndsForever(pack: Pack, w: World, events: seq<Event>)
    requires PackOk(pack) && DriveInv(pack, w) && Terminal(w.row.state)
    ensures After(pack, w, events).row.state == w.row.state
    decreases |events|
  {
    hide DriveInv, Next, PackOk;
    if events != [] {
      RowOfDrive(pack, w);
      EndStays(pack, w, events[0]);
      NextKeeps(pack, w, events[0]);
      EndsForever(pack, Next(pack, w, events[0]), events[1..]);
    }
  }

  lemma {:induction false} StrandedForever(pack: Pack, w: World, turns: nat, attempts: nat, events: seq<Event>)
    requires PackOk(pack) && DriveInv(pack, w) && Stranded(pack, w, turns, attempts)
    ensures Stranded(pack, After(pack, w, events), turns, attempts)
    decreases |events|
  {
    hide DriveInv, Next, Stranded, PackOk;
    if events != [] {
      StrandedStep(pack, w, turns, attempts, events[0]);
      NextKeeps(pack, w, events[0]);
      StrandedForever(pack, Next(pack, w, events[0]), turns, attempts, events[1..]);
    }
  }

  /** A crash while a turn is out leaves its attempt open, and the next drives only raise: until a user's cancel or
      answer ends the task, its attempt stays and no other opens. */
  lemma CrashInATurnStrands(pack: Pack, w: World, events: seq<Event>)
    requires PackOk(pack) && Reachable(pack, w) && Open(w.row) && w.row.attempt.Some?
    requires w.pc.InTurn? || w.pc.Read? || w.pc.Began? || w.pc.Settle? || w.pc.Unask?
    ensures var after := After(pack, Next(pack, w, Crash), events);
            || after.row.state.Cancelled? || after.row.state.Failed?
            || (&& Open(after.row) && after.row.attempt.Some? && after.turns == w.turns
                && |after.row.attempts| == |w.row.attempts|)
  {
    ReachableKeeps(pack, w);
    NextKeeps(pack, w, Crash);
    StrandedForever(pack, Next(pack, w, Crash), w.turns, |w.row.attempts|, events);
  }

  /** With no attempt left open a restart goes on where the task was: the next attempt is of the step at the
      cursor, on the newest versions of its inputs. */
  lemma RestartResumes(pack: Pack, w: World, admitted: bool, turn: Turn)
    requires PackOk(pack) && Reachable(pack, w) && w.pc.Idle?
    requires (w.row.state.Queued? || w.row.state.Running?) && !w.row.cancel && w.row.cursor < |pack|
    requires w.row.attempt.None? && Budgeted(w.row) && Affordable(w.row, pack[w.row.cursor].reserve)
    ensures var again := After(pack, w, [Drive, Act(admitted, turn), Act(admitted, turn), Act(admitted, turn)]);
            && again.pc.Began? && again.pc.i == w.row.cursor && again.row.state.Running?
            && again.row.attempt == Some(|w.row.attempts|) && |again.row.attempts| == |w.row.attempts| + 1
            && var attempt := again.row.attempts[|w.row.attempts|];
            && attempt.step == pack[w.row.cursor].id
            && Some(attempt.inputs) == Inputs(pack[w.row.cursor].inputRefs, w.arts)
  {
    NothingIsMissing(pack, w);
    var act := Act(admitted, turn);
    var w1 := Next(pack, w, Drive);
    var w2 := Next(pack, w1, act);
    var w3 := Next(pack, w2, act);
    var w4 := Next(pack, w3, act);
    assert After(pack, w, [Drive, act, act, act]) == w4 by {
      Four(pack, w, Drive, act, act, act);
    }
  }

  /** A task that nobody drives and that is ready to go on gets another attempt while it is unfinished, in some
      continuation, if and only if no attempt of it was left open. */
  lemma RestartGoesOn(pack: Pack, w: World)
    requires PackOk(pack) && Reachable(pack, w) && w.pc.Idle?
    requires (w.row.state.Queued? || w.row.state.Running?) && !w.row.cancel && w.row.cursor < |pack|
    requires Budgeted(w.row) && Affordable(w.row, pack[w.row.cursor].reserve)
    ensures (exists events ::
               var after := After(pack, w, events).row; Open(after) && |after.attempts| > |w.row.attempts|)
       <==> w.row.attempt.None?
  {
    hide Reachable, After, PackOk;
    if w.row.attempt.None? {
      RestartResumes(pack, w, true, ANY);
      var act := Act(true, ANY);
      var after := After(pack, w, [Drive, act, act, act]).row;
      assert Open(after) && |after.attempts| > |w.row.attempts|;
    } else {
      ReachableKeeps(pack, w);
      forall events
        ensures var after := After(pack, w, events).row; Open(after) ==> |after.attempts| == |w.row.attempts|
      {
        StrandedForever(pack, w, w.turns, |w.row.attempts|, events);
      }
    }
  }

  // ---------- waits nobody can end ----------

  /** The interaction can never be answered again: it is settled or expired, or the row has been written since. */
  predicate Closed(row: Task, i: nat)
    requires i < |row.interactions|
  {
    !row.interactions[i].status.Pending? || row.interactions[i].target < row.version
  }

  /** A top-up cannot be taken because the budget cannot be read; the user can still refuse. */
  predicate OnlyRefusable(row: Task, i: nat)
    requires i < |row.interactions|
  {
    row.interactions[i].kind.ToppingUp? && !Budgeted(row)
  }

  /** The task waits for an answer that cannot come. */
  ghost predicate NoAnswer(row: Task, i: nat, refusable: bool) {
    && row.state.Waiting? && row.interaction == Some(i) && i < |row.interactions|
    && (Closed(row, i) || (refusable && OnlyRefusable(row, i)))
  }

  /** That, or it has been ended: by a cancel, or where `refusable`, by a refusal. */
  ghost predicate Parked(w: World, i: nat, refusable: bool) {
    || w.row.state.Cancelled? || (refusable && w.row.state.Failed?)
    || (NoAnswer(w.row, i, refusable) && (w.pc.Idle? || w.pc.Begin? || w.pc.Check?))
  }

  lemma OthersCannotUnpark(row: Task, i: nat, other: Other, refusable: bool)
    requires NoAnswer(row, i, refusable)
    ensures var after := RowAfter(row, other);
            after.state.Cancelled? || (refusable && after.state.Failed?) || NoAnswer(after, i, refusable)
  {
  }

  lemma ParkedStays(pack: Pack, w: World, i: nat, refusable: bool, e: Event)
    requires RowInv(w.row) && Parked(w, i, refusable)
    ensures Parked(Next(pack, w, e), i, refusable)
  {
    hide RowInv;
    if Terminal(w.row.state) {
      hide Next;
      EndStays(pack, w, e);
    } else {
      match e {
        case Meanwhile(other) =>
          hide RowAfter;
          OthersCannotUnpark(w.row, i, other, refusable);
        case _ =>
      }
    }
  }

  lemma {:induction false} ParkedForever(pack: Pack, w: World, i: nat, refusable: bool, events: seq<Event>)
    requires PackOk(pack) && DriveInv(pack, w) && Parked(w, i, refusable)
    ensures Parked(After(pack, w, events), i, refusable)
    decreases |events|
  {
    hide DriveInv, Next, Parked, PackOk;
    if events != [] {
      RowOfDrive(pack, w);
      ParkedStays(pack, w, i, refusable, events[0]);
      NextKeeps(pack, w, events[0]);
      ParkedForever(pack, Next(pack, w, events[0]), i, refusable, events[1..]);
    }
  }

  /** A machine is taken over: its pending tool approvals expire. */
  function TakenOver(pack: Pack, w: World): World {
    Next(pack, w, Meanwhile(ApprovalsExpire))
  }

  /** Going on: neither ended nor waiting. */
  predicate MovesOn(row: Task) {
    Open(row) && !row.state.Waiting?
  }

  /** What the owner of a machine can look at before it is taken over. */
  predicate StaysAnswerable(row: Task, i: nat)
    requires i < |row.interactions|
  {
    && !row.interactions[i].kind.ToolApproval?
    && row.interactions[i].target == row.version
    && (row.interactions[i].kind.ToppingUp? ==> Budgeted(row))
  }

  /** A task that waits for a tool approval when its machine is taken over waits until the user cancels it: no
      answer, no restart and no other event moves it. */
  lemma ExpiredApprovalParks(pack: Pack, w: World, i: nat, events: seq<Event>)
    requires PackOk(pack) && Reachable(pack, w) && w.pc.Idle? && w.row.state.Waiting?
    requires w.row.interaction == Some(i) && i < |w.row.interactions| && w.row.interactions[i].kind.ToolApproval?
    ensures var row := After(pack, TakenOver(pack, w), events).row;
            row.state.Cancelled? || (row.state.Waiting? && row.interaction == Some(i))
  {
    hide Reachable, After, PackOk, DriveInv;
    ReachableKeeps(pack, w);
    NextKeeps(pack, w, Meanwhile(ApprovalsExpire));
    ParkedForever(pack, TakenOver(pack, w), i, false, events);
  }

  /** A waiting task whose machine is taken over can go on, in some continuation, if and only if it does not wait for
      a tool approval, its row has not been written since it was asked, and, if it is asked for budget, its budget
      can be read. */
  lemma TakenOverGoesOn(pack: Pack, w: World, i: nat)
    requires PackOk(pack) && Reachable(pack, w) && w.pc.Idle? && w.row.state.Waiting?
    requires w.row.interaction == Some(i) && i < |w.row.interactions| && w.row.interactions[i].status.Pending?
    ensures (exists events :: MovesOn(After(pack, TakenOver(pack, w), events).row)) <==> StaysAnswerable(w.row, i)
  {
    hide Reachable, After, PackOk, DriveInv, OneLive, Booked, Conserved, WithinLimit;
    ReachableKeeps(pack, w);
    NextKeeps(pack, w, Meanwhile(ApprovalsExpire));
    RowOfDrive(pack, w);
    var taken := TakenOver(pack, w);
    if StaysAnswerable(w.row, i) {
      var answer := Answered(i, Ticket(true, true, true),
                             if w.row.interactions[i].kind.ToppingUp? then TopupBy(1.0) else Other);
      One(pack, taken, Meanwhile(answer));
      assert MovesOn(After(pack, taken, [Meanwhile(answer)]).row);
    } else {
      assert Parked(taken, i, true);
      forall events ensures !MovesOn(After(pack, taken, events).row) {
        ParkedForever(pack, taken, i, true, events);
      }
    }
  }

  /** It does come to that: a turn asks for an approval, its machine goes down, and another takes it over. */
  lemma ApprovalLeftBehind(pack: Pack) returns (w: World)
    requires PackOk(pack) && !pack[0].asksBefore
    ensures Reachable(pack, w) && w.pc.Idle? && w.row.state.Waiting? && w.row.interaction == Some(0)
    ensures |w.row.interactions| == 1 && w.row.interactions[0].status.Pending? && !StaysAnswerable(w.row, 0)
    ensures w.row.interactions[0].kind.ToolApproval?
  {
    w := FirstTurn(pack);
    hide Reachable, PackOk;
    var asks := Meanwhile(TurnAsks(ToolApproval, Approval, ""));
    OneMoreReachable(pack, w, asks);
    w := Next(pack, w, asks);
    OneMoreReachable(pack, w, Crash);
    w := Next(pack, w, Crash);
  }
}
